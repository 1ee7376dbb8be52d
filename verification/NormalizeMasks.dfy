/**
  * What a normal form shows of a response and what it hides (cp/normalize.py:115-153), leaf by leaf and
  * without speaking of the rules that produce it.
  */
module NormalizeMasks {
  import Decimals
  import opened Options
  import opened Placeholders
  import opened Normalize
  import opened NormalizeLaws

  predicate Empty(v: Json) {
    v == Null || v == Str("")
  }

  predicate IsDate(e: Settings, v: Json) {
    v.Str? && e.isIso(v.s)
  }

  // What str() makes of an identifier.
  predicate ReadsAs(v: Json, raw: string) {
    match v
    case Str(s) => raw == s
    case Num(repr) => raw == repr
    case Bool(b) => raw == if b then "True" else "False"
    case _ => false
  }

  // ---- From the response to its normal form ----

  ghost predicate MaskedLeaf(e: Settings, v: Json, r: Json, t: Traits, ids: seq<Id>) {
    && (t.session ==> r == if Empty(v) then v else Str("<SESSION_ID>"))
    && (t.secret ==> r == if Empty(v) || v.Bool? then v else Str("<REDACTED>"))
    && (t.timestamp ==> r == if v == Null then v else Str("<TIMESTAMP>"))
    && (t.kind.Some? ==>
          if Empty(v) then r == v
          else exists raw :: ReadsAs(v, raw) && r == Str(Place(ids, Id(t.kind.value, raw))))
    && (!t.session && !t.secret && !t.timestamp && t.kind.None? ==>
          r == if IsDate(e, v) then Str("<TIMESTAMP>") else if e.prices && t.price then Str("<PRICE>") else v)
  }

  // `r` has the shape and the keys of `v`, its masked values are masked, and everything else is as it was.
  ghost predicate Masked(e: Settings, v: Json, r: Json, parent: Option<string>, ids: seq<Id>)
    decreases v
  {
    match v
    case Arr(items) =>
      r.Arr? && |r.items| == |items| &&
      forall i :: 0 <= i < |items| ==> Masked(e, items[i], r.items[i], parent, ids)
    case Obj(fields) =>
      r.Obj? && |r.fields| == |fields| &&
      forall i :: 0 <= i < |fields| ==>
        r.fields[i].key == fields[i].key &&
        Masked(e, fields[i].value, r.fields[i].value, Some(fields[i].key), ids)
    case _ => Leaf(r) && if parent == None then r == v else MaskedLeaf(e, v, r, e.traits(parent.value), ids)
  }

  lemma {:induction false} LeafIsMasked(e: Settings, v: Json, t: Traits, ids: seq<Id>)
    requires Sane(e) && Apart(t) && Leaf(v)
    ensures MaskedLeaf(e, v, Scrubbed(v, RuleUnder(e, v, t), Places(ids), true), t, ids)
  {
    if t.kind.Some? && !Empty(v) { assert ReadsAs(v, Text(v)); }
  }

  lemma {:induction false} ItemAt(e: Settings, items: seq<Json>, parent: Option<string>, name: Id -> string, i: nat)
    requires i < |items|
    ensures RewriteItems(e, items, parent, name, true)[i] == Rewrite(e, items[i], parent, name, true)
  {
    if i < |items| - 1 { ItemAt(e, items[..|items| - 1], parent, name, i); }
  }

  lemma {:induction false} FieldAt(e: Settings, fields: seq<Field>, name: Id -> string, i: nat)
    requires i < |fields|
    ensures RewriteFields(e, fields, name, true)[i]
            == Field(fields[i].key, Rewrite(e, fields[i].value, Some(fields[i].key), name, true))
  {
    if i < |fields| - 1 { FieldAt(e, fields[..|fields| - 1], name, i); }
  }

  lemma {:induction false} RewriteMasks(e: Settings, v: Json, parent: Option<string>, ids: seq<Id>)
    requires Sane(e)
    ensures Masked(e, v, Rewrite(e, v, parent, Places(ids), true), parent, ids)
    decreases v
  {
    match v
    case Arr(items) =>
      forall i | 0 <= i < |items|
        ensures Masked(e, items[i], RewriteItems(e, items, parent, Places(ids), true)[i], parent, ids)
      {
        ItemAt(e, items, parent, Places(ids), i);
        RewriteMasks(e, items[i], parent, ids);
      }
    case Obj(fields) =>
      forall i | 0 <= i < |fields|
        ensures var field := RewriteFields(e, fields, Places(ids), true)[i];
                field.key == fields[i].key &&
                Masked(e, fields[i].value, field.value, Some(fields[i].key), ids)
      {
        FieldAt(e, fields, Places(ids), i);
        RewriteMasks(e, fields[i].value, Some(fields[i].key), ids);
      }
    case _ =>
      if parent != None { LeafIsMasked(e, v, e.traits(parent.value), ids); }
  }

  // The normal form hides exactly what it should, and shows everything else as it was.
  lemma {:induction false} NormalFormMasks(e: Settings, v: Json)
    requires Sane(e)
    ensures Masked(e, v, Normalized(e, v), None, Ids(e, v, None))
  {
    RewriteMasks(e, v, None, Ids(e, v, None));
  }

  // ---- What is left in a normal form ----

  predicate CleanLeaf(e: Settings, r: Json, t: Traits) {
    && (t.session ==> Empty(r) || r == Str("<SESSION_ID>"))
    && (t.secret ==> Empty(r) || r.Bool? || r == Str("<REDACTED>"))
    && (t.timestamp ==> r == Null || r == Str("<TIMESTAMP>"))
    && (e.prices && t.price ==> r == Str("<PRICE>") || r == Str("<TIMESTAMP>"))
    && !IsDate(e, r)
  }

  ghost predicate Clean(e: Settings, r: Json, parent: Option<string>)
    decreases r
  {
    match r
    case Arr(items) => forall i :: 0 <= i < |items| ==> Clean(e, items[i], parent)
    case Obj(fields) => forall i :: 0 <= i < |fields| ==> Clean(e, fields[i].value, Some(fields[i].key))
    case _ => parent != None ==> CleanLeaf(e, r, e.traits(parent.value))
  }

  lemma {:induction false} MaskedLeafIsClean(e: Settings, v: Json, r: Json, t: Traits, ids: seq<Id>)
    requires Sane(e) && Apart(t) && MaskedLeaf(e, v, r, t, ids)
    ensures CleanLeaf(e, r, t)
  {
    if t.kind.Some? && !Empty(v) {
      var raw :| ReadsAs(v, raw) && r == Str(Place(ids, Id(t.kind.value, raw)));
      assert r.s[0] == '<';
    }
  }

  lemma {:induction false} MaskedIsClean(e: Settings, v: Json, r: Json, parent: Option<string>, ids: seq<Id>)
    requires Sane(e) && Masked(e, v, r, parent, ids)
    ensures Clean(e, r, parent)
    decreases v
  {
    match v
    case Arr(items) =>
      forall i | 0 <= i < |items|
        ensures Clean(e, r.items[i], parent)
      {
        MaskedIsClean(e, items[i], r.items[i], parent, ids);
      }
    case Obj(fields) =>
      forall i | 0 <= i < |fields|
        ensures Clean(e, r.fields[i].value, Some(r.fields[i].key))
      {
        MaskedIsClean(e, fields[i].value, r.fields[i].value, Some(fields[i].key), ids);
      }
    case _ =>
      if parent != None { MaskedLeafIsClean(e, v, r, e.traits(parent.value), ids); }
  }

  // No secret, session, time stamp or date is left in a normal form, nor a price if prices are normalised.
  lemma {:induction false} NothingSensitiveIsLeft(e: Settings, v: Json)
    requires Sane(e)
    ensures Clean(e, Normalized(e, v), None)
  {
    NormalFormMasks(e, v);
    MaskedIsClean(e, v, Normalized(e, v), None, Ids(e, v, None));
  }

  // ---- What the normal form does not depend on ----

  // Two values of which the normal form shows the same mask.
  predicate SameMask(e: Settings, a: Json, b: Json, t: Traits) {
    || (t.session && !Empty(a) && !Empty(b))
    || (t.secret && !Empty(a) && !Empty(b) && !a.Bool? && !b.Bool?)
    || (t.timestamp && a != Null && b != Null)
    || (t.kind.None? && IsDate(e, a) && IsDate(e, b))
    || (e.prices && t.price && !IsDate(e, a) && !IsDate(e, b))
  }

  // The two payloads differ in masked values only.
  ghost predicate Alike(e: Settings, v: Json, w: Json, parent: Option<string>)
    decreases v
  {
    match v
    case Arr(items) =>
      w.Arr? && |w.items| == |items| && forall i :: 0 <= i < |items| ==> Alike(e, items[i], w.items[i], parent)
    case Obj(fields) =>
      w.Obj? && |w.fields| == |fields| &&
      forall i :: 0 <= i < |fields| ==>
        w.fields[i].key == fields[i].key && Alike(e, fields[i].value, w.fields[i].value, Some(fields[i].key))
    case _ => Leaf(w) && (v == w || (parent != None && SameMask(e, v, w, e.traits(parent.value))))
  }

  lemma {:induction false} SameRule(e: Settings, a: Json, b: Json, t: Traits)
    requires Sane(e) && Apart(t) && SameMask(e, a, b, t)
    ensures RuleUnder(e, a, t) == RuleUnder(e, b, t) && RuleUnder(e, a, t) != Keep && !RuleUnder(e, a, t).AsId?
  {
  }

  lemma {:induction false} AlikeLeaves(e: Settings, v: Json, w: Json, parent: Option<string>, name: Id -> string)
    requires Sane(e) && Leaf(v) && Alike(e, v, w, parent)
    ensures Ids(e, v, parent) == Ids(e, w, parent)
    ensures Rewrite(e, v, parent, name, true) == Rewrite(e, w, parent, name, true)
  {
    if v != w { SameRule(e, v, w, e.traits(parent.value)); }
  }

  lemma {:induction false} AlikeTrees(e: Settings, v: Json, w: Json, parent: Option<string>, name: Id -> string)
    requires Sane(e) && Alike(e, v, w, parent)
    ensures Ids(e, v, parent) == Ids(e, w, parent)
    ensures Rewrite(e, v, parent, name, true) == Rewrite(e, w, parent, name, true)
    decreases v
  {
    match v
    case Arr(items) => AlikeItems(e, items, w.items, parent, name);
    case Obj(fields) => AlikeFields(e, fields, w.fields, name);
    case _ => AlikeLeaves(e, v, w, parent, name);
  }

  lemma {:induction false} AlikeItems(e: Settings, items: seq<Json>, others: seq<Json>, parent: Option<string>,
                                      name: Id -> string)
    requires Sane(e) && |items| == |others|
    requires forall i :: 0 <= i < |items| ==> Alike(e, items[i], others[i], parent)
    ensures IdsOfItems(e, items, parent) == IdsOfItems(e, others, parent)
    ensures RewriteItems(e, items, parent, name, true) == RewriteItems(e, others, parent, name, true)
    decreases items
  {
    if items != [] {
      var n := |items| - 1;
      AlikeItems(e, items[..n], others[..n], parent, name);
      AlikeTrees(e, items[n], others[n], parent, name);
    }
  }

  lemma {:induction false} AlikeFields(e: Settings, fields: seq<Field>, others: seq<Field>, name: Id -> string)
    requires Sane(e) && |fields| == |others|
    requires forall i :: 0 <= i < |fields| ==>
               others[i].key == fields[i].key && Alike(e, fields[i].value, others[i].value, Some(fields[i].key))
    ensures IdsOfFields(e, fields) == IdsOfFields(e, others)
    ensures RewriteFields(e, fields, name, true) == RewriteFields(e, others, name, true)
    decreases fields
  {
    if fields != [] {
      var n := |fields| - 1;
      AlikeFields(e, fields[..n], others[..n], name);
      AlikeTrees(e, fields[n].value, others[n].value, Some(fields[n].key), name);
    }
  }

  // Payloads that differ only in masked values have the same normal form: it tells nothing about them.
  lemma {:induction false} MaskedValuesDoNotShow(e: Settings, v: Json, w: Json)
    requires Sane(e) && Alike(e, v, w, None)
    ensures Normalized(e, v) == Normalized(e, w)
  {
    AlikeTrees(e, v, w, None, Places(Ids(e, v, None)));
  }

  // ---- Numbered placeholders ----

  // A number is written with leading zeros up to three digits, and as it is from four digits on.
  lemma {:induction false} ThreeDigits(n: nat)
    ensures |Padded(n)| == if |Decimals.Decimal(n)| < 3 then 3 else |Decimals.Decimal(n)|
    ensures Decimals.Read(Padded(n)) == n
  {
    ReadPadded(n);
  }
}
