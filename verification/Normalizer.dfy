/** The walk of normalize_response and the state it carries along (cp/normalize.py:71-127). */
module Normalizer {
  import opened Options
  import opened Placeholders
  import opened Normalize

  // A bucket gives every known identifier its number, counted from one.
  ghost predicate Numbers(bucket: map<string, string>, text: nat -> string, known: seq<string>) {
    && |bucket| == |known|
    && (forall x :: x in bucket ==> x in known)
    && (forall i :: 0 <= i < |known| ==> known[i] in bucket && bucket[known[i]] == text(i + 1))
  }

  function Texts(kind: Kind): nat -> string {
    (n: nat) => Placeholder(Name(kind), n)
  }

  // The dictionary of a kind after it was asked for `x`.
  function Asked(bucket: map<string, string>, text: nat -> string, x: string): map<string, string> {
    if x in bucket then bucket else bucket[x := text(|bucket| + 1)]
  }

  lemma AskedNumbers(bucket: map<string, string>, text: nat -> string, known: seq<string>, x: string)
    requires Numbers(bucket, text, known)
    ensures Numbers(Asked(bucket, text, x), text, if x in known then known else known + [x])
  {
  }

  lemma NumberAtPosition(bucket: map<string, string>, text: nat -> string, known: seq<string>, x: string)
    requires Numbers(bucket, text, known) && x in known
    ensures x in bucket && bucket[x] == text(Position(known, x) + 1)
  {
    var i := Position(known, x);
    assert known[i] == x;
  }

  lemma AskedFor(bucket: map<string, string>, text: nat -> string, seen: seq<Id>, id: Id)
    requires Numbers(bucket, text, Known(seen, id.kind))
    ensures var after := Asked(bucket, text, id.raw);
            && Numbers(after, text, Known(seen + [id], id.kind))
            && id.raw in after && after[id.raw] == text(NumberOf(seen + [id], id))
  {
    KnownOfOneMore(seen, id, id.kind);
    InKnown(seen, id);
    InKnown(seen + [id], id);
    AskedOfKnown(bucket, text, Known(seen, id.kind), Known(seen + [id], id.kind), id.raw);
  }

  lemma AskedOfKnown(bucket: map<string, string>, text: nat -> string, known: seq<string>, more: seq<string>, x: string)
    requires Numbers(bucket, text, known) && x in more && more == if x in known then known else known + [x]
    ensures var after := Asked(bucket, text, x);
            Numbers(after, text, more) && x in after && after[x] == text(Position(more, x) + 1)
  {
    AskedNumbers(bucket, text, known, x);
    NumberAtPosition(Asked(bucket, text, x), text, more, x);
  }

  function Bucket(buckets: map<Kind, map<string, string>>, kind: Kind): map<string, string> {
    if kind in buckets then buckets[kind] else map[]
  }

  ghost predicate AllNumbered(buckets: map<Kind, map<string, string>>, seen: seq<Id>) {
    forall kind :: Numbers(Bucket(buckets, kind), Texts(kind), Known(seen, kind))
  }

  lemma AskedKeepsAll(buckets: map<Kind, map<string, string>>, seen: seq<Id>, id: Id)
    requires AllNumbered(buckets, seen)
    ensures var bucket := Asked(Bucket(buckets, id.kind), Texts(id.kind), id.raw);
            && AllNumbered(buckets[id.kind := bucket], seen + [id])
            && id.raw in bucket && bucket[id.raw] == Texts(id.kind)(NumberOf(seen + [id], id))
  {
    var after := buckets[id.kind := Asked(Bucket(buckets, id.kind), Texts(id.kind), id.raw)];
    AskedFor(Bucket(buckets, id.kind), Texts(id.kind), seen, id);
    forall k
      ensures Numbers(Bucket(after, k), Texts(k), Known(seen + [id], k))
    {
      if k != id.kind {
        KnownOfOneMore(seen, id, k);
        assert Bucket(after, k) == Bucket(buckets, k);
      }
    }
  }

  lemma TextIsPlace(ids: seq<Id>, id: Id)
    ensures Texts(id.kind)(NumberOf(ids, id)) == Place(ids, id)
  {
  }

  class NormalizeState {
    const settings: Settings
    var buckets: map<Kind, map<string, string>>
    // What was asked for so far, in the order of the walk.
    ghost var seen: seq<Id>

    constructor (settings: Settings)
      ensures Valid() && this.settings == settings && seen == []
    {
      this.settings := settings;
      buckets := map[];
      seen := [];
    }

    ghost predicate Valid()
      reads this
    {
      AllNumbered(buckets, seen)
    }

    // The same identifier always gets the same placeholder, the number of its first occurrence.
    method Placeholder(kind: Kind, raw: string) returns (r: string)
      requires Valid()
      modifies this
      ensures Valid() && seen == old(seen) + [Id(kind, raw)]
      ensures r == Place(seen, Id(kind, raw))
    {
      var text, bucket := Texts(kind), Bucket(buckets, kind);
      ghost var after := Asked(bucket, text, raw);
      AskedKeepsAll(buckets, seen, Id(kind, raw));
      TextIsPlace(seen + [Id(kind, raw)], Id(kind, raw));
      if raw !in bucket {
        bucket := bucket[raw := text(|bucket| + 1)];
      }
      assert bucket == after;
      buckets := buckets[kind := bucket];
      seen := seen + [Id(kind, raw)];
      r := bucket[raw];
    }

    method Scalar(v: Json, parent: Option<string>) returns (r: Json)
      requires Valid() && Leaf(v)
      modifies this
      ensures Valid() && seen == old(seen) + Ids(settings, v, parent)
      ensures r == Rewrite(settings, v, parent, Places(seen), true)
    {
      match RuleFor(settings, v, parent)
      case AsId(id) =>
        var p := Placeholder(id.kind, id.raw);
        r := Str(p);
      case AsSession => r := Str("<SESSION_ID>");
      case AsSecret => r := Str("<REDACTED>");
      case AsTimestamp => r := Str("<TIMESTAMP>");
      case AsDate => r := Str("<TIMESTAMP>");
      case AsPrice => r := Str("<PRICE>");
      case Keep => r := v;
    }

    method Walk(v: Json, parent: Option<string>) returns (r: Json)
      requires Valid()
      modifies this
      ensures Valid() && seen == old(seen) + Ids(settings, v, parent)
      ensures r == Rewrite(settings, v, parent, Places(seen), true)
      decreases v
    {
      match v
      case Obj(fields) =>
        var out := WalkFields(fields);
        r := Obj(out);
      case Arr(items) =>
        var out := WalkItems(items, parent);
        r := Arr(out);
      case _ => r := Scalar(v, parent);
    }

    // Later identifiers do not disturb what was written before.
    method WalkItems(items: seq<Json>, parent: Option<string>) returns (out: seq<Json>)
      requires Valid()
      modifies this
      ensures Valid() && seen == old(seen) + IdsOfItems(settings, items, parent)
      ensures out == RewriteItems(settings, items, parent, Places(seen), true)
      decreases items
    {
      out := [];
      for i := 0 to |items|
        invariant Valid() && seen == old(seen) + IdsOfItems(settings, items[..i], parent)
        invariant out == RewriteItems(settings, items[..i], parent, Places(seen), true)
      {
        var w := Walk(items[i], parent);
        OneMoreItem(settings, items, i, parent, old(seen), out, w);
        out := out + [w];
      }
      assert items[..|items|] == items;
    }

    method WalkFields(fields: seq<Field>) returns (out: seq<Field>)
      requires Valid()
      modifies this
      ensures Valid() && seen == old(seen) + IdsOfFields(settings, fields)
      ensures out == RewriteFields(settings, fields, Places(seen), true)
      decreases fields
    {
      out := [];
      for i := 0 to |fields|
        invariant Valid() && seen == old(seen) + IdsOfFields(settings, fields[..i])
        invariant out == RewriteFields(settings, fields[..i], Places(seen), true)
      {
        var w := Walk(fields[i].value, Some(fields[i].key));
        OneMoreField(settings, fields, i, old(seen), out, w);
        out := out + [Field(fields[i].key, w)];
      }
      assert fields[..|fields|] == fields;
    }
  }

  // ---- Rewriting depends on the names of the tree's own identifiers only ----

  ghost predicate Agree(name: Id -> string, other: Id -> string, ids: seq<Id>) {
    forall a :: a in ids ==> name(a) == other(a)
  }

  lemma {:induction false} SameNames(e: Settings, v: Json, parent: Option<string>, name: Id -> string,
                                     other: Id -> string)
    requires Agree(name, other, Ids(e, v, parent))
    ensures Rewrite(e, v, parent, name, true) == Rewrite(e, v, parent, other, true)
    decreases v
  {
    match v
    case Arr(items) => SameNamesInItems(e, items, parent, name, other);
    case Obj(fields) => SameNamesInFields(e, fields, name, other);
    case _ => SameNamesInLeaf(e, v, parent, name, other);
  }

  lemma SameNamesInLeaf(e: Settings, v: Json, parent: Option<string>, name: Id -> string, other: Id -> string)
    requires Leaf(v) && Agree(name, other, Ids(e, v, parent))
    ensures Scrubbed(v, RuleFor(e, v, parent), name, true) == Scrubbed(v, RuleFor(e, v, parent), other, true)
  {
    var rule := RuleFor(e, v, parent);
    if rule.AsId? { assert rule.id in [rule.id]; }
  }

  lemma {:induction false} SameNamesInItems(e: Settings, items: seq<Json>, parent: Option<string>,
                                            name: Id -> string, other: Id -> string)
    requires Agree(name, other, IdsOfItems(e, items, parent))
    ensures RewriteItems(e, items, parent, name, true) == RewriteItems(e, items, parent, other, true)
    decreases items
  {
    if items != [] {
      SameNamesInItems(e, items[..|items| - 1], parent, name, other);
      SameNames(e, items[|items| - 1], parent, name, other);
    }
  }

  lemma {:induction false} SameNamesInFields(e: Settings, fields: seq<Field>, name: Id -> string,
                                             other: Id -> string)
    requires Agree(name, other, IdsOfFields(e, fields))
    ensures RewriteFields(e, fields, name, true) == RewriteFields(e, fields, other, true)
    decreases fields
  {
    if fields != [] {
      var last := fields[|fields| - 1];
      SameNamesInFields(e, fields[..|fields| - 1], name, other);
      SameNames(e, last.value, Some(last.key), name, other);
    }
  }

  lemma PlacesAgree(before: seq<Id>, ids: seq<Id>, more: seq<Id>)
    ensures Agree(Places(before + ids), Places(before + ids + more), ids)
  {
    forall a | a in ids
      ensures Places(before + ids)(a) == Places(before + ids + more)(a)
    {
      PlaceIsStable(before + ids, more, a);
    }
  }

  lemma ItemsStayPut(e: Settings, items: seq<Json>, parent: Option<string>, before: seq<Id>, more: seq<Id>)
    ensures var seen := before + IdsOfItems(e, items, parent);
            RewriteItems(e, items, parent, Places(seen), true)
            == RewriteItems(e, items, parent, Places(seen + more), true)
  {
    var ids := IdsOfItems(e, items, parent);
    PlacesAgree(before, ids, more);
    SameNamesInItems(e, items, parent, Places(before + ids), Places(before + ids + more));
  }

  lemma FieldsStayPut(e: Settings, fields: seq<Field>, before: seq<Id>, more: seq<Id>)
    ensures var seen := before + IdsOfFields(e, fields);
            RewriteFields(e, fields, Places(seen), true) == RewriteFields(e, fields, Places(seen + more), true)
  {
    var ids := IdsOfFields(e, fields);
    PlacesAgree(before, ids, more);
    SameNamesInFields(e, fields, Places(before + ids), Places(before + ids + more));
  }

  // Later identifiers do not disturb what was written before.
  lemma OneMoreItem(e: Settings, items: seq<Json>, i: nat, parent: Option<string>, before: seq<Id>,
                    out: seq<Json>, w: Json)
    requires i < |items|
    requires out == RewriteItems(e, items[..i], parent, Places(before + IdsOfItems(e, items[..i], parent)), true)
    requires var seen := before + IdsOfItems(e, items[..i], parent) + Ids(e, items[i], parent);
             w == Rewrite(e, items[i], parent, Places(seen), true)
    ensures var seen := before + IdsOfItems(e, items[..i], parent) + Ids(e, items[i], parent);
            && seen == before + IdsOfItems(e, items[..i + 1], parent)
            && out + [w] == RewriteItems(e, items[..i + 1], parent, Places(seen), true)
  {
    assert items[..i + 1][..i] == items[..i];
    ItemsStayPut(e, items[..i], parent, before, Ids(e, items[i], parent));
  }

  lemma OneMoreField(e: Settings, fields: seq<Field>, i: nat, before: seq<Id>, out: seq<Field>, w: Json)
    requires i < |fields|
    requires out == RewriteFields(e, fields[..i], Places(before + IdsOfFields(e, fields[..i])), true)
    requires var field := fields[i];
             var seen := before + IdsOfFields(e, fields[..i]) + Ids(e, field.value, Some(field.key));
             w == Rewrite(e, field.value, Some(field.key), Places(seen), true)
    ensures var field := fields[i];
            var seen := before + IdsOfFields(e, fields[..i]) + Ids(e, field.value, Some(field.key));
            && seen == before + IdsOfFields(e, fields[..i + 1])
            && out + [Field(field.key, w)] == RewriteFields(e, fields[..i + 1], Places(seen), true)
  {
    assert fields[..i + 1][..i] == fields[..i];
    FieldsStayPut(e, fields[..i], before, Ids(e, fields[i].value, Some(fields[i].key)));
  }

  method NormalizeResponse(e: Settings, payload: Json) returns (r: Json)
    ensures r == Normalized(e, payload)
  {
    var state := new NormalizeState(e);
    r := state.Walk(payload, None);
    assert [] + Ids(e, payload, None) == Ids(e, payload, None);
  }
}
