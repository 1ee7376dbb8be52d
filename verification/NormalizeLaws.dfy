/** What normalising a response keeps and forgets (cp/normalize.py:92-153). */
module NormalizeLaws {
  import opened Options
  import opened Placeholders
  import opened Normalize

  // ---- The tables of key names do not overlap ----

  lemma SessionIsApart(k: string)
    requires k in SESSION
    ensures k !in SECRET && KindOf(k).None? && !TimestampKey(k) && k !in PRICE
  {
    assert k[0] == 's' && k[1] == 'e';
    assert k[|k| - 1] == 'n' || k[|k| - 1] == 'd';
  }

  lemma IdsAreNotSecret(k: string)
    requires KindOf(k).Some?
    ensures k !in SECRET
  {
    assert k[|k| - 1] == 'd' && k[|k| - 2] == 'i';
    assert k[0] == 'o' || k[0] == 'e' || k[0] == 'r';
  }

  lemma IdsAreNotTimestamps(k: string)
    requires KindOf(k).Some?
    ensures !TimestampKey(k)
  {
    assert k[|k| - 1] == 'd' && k[|k| - 2] == 'i';
  }

  lemma IdsAreNotPrices(k: string)
    requires KindOf(k).Some?
    ensures k !in PRICE
  {
    assert k[0] == 'o' || k[0] == 'e' || k[0] == 'r';
  }

  lemma SecretIsNotTimestamp(k: string)
    requires k in SECRET
    ensures !TimestampKey(k)
  {
    SecretEndings(k);
    SecretHeads(k);
    if k in TIMESTAMP { TimestampHeads(k); }
  }

  // How the names of the two tables start; no start is shared.
  predicate SecretStart(k: string) {
    |k| >= 2 &&
    (|| k[0] == 'c' || k[0] == 'u' || k[0] == 'i' || k[0] == 'h' || k[0] == 'a' || k[0] == 'm'
     || (k[0] == 't' && k[1] == 'o') || (k[0] == 's' && k[1] == 'f') || (k[0] == 'e' && k[1] == 'x' && |k| == 7))
  }

  lemma SecretHeads(k: string)
    requires k in SECRET
    ensures SecretStart(k)
  {
  }

  lemma TimestampHeads(k: string)
    requires k in TIMESTAMP
    ensures !SecretStart(k)
  {
    assert k[0] == 'r' || k[0] == '_' || k[0] == 'l' || (k[0] == 't' && k[1] == 'r') ||
           (k[0] == 's' && k[1] != 'f') || (k[0] == 'e' && (k[1] == 'n' || |k| == 6));
  }

  lemma SecretEndings(k: string)
    requires k in SECRET
    ensures |k| >= 2 && (k[|k| - 1] == 't' ==> k[|k| - 2] == 'f')
    ensures k[|k| - 1] == 's' ==> k[|k| - 2] != 't'
  {
    assert |k| >= 2;
  }

  lemma SecretIsNotPrice(k: string)
    requires k in SECRET
    ensures k !in PRICE
  {
  }

  lemma TimestampIsApart(k: string)
    requires TimestampKey(k)
    ensures k !in PRICE
  {
  }

  lemma MarketDataIsApart(k: string)
    requires k in MARKET_DATA
    ensures k !in SESSION && k !in SECRET && KindOf(k).None? && !TimestampKey(k)
  {
    assert k[0] == '3' || k[0] == '8';
    if k in SESSION { SessionIsApart(k); }
    MarketDataIsNotSecret(k);
  }

  lemma MarketDataIsNotSecret(k: string)
    requires k in MARKET_DATA
    ensures k !in SECRET
  {
    assert k[0] == '3' || k[0] == '8';
  }

  // At most one of the tables knows a key.
  predicate Apart(t: Traits) {
    && (t.session ==> !t.secret && t.kind.None? && !t.timestamp && !t.price)
    && (t.secret ==> t.kind.None? && !t.timestamp && !t.price)
    && (t.kind.Some? ==> !t.timestamp && !t.price)
    && (t.timestamp ==> !t.price)
  }

  lemma TablesAreApart(lower: string -> string, key: string)
    requires key in MARKET_DATA ==> lower(key) == key
    ensures Apart(TraitsOf(lower, key))
  {
    var k, t := lower(key), TraitsOf(lower, key);
    if t.session { SessionIsApart(k); }
    if t.secret { SecretIsNotTimestamp(k); SecretIsNotPrice(k); }
    if t.kind.Some? { IdsAreNotSecret(k); IdsAreNotTimestamps(k); IdsAreNotPrices(k); }
    if t.timestamp { TimestampIsApart(k); }
    if key in MARKET_DATA { MarketDataIsApart(k); }
  }

  // What the laws below need of the settings; the code's have it.
  ghost predicate Sane(e: Settings) {
    && (forall s :: e.isIso(s) ==> |s| >= 19 && s[0] != '<')
    && (forall k :: Apart(e.traits(k)))
  }

  lemma {:induction false} CodeIsSane(lower: string -> string, isIso: string -> bool, prices: bool)
    requires TextFacts(lower, isIso)
    ensures Sane(CodeSettings(lower, isIso, prices))
  {
    forall k
      ensures Apart(CodeSettings(lower, isIso, prices).traits(k))
    {
      TablesAreApart(lower, k);
    }
  }

  // ---- One scalar, twice ----

  function RuleAgain(rule: Rule, name: Id -> string, scrub: bool): Rule {
    if rule.AsId? then AsId(Id(rule.id.kind, name(rule.id)))
    else if scrub && rule == AsDate then Keep
    else rule
  }

  lemma RuleOfScrubbed(e: Settings, v: Json, t: Traits, name: Id -> string, scrub: bool)
    requires Sane(e) && Apart(t) && Leaf(v)
    requires scrub && RuleUnder(e, v, t) == AsDate ==> !(e.prices && t.price)
    requires RuleUnder(e, v, t).AsId? ==> name(RuleUnder(e, v, t).id) != ""
    ensures RuleUnder(e, Scrubbed(v, RuleUnder(e, v, t), name, scrub), t)
            == RuleAgain(RuleUnder(e, v, t), name, scrub)
  {
  }

  // A date under a price key: the first pass dates it, a second pass would price it.
  predicate Dated(e: Settings, v: Json, parent: Option<string>) {
    RuleFor(e, v, parent) == AsDate && e.prices && e.traits(parent.value).price
  }

  // What a second rewriting makes of the result of a first one.
  lemma ScrubbedTwice(e: Settings, v: Json, parent: Option<string>, name: Id -> string, scrub: bool)
    requires Sane(e) && Leaf(v) && (scrub ==> !Dated(e, v, parent))
    requires RuleFor(e, v, parent).AsId? ==> name(RuleFor(e, v, parent).id) != ""
    ensures RuleFor(e, Scrubbed(v, RuleFor(e, v, parent), name, scrub), parent)
            == RuleAgain(RuleFor(e, v, parent), name, scrub)
  {
    if parent != None {
      RuleOfScrubbed(e, v, e.traits(parent.value), name, scrub);
    }
  }

  // ---- A whole tree, twice ----

  predicate DatedIn(e: Settings, v: Json, parent: Option<string>)
    decreases v
  {
    match v
    case Arr(items) => DatedInItems(e, items, parent)
    case Obj(fields) => DatedInFields(e, fields)
    case _ => Dated(e, v, parent)
  }

  predicate DatedInItems(e: Settings, items: seq<Json>, parent: Option<string>)
    decreases items
  {
    items != [] && (DatedInItems(e, items[..|items| - 1], parent) || DatedIn(e, items[|items| - 1], parent))
  }

  predicate DatedInFields(e: Settings, fields: seq<Field>)
    decreases fields
  {
    fields != [] &&
    var last := fields[|fields| - 1];
    DatedInFields(e, fields[..|fields| - 1]) || DatedIn(e, last.value, Some(last.key))
  }

  // Renaming with `name` and then with `again` is renaming with `once`.
  ghost predicate Chained(name: Id -> string, again: Id -> string, once: Id -> string, ids: seq<Id>) {
    forall a :: a in ids ==> name(a) != "" && again(Id(a.kind, name(a))) == once(a)
  }

  lemma {:induction false} IdsOfRewrite(e: Settings, v: Json, parent: Option<string>, name: Id -> string, scrub: bool)
    requires Sane(e) && (scrub ==> !DatedIn(e, v, parent)) && NeverEmpty(name, Ids(e, v, parent))
    ensures Ids(e, Rewrite(e, v, parent, name, scrub), parent) == Renamed(Ids(e, v, parent), name)
    decreases v
  {
    match v
    case Arr(items) => IdsOfRewriteItems(e, items, parent, name, scrub);
    case Obj(fields) => IdsOfRewriteFields(e, fields, name, scrub);
    case _ => IdsOfScrubbed(e, v, parent, name, scrub);
  }

  lemma IdsOfScrubbed(e: Settings, v: Json, parent: Option<string>, name: Id -> string, scrub: bool)
    requires Leaf(v) && Sane(e) && (scrub ==> !Dated(e, v, parent)) && NeverEmpty(name, Ids(e, v, parent))
    ensures Ids(e, Rewrite(e, v, parent, name, scrub), parent) == Renamed(Ids(e, v, parent), name)
  {
    var rule := RuleFor(e, v, parent);
    if rule.AsId? {
      assert Ids(e, v, parent) == [rule.id] && rule.id in [rule.id];
      assert [rule.id][..0] == [];
    }
    ScrubbedTwice(e, v, parent, name, scrub);
    assert Leaf(Scrubbed(v, rule, name, scrub));
  }

  lemma {:induction false} IdsOfRewriteItems(e: Settings, items: seq<Json>, parent: Option<string>,
                                             name: Id -> string, scrub: bool)
    requires Sane(e) && (scrub ==> !DatedInItems(e, items, parent))
    requires NeverEmpty(name, IdsOfItems(e, items, parent))
    ensures IdsOfItems(e, RewriteItems(e, items, parent, name, scrub), parent)
            == Renamed(IdsOfItems(e, items, parent), name)
    decreases items
  {
    if items != [] {
      var front, last := items[..|items| - 1], items[|items| - 1];
      IdsOfRewriteItems(e, front, parent, name, scrub);
      IdsOfRewrite(e, last, parent, name, scrub);
      RenamedConcat(IdsOfItems(e, front, parent), Ids(e, last, parent), name);
      var out := RewriteItems(e, items, parent, name, scrub);
      assert out[..|out| - 1] == RewriteItems(e, front, parent, name, scrub);
    }
  }

  lemma {:induction false} IdsOfRewriteFields(e: Settings, fields: seq<Field>, name: Id -> string, scrub: bool)
    requires Sane(e) && (scrub ==> !DatedInFields(e, fields)) && NeverEmpty(name, IdsOfFields(e, fields))
    ensures IdsOfFields(e, RewriteFields(e, fields, name, scrub)) == Renamed(IdsOfFields(e, fields), name)
    decreases fields
  {
    if fields != [] {
      var front, last := fields[..|fields| - 1], fields[|fields| - 1];
      IdsOfRewriteFields(e, front, name, scrub);
      IdsOfRewrite(e, last.value, Some(last.key), name, scrub);
      RenamedConcat(IdsOfFields(e, front), Ids(e, last.value, Some(last.key)), name);
      var out := RewriteFields(e, fields, name, scrub);
      assert out[..|out| - 1] == RewriteFields(e, front, name, scrub);
    }
  }

  lemma {:induction false} RewriteTwice(e: Settings, v: Json, parent: Option<string>, name: Id -> string,
                                        scrub: bool, again: Id -> string, once: Id -> string)
    requires Sane(e) && (scrub ==> !DatedIn(e, v, parent)) && Chained(name, again, once, Ids(e, v, parent))
    ensures Rewrite(e, Rewrite(e, v, parent, name, scrub), parent, again, true) == Rewrite(e, v, parent, once, true)
    decreases v
  {
    match v
    case Arr(items) => RewriteItemsTwice(e, items, parent, name, scrub, again, once);
    case Obj(fields) => RewriteFieldsTwice(e, fields, name, scrub, again, once);
    case _ => RewriteLeafTwice(e, v, parent, name, scrub, again, once);
  }

  lemma RewriteLeafTwice(e: Settings, v: Json, parent: Option<string>, name: Id -> string, scrub: bool,
                         again: Id -> string, once: Id -> string)
    requires Leaf(v) && Sane(e) && (scrub ==> !Dated(e, v, parent)) && Chained(name, again, once, Ids(e, v, parent))
    ensures Rewrite(e, Rewrite(e, v, parent, name, scrub), parent, again, true) == Rewrite(e, v, parent, once, true)
  {
    var rule := RuleFor(e, v, parent);
    if rule.AsId? {
      assert Ids(e, v, parent) == [rule.id] && rule.id in [rule.id];
    }
    ScrubbedTwice(e, v, parent, name, scrub);
    assert Leaf(Scrubbed(v, rule, name, scrub));
  }

  lemma {:induction false} RewriteItemsTwice(e: Settings, items: seq<Json>, parent: Option<string>,
                                             name: Id -> string, scrub: bool, again: Id -> string, once: Id -> string)
    requires Sane(e) && (scrub ==> !DatedInItems(e, items, parent))
    requires Chained(name, again, once, IdsOfItems(e, items, parent))
    ensures RewriteItems(e, RewriteItems(e, items, parent, name, scrub), parent, again, true)
            == RewriteItems(e, items, parent, once, true)
    decreases items
  {
    if items != [] {
      var front, last := items[..|items| - 1], items[|items| - 1];
      RewriteItemsTwice(e, front, parent, name, scrub, again, once);
      RewriteTwice(e, last, parent, name, scrub, again, once);
      var out := RewriteItems(e, items, parent, name, scrub);
      assert out[..|out| - 1] == RewriteItems(e, front, parent, name, scrub);
    }
  }

  lemma {:induction false} RewriteFieldsTwice(e: Settings, fields: seq<Field>, name: Id -> string, scrub: bool,
                                              again: Id -> string, once: Id -> string)
    requires Sane(e) && (scrub ==> !DatedInFields(e, fields))
    requires Chained(name, again, once, IdsOfFields(e, fields))
    ensures RewriteFields(e, RewriteFields(e, fields, name, scrub), again, true) == RewriteFields(e, fields, once, true)
    decreases fields
  {
    if fields != [] {
      var front, last := fields[..|fields| - 1], fields[|fields| - 1];
      RewriteFieldsTwice(e, front, name, scrub, again, once);
      RewriteTwice(e, last.value, Some(last.key), name, scrub, again, once);
      var out := RewriteFields(e, fields, name, scrub);
      assert out[..|out| - 1] == RewriteFields(e, front, name, scrub);
    }
  }

  // ---- The main results ----

  lemma PlacesChain(ids: seq<Id>, name: Id -> string)
    requires TellsApart(name, ids) && NeverEmpty(name, ids)
    ensures Chained(name, Places(Renamed(ids, name)), Places(ids), ids)
  {
    forall a | a in ids
      ensures Places(Renamed(ids, name))(Id(a.kind, name(a))) == Places(ids)(a)
    {
      PlaceRenamed(ids, name, a);
    }
  }

  // The normal form does not depend on what the session called its identifiers.
  lemma {:induction false} RenamingIsForgotten(e: Settings, v: Json, name: Id -> string)
    requires Sane(e) && TellsApart(name, Ids(e, v, None)) && NeverEmpty(name, Ids(e, v, None))
    ensures Normalized(e, Rewrite(e, v, None, name, false)) == Normalized(e, v)
  {
    var ids := Ids(e, v, None);
    IdsOfRewrite(e, v, None, name, false);
    PlacesChain(ids, name);
    RewriteTwice(e, v, None, name, false, Places(Renamed(ids, name)), Places(ids));
  }

  lemma PlacesAreGoodNames(ids: seq<Id>)
    ensures TellsApart(Places(ids), ids) && NeverEmpty(Places(ids), ids)
  {
    forall a, b | a in ids && b in ids && a.kind == b.kind && Places(ids)(a) == Places(ids)(b)
      ensures a == b
    {
      PlacesTellIdsApart(ids, a, b);
    }
  }

  lemma NormalizedAgain(e: Settings, v: Json)
    requires Sane(e) && !DatedIn(e, v, None)
    ensures Normalized(e, Normalized(e, v)) == Normalized(e, v)
  {
    var ids := Ids(e, v, None);
    PlacesAreGoodNames(ids);
    IdsOfRewrite(e, v, None, Places(ids), true);
    PlacesChain(ids, Places(ids));
    RewriteTwice(e, v, None, Places(ids), true, Places(Renamed(ids, Places(ids))), Places(ids));
  }

  lemma {:induction false} DatesBecomePrices(e: Settings, v: Json, parent: Option<string>, name: Id -> string,
                                             again: Id -> string)
    requires Sane(e) && DatedIn(e, v, parent)
    ensures Rewrite(e, Rewrite(e, v, parent, name, true), parent, again, true) != Rewrite(e, v, parent, name, true)
    decreases v
  {
    match v
    case Arr(items) => DatesBecomePricesInItems(e, items, parent, name, again);
    case Obj(fields) => DatesBecomePricesInFields(e, fields, name, again);
    case _ => DateBecomesPrice(e, v, parent, name, again);
  }

  lemma DateBecomesPrice(e: Settings, v: Json, parent: Option<string>, name: Id -> string, again: Id -> string)
    requires Sane(e) && Leaf(v) && Dated(e, v, parent)
    ensures Rewrite(e, Rewrite(e, v, parent, name, true), parent, again, true) != Rewrite(e, v, parent, name, true)
  {
    assert Apart(e.traits(parent.value));
    assert Rewrite(e, v, parent, name, true) == Str("<TIMESTAMP>");
    assert RuleFor(e, Str("<TIMESTAMP>"), parent) == AsPrice;
    assert Str("<TIMESTAMP>").s[1] != Str("<PRICE>").s[1];
  }

  lemma {:induction false} DatesBecomePricesInItems(e: Settings, items: seq<Json>, parent: Option<string>,
                                                    name: Id -> string, again: Id -> string)
    requires Sane(e) && DatedInItems(e, items, parent)
    ensures var out := RewriteItems(e, items, parent, name, true); RewriteItems(e, out, parent, again, true) != out
    decreases items
  {
    var front, last := items[..|items| - 1], items[|items| - 1];
    var out := RewriteItems(e, items, parent, name, true);
    assert out[..|out| - 1] == RewriteItems(e, front, parent, name, true);
    if DatedInItems(e, front, parent) {
      DatesBecomePricesInItems(e, front, parent, name, again);
    } else {
      DatesBecomePrices(e, last, parent, name, again);
    }
    var twice := RewriteItems(e, out, parent, again, true);
    assert twice[..|out| - 1] == RewriteItems(e, out[..|out| - 1], parent, again, true);
  }

  lemma {:induction false} DatesBecomePricesInFields(e: Settings, fields: seq<Field>, name: Id -> string,
                                                     again: Id -> string)
    requires Sane(e) && DatedInFields(e, fields)
    ensures var out := RewriteFields(e, fields, name, true); RewriteFields(e, out, again, true) != out
    decreases fields
  {
    var front, last := fields[..|fields| - 1], fields[|fields| - 1];
    var out := RewriteFields(e, fields, name, true);
    assert out[..|out| - 1] == RewriteFields(e, front, name, true);
    if DatedInFields(e, front) {
      DatesBecomePricesInFields(e, front, name, again);
    } else {
      DatesBecomePrices(e, last.value, Some(last.key), name, again);
    }
    var twice := RewriteFields(e, out, again, true);
    assert twice[..|out| - 1] == RewriteFields(e, out[..|out| - 1], again, true);
  }

  // Normalising twice is normalising once, exactly if no date string stands under a price key
  // while prices are normalised.
  lemma {:induction false} NormalizingIsIdempotentExactlyWhen(e: Settings, v: Json)
    requires Sane(e)
    ensures Normalized(e, Normalized(e, v)) == Normalized(e, v) <==> !DatedIn(e, v, None)
  {
    if DatedIn(e, v, None) {
      DatesBecomePrices(e, v, None, Places(Ids(e, v, None)), Places(Ids(e, Normalized(e, v), None)));
    } else {
      NormalizedAgain(e, v);
    }
  }

  // With prices left alone it always is.
  lemma {:induction false} NormalizingIsIdempotent(e: Settings, v: Json)
    requires Sane(e) && !e.prices
    ensures Normalized(e, Normalized(e, v)) == Normalized(e, v)
  {
    NothingIsDated(e, v, None);
    NormalizingIsIdempotentExactlyWhen(e, v);
  }

  lemma {:induction false} NothingIsDated(e: Settings, v: Json, parent: Option<string>)
    requires !e.prices
    ensures !DatedIn(e, v, parent)
    decreases v
  {
    match v
    case Arr(items) => NothingIsDatedInItems(e, items, parent);
    case Obj(fields) => NothingIsDatedInFields(e, fields);
    case _ =>
  }

  lemma {:induction false} NothingIsDatedInItems(e: Settings, items: seq<Json>, parent: Option<string>)
    requires !e.prices
    ensures !DatedInItems(e, items, parent)
    decreases items
  {
    if items != [] {
      NothingIsDatedInItems(e, items[..|items| - 1], parent);
      NothingIsDated(e, items[|items| - 1], parent);
    }
  }

  lemma {:induction false} NothingIsDatedInFields(e: Settings, fields: seq<Field>)
    requires !e.prices
    ensures !DatedInFields(e, fields)
    decreases fields
  {
    if fields != [] {
      NothingIsDatedInFields(e, fields[..|fields| - 1]);
      var last := fields[|fields| - 1];
      NothingIsDated(e, last.value, Some(last.key));
    }
  }

  // A payload on which it is not: a date as a price.
  lemma {:induction false} DatedPriceChangesTwice(e: Settings, key: string, date: string)
    requires Sane(e) && e.prices && e.traits(key).price && e.isIso(date)
    ensures var v := Obj([Field(key, Str(date))]); Normalized(e, Normalized(e, v)) != Normalized(e, v)
  {
    DatedField(e, key, date);
    NormalizingIsIdempotentExactlyWhen(e, Obj([Field(key, Str(date))]));
  }

  lemma DatedField(e: Settings, key: string, date: string)
    requires e.prices && e.isIso(date) && e.traits(key).price && Apart(e.traits(key))
    ensures DatedIn(e, Obj([Field(key, Str(date))]), None)
  {
    assert Dated(e, Str(date), Some(key));
    assert DatedInFields(e, [Field(key, Str(date))]);
  }
}
