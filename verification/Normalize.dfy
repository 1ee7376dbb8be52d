/**
  * Canonical form of a recorded response (cp/normalize.py:71-160).  Lower-casing of keys and the
  * ISO date pattern are parameters; `TextFacts` names the only facts about them that are used.
  */
module Normalize {
  import opened Options
  import opened Placeholders

  datatype Json = Null | Bool(b: bool) | Num(repr: string) | Str(s: string)
                | Arr(items: seq<Json>) | Obj(fields: seq<Field>)
  datatype Field = Field(key: string, value: Json)

  datatype Kind = OrderId | ExecId | ReplyId
  datatype Id = Id(kind: Kind, raw: string)
  datatype Rule = Keep | AsSession | AsSecret | AsId(id: Id) | AsTimestamp | AsDate | AsPrice

  const SESSION := {"session", "sessionid", "session_id"}

  const SECRET := {"token", "credential", "credentials", "user_name", "username", "user_id", "userid",
                   "unique_login_id", "uniqueloginid", "ip", "ip_address", "ipaddress", "hardware_info",
                   "hardwareinfo", "auth_time", "authtime", "expires", "took", "sft", "sf_config",
                   "credential_type", "mac"}

  const ORDER_ID := {"order_id", "orderid"}
  const EXEC_ID := {"execution_id", "executionid", "exec_id", "execid"}
  const REPLY_ID := {"reply_id", "replyid"}

  const TIMESTAMP := {"recorded_at", "trade_time", "ssoexpires", "_updated", "lastupdated", "last_updated",
                      "expiry", "starttime", "endtime"}

  const PRICE := {"price", "avg_price", "avgprice", "avgcost", "avg_cost", "limit_price", "limitprice",
                  "stop_price", "stopprice", "mktprice", "mkt_price", "mktvalue", "mkt_value", "settledcash",
                  "cashbalance", "net_amount", "netamount", "filled_quantity", "size", "quantity", "qty",
                  "position"}

  const MARKET_DATA := {"31", "84", "86", "85", "87", "88"}

  function Name(kind: Kind): string {
    match kind
    case OrderId => "ORDER_ID"
    case ExecId => "EXEC_ID"
    case ReplyId => "REPLY_ID"
  }

  function KindOf(lowered: string): Option<Kind> {
    if lowered in ORDER_ID then Some(OrderId)
    else if lowered in EXEC_ID then Some(ExecId)
    else if lowered in REPLY_ID then Some(ReplyId)
    else None
  }

  predicate EndsWith(s: string, suffix: string) {
    |suffix| <= |s| && s[|s| - |suffix|..] == suffix
  }

  predicate TimestampKey(lowered: string) {
    lowered in TIMESTAMP || EndsWith(lowered, "_at") || EndsWith(lowered, "_ts")
  }

  predicate Leaf(v: Json) {
    !v.Arr? && !v.Obj?
  }

  predicate Blank(v: Json) {
    v == Null || v == Str("")
  }

  // The text of a value that is not null.
  function Text(v: Json): string {
    match v
    case Bool(b) => if b then "True" else "False"
    case Num(repr) => repr
    case Str(s) => s
    case _ => ""
  }

  // What the tables say of a key.
  datatype Traits = Traits(session: bool, secret: bool, kind: Option<Kind>, timestamp: bool, price: bool)

  function TraitsOf(lower: string -> string, key: string): Traits {
    var k := lower(key);
    Traits(k in SESSION, k in SECRET, KindOf(k), TimestampKey(k), k in PRICE || key in MARKET_DATA)
  }

  datatype Settings = Settings(traits: string -> Traits, isIso: string -> bool, prices: bool)

  // The settings the code runs with.
  function CodeSettings(lower: string -> string, isIso: string -> bool, prices: bool): Settings {
    Settings(key => TraitsOf(lower, key), isIso, prices)
  }

  // Dates are long and start with a digit; lower-casing leaves digits alone.
  ghost predicate TextFacts(lower: string -> string, isIso: string -> bool) {
    && (forall s :: isIso(s) ==> |s| >= 19 && s[0] != '<')
    && (forall k :: k in MARKET_DATA ==> lower(k) == k)
  }

  // What becomes of a scalar under a key; the order of the tests is the order of the code's.
  function RuleUnder(e: Settings, v: Json, t: Traits): Rule {
    if t.session && !Blank(v) then AsSession
    else if t.secret && !Blank(v) && !v.Bool? then AsSecret
    else if t.kind.Some? && !Blank(v) then AsId(Id(t.kind.value, Text(v)))
    else if t.timestamp && v != Null then AsTimestamp
    else if v.Str? && e.isIso(v.s) then AsDate
    else if e.prices && t.price then AsPrice
    else Keep
  }

  function RuleFor(e: Settings, v: Json, parent: Option<string>): Rule {
    if parent == None then Keep else RuleUnder(e, v, e.traits(parent.value))
  }

  // ---- The specification: rewriting a tree leaf by leaf ----

  // The identifiers of a payload, in document order.
  function Ids(e: Settings, v: Json, parent: Option<string>): seq<Id>
    decreases v
  {
    match v
    case Arr(items) => IdsOfItems(e, items, parent)
    case Obj(fields) => IdsOfFields(e, fields)
    case _ => var rule := RuleFor(e, v, parent); if rule.AsId? then [rule.id] else []
  }

  function IdsOfItems(e: Settings, items: seq<Json>, parent: Option<string>): seq<Id>
    decreases items
  {
    if items == [] then []
    else IdsOfItems(e, items[..|items| - 1], parent) + Ids(e, items[|items| - 1], parent)
  }

  function IdsOfFields(e: Settings, fields: seq<Field>): seq<Id>
    decreases fields
  {
    if fields == [] then []
    else
      var last := fields[|fields| - 1];
      IdsOfFields(e, fields[..|fields| - 1]) + Ids(e, last.value, Some(last.key))
  }

  function Scrubbed(v: Json, rule: Rule, name: Id -> string, scrub: bool): Json {
    match rule
    case AsId(id) => Str(name(id))
    case Keep => v
    case AsSession => if scrub then Str("<SESSION_ID>") else v
    case AsSecret => if scrub then Str("<REDACTED>") else v
    case AsPrice => if scrub then Str("<PRICE>") else v
    case _ => if scrub then Str("<TIMESTAMP>") else v
  }

  // Gives every identifier a new name and, if `scrub`, replaces the other volatile values.
  function Rewrite(e: Settings, v: Json, parent: Option<string>, name: Id -> string, scrub: bool): Json
    decreases v
  {
    match v
    case Arr(items) => Arr(RewriteItems(e, items, parent, name, scrub))
    case Obj(fields) => Obj(RewriteFields(e, fields, name, scrub))
    case _ => Scrubbed(v, RuleFor(e, v, parent), name, scrub)
  }

  function RewriteItems(e: Settings, items: seq<Json>, parent: Option<string>, name: Id -> string, scrub: bool)
    : (r: seq<Json>)
    ensures |r| == |items|
    decreases items
  {
    if items == [] then []
    else RewriteItems(e, items[..|items| - 1], parent, name, scrub)
         + [Rewrite(e, items[|items| - 1], parent, name, scrub)]
  }

  function RewriteFields(e: Settings, fields: seq<Field>, name: Id -> string, scrub: bool): (r: seq<Field>)
    ensures |r| == |fields|
    decreases fields
  {
    if fields == [] then []
    else
      var last := fields[|fields| - 1];
      RewriteFields(e, fields[..|fields| - 1], name, scrub)
      + [Field(last.key, Rewrite(e, last.value, Some(last.key), name, scrub))]
  }

  // ---- Placeholders by first occurrence ----

  function OfKind(ids: seq<Id>, kind: Kind): seq<string> {
    if ids == [] then []
    else OfKind(ids[..|ids| - 1], kind) + if ids[|ids| - 1].kind == kind then [ids[|ids| - 1].raw] else []
  }

  // The distinct identifiers of a kind, in the order of their first occurrence.
  function Known(ids: seq<Id>, kind: Kind): seq<string> {
    Absorb([], OfKind(ids, kind))
  }

  // The number of an identifier within its kind, counted from one.
  function NumberOf(ids: seq<Id>, id: Id): nat {
    Position(Known(ids, id.kind), id.raw) + 1
  }

  function Place(ids: seq<Id>, id: Id): string {
    Placeholder(Name(id.kind), NumberOf(ids, id))
  }

  function Places(ids: seq<Id>): Id -> string {
    id => Place(ids, id)
  }

  function Normalized(e: Settings, v: Json): Json {
    Rewrite(e, v, None, Places(Ids(e, v, None)), true)
  }

  lemma {:induction false} InOfKind(ids: seq<Id>, id: Id)
    ensures id.raw in OfKind(ids, id.kind) <==> id in ids
  {
    if ids != [] {
      InOfKind(ids[..|ids| - 1], id);
      assert ids == ids[..|ids| - 1] + [ids[|ids| - 1]];
    }
  }

  lemma InKnown(ids: seq<Id>, id: Id)
    ensures id.raw in Known(ids, id.kind) <==> id in ids
  {
    AbsorbFacts([], OfKind(ids, id.kind));
    InOfKind(ids, id);
  }

  lemma {:induction false} OfKindConcat(xs: seq<Id>, ys: seq<Id>, kind: Kind)
    ensures OfKind(xs + ys, kind) == OfKind(xs, kind) + OfKind(ys, kind)
    decreases |ys|
  {
    if ys == [] {
      assert xs + ys == xs;
    } else {
      assert (xs + ys)[..|xs + ys| - 1] == xs + ys[..|ys| - 1];
      OfKindConcat(xs, ys[..|ys| - 1], kind);
    }
  }

  lemma KnownGrows(xs: seq<Id>, ys: seq<Id>, kind: Kind)
    ensures Known(xs, kind) <= Known(xs + ys, kind)
  {
    OfKindConcat(xs, ys, kind);
    AbsorbConcat([], OfKind(xs, kind), OfKind(ys, kind));
    AbsorbFacts(Known(xs, kind), OfKind(ys, kind));
  }

  lemma NumberIsStable(xs: seq<Id>, ys: seq<Id>, id: Id)
    requires id in xs
    ensures NumberOf(xs + ys, id) == NumberOf(xs, id)
  {
    KnownGrows(xs, ys, id.kind);
    InKnown(xs, id);
    PositionInPrefix(Known(xs, id.kind), Known(xs + ys, id.kind), id.raw);
  }

  lemma PlaceIsStable(xs: seq<Id>, ys: seq<Id>, id: Id)
    requires id in xs
    ensures Place(xs + ys, id) == Place(xs, id)
  {
    NumberIsStable(xs, ys, id);
  }

  lemma KindsDiffer(a: Kind, b: Kind, m: nat, n: nat)
    requires a != b
    ensures Placeholder(Name(a), m) != Placeholder(Name(b), n)
  {
    var x, y := Placeholder(Name(a), m), Placeholder(Name(b), n);
    assert x[1] == Name(a)[0] && y[1] == Name(b)[0];
  }

  // Within one payload two identifiers have the same placeholder exactly if they are the same.
  lemma PlacesTellIdsApart(ids: seq<Id>, a: Id, b: Id)
    requires a in ids && b in ids
    ensures Place(ids, a) == Place(ids, b) <==> a == b
  {
    if a.kind != b.kind {
      KindsDiffer(a.kind, b.kind, NumberOf(ids, a), NumberOf(ids, b));
    } else {
      NumbersTellIdsApart(ids, a, b);
      PlaceholdersDiffer(Name(a.kind), NumberOf(ids, a), NumberOf(ids, b));
    }
  }

  lemma NumbersTellIdsApart(ids: seq<Id>, a: Id, b: Id)
    requires a in ids && b in ids && a.kind == b.kind
    ensures NumberOf(ids, a) == NumberOf(ids, b) <==> a == b
  {
    InKnown(ids, a);
    InKnown(ids, b);
  }

  lemma {:induction false} PositionAtEnd(xs: seq<string>, x: string)
    requires x !in xs
    ensures Position(xs + [x], x) == |xs|
  {
    if xs != [] {
      assert (xs + [x])[1..] == xs[1..] + [x];
      PositionAtEnd(xs[1..], x);
    }
  }

  lemma KnownOfOneMore(ids: seq<Id>, id: Id, kind: Kind)
    ensures Known(ids + [id], kind) ==
            if id.kind == kind && id !in ids then Known(ids, kind) + [id.raw] else Known(ids, kind)
  {
    var xs := OfKind(ids, kind);
    InKnown(ids, id);
    assert (ids + [id])[..|ids|] == ids;
    if id.kind == kind {
      AbsorbConcat([], xs, [id.raw]);
      assert Absorb(Known(ids, kind), [id.raw]) ==
             Absorb(if id.raw in Known(ids, kind) then Known(ids, kind) else Known(ids, kind) + [id.raw], []);
    } else {
      assert xs + [] == xs;
    }
  }

  // An identifier that first occurs at place i of the document gets the next free number of its kind.
  lemma NumberedByFirstOccurrence(ids: seq<Id>, i: nat)
    requires i < |ids| && ids[i] !in ids[..i]
    ensures Place(ids, ids[i]) == Placeholder(Name(ids[i].kind), |Known(ids[..i], ids[i].kind)| + 1)
  {
    NumberIsNextFree(ids[..i], ids[i], ids[i + 1..]);
    assert ids == (ids[..i] + [ids[i]]) + ids[i + 1..];
  }

  lemma NumberIsNextFree(before: seq<Id>, id: Id, after: seq<Id>)
    requires id !in before
    ensures NumberOf((before + [id]) + after, id) == |Known(before, id.kind)| + 1
  {
    NumberIsStable(before + [id], after, id);
    KnownOfOneMore(before, id, id.kind);
    InKnown(before, id);
    PositionAtEnd(Known(before, id.kind), id.raw);
  }

  // ---- Renaming identifiers ----

  function Renamed(ids: seq<Id>, name: Id -> string): seq<Id> {
    if ids == [] then []
    else Renamed(ids[..|ids| - 1], name) + [Id(ids[|ids| - 1].kind, name(ids[|ids| - 1]))]
  }

  function Within(name: Id -> string, kind: Kind): string -> string {
    x => name(Id(kind, x))
  }

  ghost predicate TellsApart(name: Id -> string, ids: seq<Id>) {
    forall a, b :: a in ids && b in ids && a.kind == b.kind && name(a) == name(b) ==> a == b
  }

  ghost predicate NeverEmpty(name: Id -> string, ids: seq<Id>) {
    forall a :: a in ids ==> name(a) != ""
  }

  lemma {:induction false} RenamedConcat(xs: seq<Id>, ys: seq<Id>, name: Id -> string)
    ensures Renamed(xs + ys, name) == Renamed(xs, name) + Renamed(ys, name)
    decreases |ys|
  {
    if ys == [] {
      assert xs + ys == xs;
    } else {
      assert (xs + ys)[..|xs + ys| - 1] == xs + ys[..|ys| - 1];
      RenamedConcat(xs, ys[..|ys| - 1], name);
    }
  }

  lemma {:induction false} EachConcat(f: string -> string, xs: seq<string>, ys: seq<string>)
    ensures Each(f, xs + ys) == Each(f, xs) + Each(f, ys)
  {
  }

  lemma {:induction false} OfKindRenamed(ids: seq<Id>, name: Id -> string, kind: Kind)
    ensures OfKind(Renamed(ids, name), kind) == Each(Within(name, kind), OfKind(ids, kind))
  {
    if ids != [] {
      var front, last := ids[..|ids| - 1], ids[|ids| - 1];
      OfKindRenamed(front, name, kind);
      assert Renamed(ids, name)[..|Renamed(ids, name)| - 1] == Renamed(front, name);
      EachConcat(Within(name, kind), OfKind(front, kind), if last.kind == kind then [last.raw] else []);
    }
  }

  lemma InjectiveWithin(name: Id -> string, ids: seq<Id>, kind: Kind)
    requires TellsApart(name, ids)
    ensures InjectiveOn(Within(name, kind), OfKind(ids, kind))
  {
    forall x, y | x in OfKind(ids, kind) && y in OfKind(ids, kind) && Within(name, kind)(x) == Within(name, kind)(y)
      ensures x == y
    {
      InOfKind(ids, Id(kind, x));
      InOfKind(ids, Id(kind, y));
    }
  }

  lemma NumberRenamed(ids: seq<Id>, name: Id -> string, id: Id)
    requires TellsApart(name, ids) && id in ids
    ensures NumberOf(Renamed(ids, name), Id(id.kind, name(id))) == NumberOf(ids, id)
  {
    var f, xs := Within(name, id.kind), OfKind(ids, id.kind);
    OfKindRenamed(ids, name, id.kind);
    InjectiveWithin(name, ids, id.kind);
    assert [] + xs == xs;
    AbsorbEach(f, [], xs);
    AbsorbFacts([], xs);
    InKnown(ids, id);
    InOfKind(ids, id);
    PositionEach(f, Known(ids, id.kind), id.raw);
  }

  // Renaming the identifiers does not change their placeholders.
  lemma PlaceRenamed(ids: seq<Id>, name: Id -> string, id: Id)
    requires TellsApart(name, ids) && id in ids
    ensures Place(Renamed(ids, name), Id(id.kind, name(id))) == Place(ids, id)
  {
    NumberRenamed(ids, name, id);
  }
}
