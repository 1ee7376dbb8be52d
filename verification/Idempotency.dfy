/**
  * Replay of order requests by Idempotency-Key (idempotency.py:41-82, api/v1/orders.py:55-97,
  * 162-249).  Requests are handled one after the other.
  */
module Idempotency {
  import opened Options
  import opened Strings

  datatype Entry = Entry(status: int, payload: string, expiresAt: real)

  datatype Op = Place | Cancel(orderId: string) | Modify(orderId: string)

  // What the caller gets; `Raised` stands for an exception of the broker service. `Mismatch` is the
  // documented 409 for a used key with another body, which the handlers never give.
  datatype Reply = BadRequest(missing: string) | Replayed(payload: string) | Done(status: int, payload: string) | Raised
                 | Mismatch

  class IdempotencyStore {
    const ttl: real
    var entries: map<string, Entry>

    constructor (ttl: real)
      requires ttl > 0.0
      ensures this.ttl == ttl && entries == map[]
    {
      this.ttl, entries := ttl, map[];
    }

    method Get(key: string, now: real) returns (cached: Option<Entry>)
      modifies this
      ensures cached == Live(old(entries), key, now)
      ensures entries == AfterGet(old(entries), key, now)
    {
      if key !in entries { return None; }
      var entry := entries[key];
      if now >= entry.expiresAt {
        entries := map k | k in entries && k != key :: entries[k];
        return None;
      }
      cached := Some(entry);
    }

    method Put(key: string, status: int, payload: string, now: real)
      modifies this
      ensures entries == old(entries)[key := Entry(status, payload, now + ttl)]
    {
      entries := entries[key := Entry(status, payload, now + ttl)];
    }
  }

  function Live(entries: map<string, Entry>, key: string, now: real): Option<Entry> {
    if key in entries && now < entries[key].expiresAt then Some(entries[key]) else None
  }

  function AfterGet(entries: map<string, Entry>, key: string, now: real): map<string, Entry> {
    if key in entries && now >= entries[key].expiresAt then map k | k in entries && k != key :: entries[k] else entries
  }

  // ---- Scoped keys ----

  function Scope(op: Op): string {
    match op
    case Place => "POST"
    case Cancel(_) => "DELETE"
    case Modify(orderId) => "PATCH:" + orderId
  }

  function ScopedKey(op: Op, key: string): string {
    Scope(op) + ":" + key
  }

  predicate SameMethod(a: Op, b: Op) {
    (a.Place? && b.Place?) || (a.Cancel? && b.Cancel?) || (a.Modify? && b.Modify?)
  }

  // Keys of different methods never meet.
  lemma {:induction false} MethodsAreApart(a: Op, b: Op, j: string, k: string)
    requires ScopedKey(a, j) == ScopedKey(b, k)
    ensures SameMethod(a, b)
  {
    var x, y := ScopedKey(a, j), ScopedKey(b, k);
    match a {
      case Place => assert x[0] == 'P' && x[1] == 'O';
      case Cancel(_) => assert x[0] == 'D';
      case Modify(_) => assert x[0] == 'P' && x[1] == 'A';
    }
    match b {
      case Place => assert y[0] == 'P' && y[1] == 'O';
      case Cancel(_) => assert y[0] == 'D';
      case Modify(_) => assert y[0] == 'P' && y[1] == 'A';
    }
  }

  // Two different order ids share a modify key exactly if one continues the other with a colon and
  // the keys make up for it.
  ghost predicate Continues(o: string, j: string, p: string, k: string) {
    exists m :: p == o + ":" + m && j == m + ":" + k
  }

  lemma {:induction false} ModifyKeys(o: string, j: string, p: string, k: string)
    ensures ScopedKey(Modify(o), j) == ScopedKey(Modify(p), k) <==>
            (o == p && j == k) || Continues(o, j, p, k) || Continues(p, k, o, j)
  {
    PatchKey(o, j);
    PatchKey(p, k);
    var x, y := o + ":" + j, p + ":" + k;
    assert ("PATCH:" + x)[6..] == x && ("PATCH:" + y)[6..] == y;
    if x == y { SplitAtColon(o, j, p, k); }
    if Continues(o, j, p, k) { JoinAtColon(o, j, p, k); }
    if Continues(p, k, o, j) { JoinAtColon(p, k, o, j); }
  }

  lemma PatchKey(o: string, j: string)
    ensures ScopedKey(Modify(o), j) == "PATCH:" + (o + ":" + j)
  {
    assert "PATCH:" + o + ":" + j == "PATCH:" + (o + ":" + j);
  }

  lemma JoinAtColon(o: string, j: string, p: string, k: string)
    requires Continues(o, j, p, k)
    ensures o + ":" + j == p + ":" + k && ':' in p
  {
    var m :| p == o + ":" + m && j == m + ":" + k;
    assert o + ":" + (m + ":" + k) == (o + ":" + m) + ":" + k;
    assert p[|o|] == ':';
  }

  lemma SplitAtColon(o: string, j: string, p: string, k: string)
    requires o + ":" + j == p + ":" + k
    ensures (o == p && j == k) || Continues(o, j, p, k) || Continues(p, k, o, j)
  {
    if |o| == |p| {
      assert o == (o + ":" + j)[..|o|] && j == (o + ":" + j)[|o| + 1..];
      assert p == (p + ":" + k)[..|p|] && k == (p + ":" + k)[|p| + 1..];
    } else if |o| < |p| {
      LongerOrderId(o, j, p, k);
    } else {
      LongerOrderId(p, k, o, j);
    }
  }

  lemma LongerOrderId(o: string, j: string, p: string, k: string)
    requires o + ":" + j == p + ":" + k && |o| < |p|
    ensures Continues(o, j, p, k)
  {
    var all := o + ":" + j;
    var m := p[|o| + 1..];
    assert p == all[..|p|] && all[|o|] == ':';
    assert p[..|o|] == o && p[|o|] == ':';
    assert p == o + ":" + m;
    assert all[|o| + 1..] == j && (p + ":" + k)[|o| + 1..] == m + ":" + k;
  }

  // Without colons in the order ids, the order and the key can be read off.
  lemma {:induction false} ModifyKeysAreApart(o: string, j: string, p: string, k: string)
    requires ':' !in o && ':' !in p
    ensures ScopedKey(Modify(o), j) == ScopedKey(Modify(p), k) <==> o == p && j == k
  {
    ModifyKeys(o, j, p, k);
    if Continues(o, j, p, k) { JoinAtColon(o, j, p, k); }
    if Continues(p, k, o, j) { JoinAtColon(p, k, o, j); }
  }

  // ---- The handlers ----

  // `arrived` and `finished` are the readings of the clock before and after the broker call;
  // `broker` is its result, None if it raises.
  datatype Request = Request(op: Op, key: Option<string>, account: Option<string>, body: string, arrived: real,
                             broker: Option<string>, finished: real)

  predicate Given(isSpace: char -> bool, header: Option<string>) {
    header.Some? && Strip(isSpace, header.value) != ""
  }

  // The header checks, in the order of the handlers; only a cancellation needs the account.
  function Missing(isSpace: char -> bool, r: Request): Option<string> {
    if !Given(isSpace, r.key) then Some("Idempotency-Key")
    else if r.op.Cancel? && !Given(isSpace, r.account) then Some("X-Account-Id")
    else None
  }

  // A header that is missing or holds nothing but white space.
  predicate Absent(isSpace: char -> bool, header: Option<string>) {
    header.None? || AllSpace(isSpace, header.value)
  }

  // Who gets a bad request, and about which header.
  lemma {:induction false} BadRequestExactlyWhen(isSpace: char -> bool, entries: map<string, Entry>, r: Request)
    ensures ReplyTo(isSpace, entries, r) == BadRequest("Idempotency-Key") <==> Absent(isSpace, r.key)
    ensures ReplyTo(isSpace, entries, r) == BadRequest("X-Account-Id") <==>
            r.op.Cancel? && !Absent(isSpace, r.key) && Absent(isSpace, r.account)
    ensures ReplyTo(isSpace, entries, r).BadRequest? <==>
            Absent(isSpace, r.key) || (r.op.Cancel? && Absent(isSpace, r.account))
    ensures Missing(isSpace, r).None? <==> !ReplyTo(isSpace, entries, r).BadRequest?
  {
    if r.key.Some? { StripsToNothing(isSpace, r.key.value); }
    if r.account.Some? { StripsToNothing(isSpace, r.account.value); }
    assert |"Idempotency-Key"| != |"X-Account-Id"|;
  }

  function StoreKey(isSpace: char -> bool, r: Request): string
    requires r.key.Some?
  {
    ScopedKey(r.op, Strip(isSpace, r.key.value))
  }

  function StatusCode(op: Op): int {
    if op.Place? then 201 else 200
  }

  function ReplyTo(isSpace: char -> bool, entries: map<string, Entry>, r: Request): Reply {
    if Missing(isSpace, r).Some? then BadRequest(Missing(isSpace, r).value)
    else
      match Live(entries, StoreKey(isSpace, r), r.arrived)
      case Some(entry) => Replayed(entry.payload)
      case None => if r.broker.None? then Raised else Done(StatusCode(r.op), r.broker.value)
  }

  function EntriesAfter(isSpace: char -> bool, ttl: real, entries: map<string, Entry>, r: Request): map<string, Entry> {
    if Missing(isSpace, r).Some? then entries
    else
      var key := StoreKey(isSpace, r);
      var looked := AfterGet(entries, key, r.arrived);
      if Live(entries, key, r.arrived).Some? || r.broker.None? then looked
      else looked[key := Entry(StatusCode(r.op), r.broker.value, r.finished + ttl)]
  }

  method PlaceOrder(isSpace: char -> bool, store: IdempotencyStore, r: Request) returns (reply: Reply)
    requires r.op.Place?
    modifies store
    ensures reply == ReplyTo(isSpace, old(store.entries), r)
    ensures store.entries == EntriesAfter(isSpace, store.ttl, old(store.entries), r)
  {
    if !Given(isSpace, r.key) { return BadRequest("Idempotency-Key"); }
    var key := ScopedKey(Place, Strip(isSpace, r.key.value));
    var cached := store.Get(key, r.arrived);
    if cached.Some? { return Replayed(cached.value.payload); }
    if r.broker.None? { return Raised; }
    store.Put(key, 201, r.broker.value, r.finished);
    reply := Done(201, r.broker.value);
  }

  method CancelOrder(isSpace: char -> bool, store: IdempotencyStore, r: Request) returns (reply: Reply)
    requires r.op.Cancel?
    modifies store
    ensures reply == ReplyTo(isSpace, old(store.entries), r)
    ensures store.entries == EntriesAfter(isSpace, store.ttl, old(store.entries), r)
  {
    if !Given(isSpace, r.key) { return BadRequest("Idempotency-Key"); }
    if !Given(isSpace, r.account) { return BadRequest("X-Account-Id"); }
    var key := ScopedKey(r.op, Strip(isSpace, r.key.value));
    var cached := store.Get(key, r.arrived);
    if cached.Some? { return Replayed(cached.value.payload); }
    if r.broker.None? { return Raised; }
    store.Put(key, 200, r.broker.value, r.finished);
    reply := Done(200, r.broker.value);
  }

  method ModifyOrder(isSpace: char -> bool, store: IdempotencyStore, r: Request) returns (reply: Reply)
    requires r.op.Modify?
    modifies store
    ensures reply == ReplyTo(isSpace, old(store.entries), r)
    ensures store.entries == EntriesAfter(isSpace, store.ttl, old(store.entries), r)
  {
    if !Given(isSpace, r.key) { return BadRequest("Idempotency-Key"); }
    var scope := "PATCH:" + r.op.orderId;
    var key := scope + ":" + Strip(isSpace, r.key.value);
    var cached := store.Get(key, r.arrived);
    if cached.Some? { return Replayed(cached.value.payload); }
    if r.broker.None? { return Raised; }
    store.Put(key, 200, r.broker.value, r.finished);
    reply := Done(200, r.broker.value);
  }

  // ---- Whole runs, decided by their history alone ----

  // One broker call that succeeded.
  datatype Call = Call(key: string, op: Op, body: string, arrived: real, finished: real, status: int, payload: string)

  datatype World = World(entries: map<string, Entry>, calls: seq<Call>, clock: real)

  ghost function Advance(isSpace: char -> bool, ttl: real, w: World, r: Request): World {
    World(EntriesAfter(isSpace, ttl, w.entries, r),
          if ReplyTo(isSpace, w.entries, r).Done?
          then w.calls + [Call(StoreKey(isSpace, r), r.op, r.body, r.arrived, r.finished, StatusCode(r.op), r.broker.value)]
          else w.calls,
          r.finished)
  }

  ghost function Run(isSpace: char -> bool, ttl: real, clock: real, requests: seq<Request>): World {
    if requests == [] then World(map[], [], clock)
    else
      Advance(isSpace, ttl, Run(isSpace, ttl, clock, requests[..|requests| - 1]), requests[|requests| - 1])
  }

  function LastTime(clock: real, requests: seq<Request>): real {
    if requests == [] then clock else requests[|requests| - 1].finished
  }

  // One request after the other.
  ghost predicate Sequential(clock: real, requests: seq<Request>) {
    requests != [] ==>
      var front, last := requests[..|requests| - 1], requests[|requests| - 1];
      Sequential(clock, front) && LastTime(clock, front) <= last.arrived <= last.finished
  }

  // The latest successful call under a key.
  function LastCall(calls: seq<Call>, key: string): Option<Call> {
    if calls == [] then None
    else if calls[|calls| - 1].key == key then Some(calls[|calls| - 1])
    else LastCall(calls[..|calls| - 1], key)
  }

  // The store holds the latest call of a key, or nothing once that has expired.
  ghost predicate Remembers(ttl: real, w: World, key: string) {
    match LastCall(w.calls, key)
    case None => key !in w.entries
    case Some(call) =>
      if key in w.entries then w.entries[key] == Entry(call.status, call.payload, call.finished + ttl)
      else w.clock >= call.finished + ttl
  }

  ghost predicate Remembered(ttl: real, w: World) {
    forall key :: Remembers(ttl, w, key)
  }

  lemma StepRemembers(isSpace: char -> bool, ttl: real, w: World, r: Request, key: string)
    requires Remembers(ttl, w, key) && w.clock <= r.arrived <= r.finished
    ensures Remembers(ttl, Advance(isSpace, ttl, w, r), key)
  {
    var v := Advance(isSpace, ttl, w, r);
    if v.calls != w.calls { assert v.calls[..|v.calls| - 1] == w.calls; }
  }

  lemma {:induction false} RunRemembers(isSpace: char -> bool, ttl: real, clock: real, requests: seq<Request>)
    requires Sequential(clock, requests)
    ensures Remembered(ttl, Run(isSpace, ttl, clock, requests))
    ensures Run(isSpace, ttl, clock, requests).clock == LastTime(clock, requests)
  {
    if requests != [] {
      var front, last := requests[..|requests| - 1], requests[|requests| - 1];
      RunRemembers(isSpace, ttl, clock, front);
      var w := Run(isSpace, ttl, clock, front);
      forall key
        ensures Remembers(ttl, Advance(isSpace, ttl, w, last), key)
      {
        StepRemembers(isSpace, ttl, w, last, key);
      }
    }
  }

  // After any run, a request with the headers it needs is answered from the latest successful call
  // under its scoped key if that finished less than the TTL ago; otherwise the broker is called.
  lemma {:induction false} DecidedByHistory(isSpace: char -> bool, ttl: real, clock: real, requests: seq<Request>, r: Request)
    requires Sequential(clock, requests + [r]) && Missing(isSpace, r).None?
    ensures var w := Run(isSpace, ttl, clock, requests);
            var last := LastCall(w.calls, StoreKey(isSpace, r));
            ReplyTo(isSpace, w.entries, r) ==
            if last.Some? && r.arrived < last.value.finished + ttl then Replayed(last.value.payload)
            else if r.broker.Some? then Done(StatusCode(r.op), r.broker.value)
            else Raised
  {
    assert (requests + [r])[..|requests|] == requests;
    RunRemembers(isSpace, ttl, clock, requests);
    assert Remembers(ttl, Run(isSpace, ttl, clock, requests), StoreKey(isSpace, r));
  }

  ghost predicate Spaced(ttl: real, calls: seq<Call>, i: nat, j: nat)
    requires i < |calls| && j < |calls|
  {
    calls[i].key == calls[j].key ==> calls[i].finished + ttl <= calls[j].arrived
  }

  ghost predicate AllSpaced(ttl: real, calls: seq<Call>) {
    forall i, j :: 0 <= i < j < |calls| ==> Spaced(ttl, calls, i, j)
  }

  lemma {:induction false} LastCallIsLast(ttl: real, calls: seq<Call>, i: nat)
    requires ttl > 0.0 && AllSpaced(ttl, calls) && i < |calls|
    requires forall k :: 0 <= k < |calls| ==> calls[k].arrived <= calls[k].finished
    ensures var last := LastCall(calls, calls[i].key); last.Some? && calls[i].finished <= last.value.finished
  {
    var n := |calls| - 1;
    if calls[n].key == calls[i].key {
      if i < n { assert Spaced(ttl, calls, i, n); }
    } else {
      var front := calls[..n];
      assert front[i] == calls[i];
      forall a, b | 0 <= a < b < n
        ensures Spaced(ttl, front, a, b)
      {
        assert Spaced(ttl, calls, a, b);
      }
      LastCallIsLast(ttl, front, i);
    }
  }

  lemma StepSpaced(isSpace: char -> bool, ttl: real, w: World, r: Request)
    requires ttl > 0.0 && AllSpaced(ttl, w.calls) && Remembered(ttl, w) && w.clock <= r.arrived <= r.finished
    requires forall k :: 0 <= k < |w.calls| ==> w.calls[k].arrived <= w.calls[k].finished
    ensures AllSpaced(ttl, Advance(isSpace, ttl, w, r).calls)
  {
    var after := Advance(isSpace, ttl, w, r).calls;
    if after != w.calls {
      var n := |w.calls|;
      forall i, j | 0 <= i < j < |after|
        ensures Spaced(ttl, after, i, j)
      {
        if j < n {
          assert Spaced(ttl, w.calls, i, j);
        } else if after[i].key == after[n].key {
          LastCallIsLast(ttl, w.calls, i);
          assert Remembers(ttl, w, after[n].key);
        }
      }
    }
  }

  lemma {:induction false} RunSpaced(isSpace: char -> bool, ttl: real, clock: real, requests: seq<Request>)
    requires ttl > 0.0 && Sequential(clock, requests)
    ensures var calls := Run(isSpace, ttl, clock, requests).calls;
            AllSpaced(ttl, calls) && forall k :: 0 <= k < |calls| ==> calls[k].arrived <= calls[k].finished
  {
    if requests != [] {
      var front, last := requests[..|requests| - 1], requests[|requests| - 1];
      RunSpaced(isSpace, ttl, clock, front);
      RunRemembers(isSpace, ttl, clock, front);
      StepSpaced(isSpace, ttl, Run(isSpace, ttl, clock, front), last);
    }
  }

  // Two successful broker calls under one scoped key are at least the TTL apart.
  lemma {:induction false} CallsAreSpaced(isSpace: char -> bool, ttl: real, clock: real, requests: seq<Request>, i: nat, j: nat)
    requires ttl > 0.0 && Sequential(clock, requests)
    requires var calls := Run(isSpace, ttl, clock, requests).calls; i < j < |calls| && calls[i].key == calls[j].key
    ensures var calls := Run(isSpace, ttl, clock, requests).calls; calls[i].finished + ttl <= calls[j].arrived
  {
    RunSpaced(isSpace, ttl, clock, requests);
    assert Spaced(ttl, Run(isSpace, ttl, clock, requests).calls, i, j);
  }

  // ---- Whose order an answer is about ----

  // The latest successful call under a key, unless it has expired.
  function LiveCall(calls: seq<Call>, ttl: real, key: string, now: real): Option<Call> {
    var last := LastCall(calls, key);
    if last.Some? && now < last.value.finished + ttl then last else None
  }

  // Every broker reply is about the operation that asked for it; `about` reads that off a payload.
  ghost predicate BrokerAnswers(about: string -> Op, requests: seq<Request>) {
    forall i :: 0 <= i < |requests| && requests[i].broker.Some? ==> about(requests[i].broker.value) == requests[i].op
  }

  // The reply carries no payload, or one about the operation that the caller asked for.
  predicate AboutItsOwn(about: string -> Op, reply: Reply, op: Op) {
    match reply
    case Replayed(payload) => about(payload) == op
    case Done(_, payload) => about(payload) == op
    case _ => true
  }

  lemma {:induction false} CallsAreAboutTheirOwn(isSpace: char -> bool, ttl: real, clock: real, requests: seq<Request>,
                                                 about: string -> Op)
    requires BrokerAnswers(about, requests)
    ensures forall c :: c in Run(isSpace, ttl, clock, requests).calls ==>
              about(c.payload) == c.op && exists key :: c.key == ScopedKey(c.op, key)
  {
    if requests != [] {
      var front, last := requests[..|requests| - 1], requests[|requests| - 1];
      assert last == requests[|requests| - 1];
      CallsAreAboutTheirOwn(isSpace, ttl, clock, front, about);
      var w, v := Run(isSpace, ttl, clock, front), Run(isSpace, ttl, clock, requests);
      if v.calls != w.calls {
        var c := v.calls[|w.calls|];
        assert v.calls == w.calls + [c];
        assert about(c.payload) == c.op && c.key == ScopedKey(c.op, Strip(isSpace, last.key.value));
      }
    }
  }

  lemma {:induction false} LastCallIsOne(calls: seq<Call>, key: string)
    requires LastCall(calls, key).Some?
    ensures LastCall(calls, key).value in calls && LastCall(calls, key).value.key == key
  {
    if calls[|calls| - 1].key != key { LastCallIsOne(calls[..|calls| - 1], key); }
  }

  // After any run, a caller is answered about what it asked for exactly if no live call stands under its
  // key, or that call was for the same operation on the same order.
  lemma {:induction false} AnsweredAboutItsOwnExactlyWhen(isSpace: char -> bool, ttl: real, clock: real,
                                                          requests: seq<Request>, r: Request, about: string -> Op)
    requires Sequential(clock, requests + [r]) && Missing(isSpace, r).None?
    requires BrokerAnswers(about, requests) && (r.broker.Some? ==> about(r.broker.value) == r.op)
    ensures var w := Run(isSpace, ttl, clock, requests);
            var live := LiveCall(w.calls, ttl, StoreKey(isSpace, r), r.arrived);
            AboutItsOwn(about, ReplyTo(isSpace, w.entries, r), r.op) <==> live.None? || live.value.op == r.op
  {
    var w := Run(isSpace, ttl, clock, requests);
    DecidedByHistory(isSpace, ttl, clock, requests, r);
    CallsAreAboutTheirOwn(isSpace, ttl, clock, requests, about);
    if LastCall(w.calls, StoreKey(isSpace, r)).Some? { LastCallIsOne(w.calls, StoreKey(isSpace, r)); }
  }

  // So a placement always is, and a modification is as long as no order id contains a colon.
  lemma {:induction false} PlacementsAndModificationsAreAnsweredAboutTheirOwn(
      isSpace: char -> bool, ttl: real, clock: real, requests: seq<Request>, r: Request, about: string -> Op)
    requires Sequential(clock, requests + [r]) && Missing(isSpace, r).None? && !r.op.Cancel?
    requires BrokerAnswers(about, requests) && (r.broker.Some? ==> about(r.broker.value) == r.op)
    requires r.op.Modify? ==> ':' !in r.op.orderId
    requires forall c :: c in Run(isSpace, ttl, clock, requests).calls && c.op.Modify? ==> ':' !in c.op.orderId
    ensures AboutItsOwn(about, ReplyTo(isSpace, Run(isSpace, ttl, clock, requests).entries, r), r.op)
  {
    var w, key := Run(isSpace, ttl, clock, requests), Strip(isSpace, r.key.value);
    AnsweredAboutItsOwnExactlyWhen(isSpace, ttl, clock, requests, r, about);
    var live := LiveCall(w.calls, ttl, StoreKey(isSpace, r), r.arrived);
    if live.Some? {
      LastCallIsOne(w.calls, StoreKey(isSpace, r));
      CallsAreAboutTheirOwn(isSpace, ttl, clock, requests, about);
      var used :| live.value.key == ScopedKey(live.value.op, used);
      MethodsAreApart(live.value.op, r.op, used, key);
      if r.op.Modify? { ModifyKeysAreApart(live.value.op.orderId, used, r.op.orderId, key); }
    }
  }

  // A cancellation under a used key is answered with the earlier one, whatever order it names: unlike
  // a modification, its key says nothing of the order.
  lemma {:induction false} CancellationOfAnotherOrderIsReplayed(isSpace: char -> bool, ttl: real, clock: real, requests: seq<Request>,
                                             first: Request, second: Request)
    requires ttl > 0.0 && Sequential(clock, requests + [first] + [second])
    requires first.op.Cancel? && second.op.Cancel? && first.key == second.key
    requires Missing(isSpace, first).None? && Missing(isSpace, second).None?
    requires ReplyTo(isSpace, Run(isSpace, ttl, clock, requests).entries, first).Done?
    requires second.arrived < first.finished + ttl
    ensures ReplyTo(isSpace, Run(isSpace, ttl, clock, requests + [first]).entries, second)
            == Replayed(first.broker.value)
  {
    assert (requests + [first] + [second])[..|requests| + 1] == requests + [first];
    assert (requests + [first])[..|requests|] == requests;
    DecidedByHistory(isSpace, ttl, clock, requests + [first], second);
  }

  // ---- The documented answer to a used key with another body ----

  // ---- The documented answer to a used key with another body ----

  // The documentation's answer to a request with the headers it needs.
  function Documented(isSpace: char -> bool, ttl: real, calls: seq<Call>, r: Request): Reply
    requires Missing(isSpace, r).None?
  {
    match LiveCall(calls, ttl, StoreKey(isSpace, r), r.arrived)
    case Some(call) => if call.body == r.body then Replayed(call.payload) else Mismatch
    case None => if r.broker.Some? then Done(StatusCode(r.op), r.broker.value) else Raised
  }

  // The handlers answer as documented exactly if no live call stands under the key, or one with the
  // same body.
  lemma {:induction false} AnswersAsDocumentedExactlyWhen(isSpace: char -> bool, ttl: real, clock: real,
                                                          requests: seq<Request>, r: Request)
    requires Sequential(clock, requests + [r]) && Missing(isSpace, r).None?
    ensures var w := Run(isSpace, ttl, clock, requests);
            var live := LiveCall(w.calls, ttl, StoreKey(isSpace, r), r.arrived);
            ReplyTo(isSpace, w.entries, r) == Documented(isSpace, ttl, w.calls, r) <==>
            live.None? || live.value.body == r.body
  {
    DecidedByHistory(isSpace, ttl, clock, requests, r);
  }

  // A second request with the same key and another body gets the first one's answer.
  lemma {:induction false} ChangedBodyIsReplayed(isSpace: char -> bool, ttl: real, clock: real, requests: seq<Request>,
                                                 first: Request, second: Request)
    requires Sequential(clock, requests + [first] + [second])
    requires first.op == second.op && first.key == second.key && first.body != second.body
    requires Missing(isSpace, first).None? && Missing(isSpace, second).None?
    requires ReplyTo(isSpace, Run(isSpace, ttl, clock, requests).entries, first).Done?
    requires second.arrived < first.finished + ttl
    ensures var w := Run(isSpace, ttl, clock, requests + [first]);
            && ReplyTo(isSpace, w.entries, second) == Replayed(first.broker.value)
            && Documented(isSpace, ttl, w.calls, second) == Mismatch
  {
    assert (requests + [first] + [second])[..|requests| + 1] == requests + [first];
    assert (requests + [first])[..|requests|] == requests;
    DecidedByHistory(isSpace, ttl, clock, requests + [first], second);
  }
}
