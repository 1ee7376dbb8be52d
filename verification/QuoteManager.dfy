/** The quote stream's subscription manager (streams/manager.py): one subscription per contract id,
  * one queue per consumer shared by all the contract ids it listens to, and a limit on contract ids.
  * The cool-down protocol underneath is CoolDownRegistry, used with the teardown of the quote stream.
  */
module QuoteManager {
  import opened BoundedQueue
  import opened Options
  import R = CoolDownRegistry

  const CONSUMER_QUEUE_MAX := 1024

  datatype Quote = Quote(conid: int, fields: string)

  datatype StreamEvent = StreamEvent(id: nat, conid: int, quote: Quote)

  type Registry = R.World<int, StreamEvent>

  // `iterators` lists, for every consumer whose iterator is live, the subscriptions it was attached to.
  datatype World = World(reg: Registry, iterators: map<string, seq<nat>>, queues: map<string, seq<StreamEvent>>)

  datatype Step =
    | Subscribe(conids: seq<int>, consumer: string)
    | Close(consumer: string)
    | Take(consumer: string)
    | Publish(conid: int, quote: Quote)
    | Wake(task: nat)
    | Teardown(task: nat)
    | Pass(now: int)

  function Empty(start: int): World {
    World(R.Empty(start), map[], map[])
  }

  // The requested contract ids without a subscription, repetitions included.
  function Unknown(reg: Registry, conids: seq<int>): seq<int> {
    if conids == [] then []
    else (if conids[0] in reg.registry then [] else [conids[0]]) + Unknown(reg, conids[1..])
  }

  predicate Refused(reg: Registry, conids: seq<int>, maxConids: nat) {
    conids == [] || |reg.registry| + |Unknown(reg, conids)| > maxConids
  }

  function AttachAll(reg: Registry, conids: seq<int>, consumer: string): Registry {
    if conids == [] then reg
    else R.Advance(AttachAll(reg, conids[..|conids| - 1], consumer), R.Attach(conids[|conids| - 1], consumer), 0)
  }

  function DetachAll(reg: Registry, slots: seq<nat>, consumer: string, coolDown: nat): Registry {
    if slots == [] then reg
    else R.Advance(DetachAll(reg, slots[..|slots| - 1], consumer, coolDown), R.Detach(slots[|slots| - 1], consumer), coolDown)
  }

  function Slots(reg: Registry, conids: seq<int>): seq<nat> {
    if conids == [] then []
    else
      var n := |conids| - 1;
      Slots(reg, conids[..n]) + (if conids[n] in reg.registry then [reg.registry[conids[n]]] else [])
  }

  function Offer(queue: seq<StreamEvent>, e: StreamEvent): seq<StreamEvent> {
    Newest(queue + [e], CONSUMER_QUEUE_MAX)
  }

  function Advance(w: World, e: Step, maxConids: nat, coolDown: nat): World {
    match e
    case Subscribe(conids, consumer) =>
      if Refused(w.reg, conids, maxConids) then w
      else
        var reg := AttachAll(w.reg, conids, consumer);
        World(reg, w.iterators[consumer := Slots(reg, conids)], w.queues[consumer := []])
    case Close(consumer) =>
      if consumer !in w.iterators then w
      else World(DetachAll(w.reg, w.iterators[consumer], consumer, coolDown), w.iterators - {consumer}, w.queues - {consumer})
    case Take(consumer) =>
      if consumer !in w.queues || w.queues[consumer] == [] then w
      else w.(queues := w.queues[consumer := w.queues[consumer][1..]])
    case Publish(conid, quote) =>
      if conid !in w.reg.registry || w.reg.registry[conid] >= |w.reg.subs| then w
      else
        var sub := w.reg.subs[w.reg.registry[conid]];
        var event := StreamEvent(|sub.log|, quote.conid, quote);
        w.(reg := R.Advance(w.reg, R.Publish(conid, event), coolDown),
           queues := map c | c in w.queues :: if c in sub.consumers then Offer(w.queues[c], event) else w.queues[c])
    case Wake(t) => w.(reg := R.Advance(w.reg, R.Wake(t), coolDown))
    case Teardown(t) => w.(reg := R.Advance(w.reg, R.Teardown(t, false), coolDown))
    case Pass(now) => w.(reg := R.Advance(w.reg, R.Pass(now), coolDown))
  }

  // ---- The object ----

  class SubscriptionManager {
    const maxConids: nat
    const coolDown: nat
    var reg: Registry
    var iterators: map<string, seq<nat>>
    var queues: map<string, seq<StreamEvent>>

    function Abs(): World
      reads this
    {
      World(reg, iterators, queues)
    }

    constructor (maxConids: nat, coolDown: nat, start: int)
      ensures this.maxConids == maxConids && this.coolDown == coolDown && Abs() == Empty(start)
    {
      this.maxConids, this.coolDown := maxConids, coolDown;
      reg, iterators, queues := R.Empty(start), map[], map[];
    }

    // A refused request attaches nothing; an accepted one attaches the consumer to every contract id.
    method Subscribe(conids: seq<int>, consumer: string) returns (accepted: bool)
      modifies this
      ensures accepted <==> !Refused(old(reg), conids, maxConids)
      ensures Abs() == Advance(old(Abs()), Step.Subscribe(conids, consumer), maxConids, coolDown)
    {
      if conids == [] { return false; }
      var unknown := CountUnknown(conids);
      if |reg.registry| + unknown > maxConids { return false; }
      for i := 0 to |conids|
        invariant reg == AttachAll(old(reg), conids[..i], consumer)
        invariant iterators == old(iterators) && queues == old(queues)
      {
        reg := R.Advance(reg, R.Attach(conids[i], consumer), 0);
        assert conids[..i + 1][..i] == conids[..i];
      }
      assert conids[..|conids|] == conids;
      iterators := iterators[consumer := Slots(reg, conids)];
      queues := queues[consumer := []];
      return true;
    }

    method CountUnknown(conids: seq<int>) returns (n: nat)
      ensures n == |Unknown(reg, conids)|
    {
      n := 0;
      for i := 0 to |conids|
        invariant n + |Unknown(reg, conids[i..])| == |Unknown(reg, conids)|
      {
        assert conids[i..][1..] == conids[i + 1..];
        if conids[i] !in reg.registry { n := n + 1; }
      }
    }

    // The iterator's clean-up.
    method Close(consumer: string)
      modifies this
      ensures Abs() == Advance(old(Abs()), Step.Close(consumer), maxConids, coolDown)
    {
      if consumer !in iterators { return; }
      var slots := iterators[consumer];
      for i := 0 to |slots|
        invariant reg == DetachAll(old(reg), slots[..i], consumer, coolDown)
        invariant iterators == old(iterators) && queues == old(queues)
      {
        reg := R.Advance(reg, R.Detach(slots[i], consumer), coolDown);
        assert slots[..i + 1][..i] == slots[..i];
      }
      assert slots[..|slots|] == slots;
      iterators, queues := iterators - {consumer}, queues - {consumer};
    }

    // Quotes for a contract id nobody subscribed to are dropped.
    method Publish(conid: int, quote: Quote)
      modifies this
      ensures Abs() == Advance(old(Abs()), Step.Publish(conid, quote), maxConids, coolDown)
    {
      if conid !in reg.registry || reg.registry[conid] >= |reg.subs| { return; }
      var sub := reg.subs[reg.registry[conid]];
      var event := StreamEvent(|sub.log|, quote.conid, quote);
      reg := R.Advance(reg, R.Publish(conid, event), coolDown);
      FanOut(sub.consumers, event);
    }

    method FanOut(consumers: set<string>, event: StreamEvent)
      modifies this`queues
      ensures queues == map c | c in old(queues) :: if c in consumers then Offer(old(queues)[c], event) else old(queues)[c]
    {
      var waiting := consumers;
      ghost var before, done := queues, {};
      assert queues == OfferedTo(before, done, event);
      while waiting != {}
        invariant done + waiting == consumers && done !! waiting && queues == OfferedTo(before, done, event)
        decreases |waiting|
      {
        var c :| c in waiting;
        OfferOneMore(before, done, event, c);
        if c in queues {
          var queue := queues[c] + [event];
          if |queue| > CONSUMER_QUEUE_MAX { queue := queue[|queue| - CONSUMER_QUEUE_MAX..]; }
          assert queue == Offer(before[c], event);
          queues := queues[c := queue];
        }
        waiting, done := waiting - {c}, done + {c};
      }
      assert done == consumers;
    }
  }

  function OfferedTo(queues: map<string, seq<StreamEvent>>, done: set<string>, e: StreamEvent)
    : map<string, seq<StreamEvent>>
  {
    map c | c in queues :: if c in done then Offer(queues[c], e) else queues[c]
  }

  lemma OfferOneMore(queues: map<string, seq<StreamEvent>>, done: set<string>, e: StreamEvent, c: string)
    requires c !in done
    ensures OfferedTo(queues, done + {c}, e) ==
            if c in queues then OfferedTo(queues, done, e)[c := Offer(queues[c], e)] else OfferedTo(queues, done, e)
  {
  }

  ghost predicate Distinct(conids: seq<int>) {
    forall i, j :: 0 <= i < j < |conids| ==> conids[i] != conids[j]
  }

  // Consumer ids are fresh, and quotes are published under their own contract id.
  ghost predicate Legal(w: World, e: Step) {
    match e
    case Subscribe(_, consumer) => consumer !in w.iterators
    case Publish(conid, quote) => quote.conid == conid
    case Wake(t) => R.Legal(w.reg, R.Wake(t))
    case Teardown(t) => R.Legal(w.reg, R.Teardown(t, false))
    case Pass(now) => R.Legal(w.reg, R.Pass(now))
    case _ => true
  }

  function Run(start: int, steps: seq<Step>, maxConids: nat, coolDown: nat): World {
    if steps == [] then Empty(start)
    else Advance(Run(start, steps[..|steps| - 1], maxConids, coolDown), steps[|steps| - 1], maxConids, coolDown)
  }

  ghost predicate LegalRun(start: int, steps: seq<Step>, maxConids: nat, coolDown: nat) {
    steps != [] ==>
      LegalRun(start, steps[..|steps| - 1], maxConids, coolDown) &&
      Legal(Run(start, steps[..|steps| - 1], maxConids, coolDown), steps[|steps| - 1])
  }

  // No request names a contract id twice.
  ghost predicate NoRepeats(steps: seq<Step>) {
    forall i :: 0 <= i < |steps| && steps[i].Subscribe? ==> Distinct(steps[i].conids)
  }

  // ---- Reference counts ----

  // Each subscription's consumers are exactly the live iterators that list it.
  ghost predicate Counted(w: World) {
    forall s: nat, c :: s < |w.reg.subs| ==>
      (c in w.reg.subs[s].consumers <==> c in w.iterators && s in w.iterators[c])
  }

  // The subscriptions an iterator lists are distinct, and so are their contract ids.
  ghost predicate Listed(w: World) {
    forall c :: c in w.iterators ==> c in w.queues && ListsOnce(w.reg, w.iterators[c])
  }

  ghost predicate ListsOnce(reg: Registry, slots: seq<nat>) {
    (forall i :: 0 <= i < |slots| ==> slots[i] < |reg.subs|) &&
    (forall i, j :: 0 <= i < j < |slots| ==> slots[i] != slots[j] && reg.subs[slots[i]].key != reg.subs[slots[j]].key)
  }

  // What attaching `consumer` under `keys` made of subscription `s`.
  ghost predicate JoinedAt(before: Registry, after: Registry, s: nat, keys: set<int>, consumer: string)
    requires s < |after.subs|
  {
    var sub := after.subs[s];
    if s < |before.subs| then
      sub.key == before.subs[s].key && sub.log == before.subs[s].log &&
      sub.consumers == before.subs[s].consumers + if R.Registered(after, s) && sub.key in keys then {consumer} else {}
    else
      R.Registered(after, s) && sub.key in keys && sub.consumers == {consumer} && sub.log == []
  }

  ghost predicate Extends(before: Registry, after: Registry, keys: set<int>) {
    && |before.subs| <= |after.subs|
    && after.registry.Keys == before.registry.Keys + keys
    && (forall k :: k in before.registry ==> after.registry[k] == before.registry[k])
  }

  ghost predicate AttachedTo(before: Registry, after: Registry, keys: set<int>, consumer: string) {
    Extends(before, after, keys) &&
    forall s: nat :: s < |after.subs| ==> JoinedAt(before, after, s, keys, consumer)
  }

  lemma {:induction false} AttachOne(v: Registry, conid: int, consumer: string)
    requires R.Inv(v)
    ensures AttachedTo(v, R.Advance(v, R.Attach(conid, consumer), 0), {conid}, consumer)
  {
    assert forall k :: k in v.registry ==> v.registry[k] < |v.subs| && v.subs[v.registry[k]].key == k;
  }

  lemma {:induction false} AttachTwice(before: Registry, v: Registry, u: Registry, keys: set<int>, conid: int, consumer: string)
    requires AttachedTo(before, v, keys, consumer) && AttachedTo(v, u, {conid}, consumer)
    requires forall k :: k in v.registry ==> v.registry[k] < |v.subs| && v.subs[v.registry[k]].key == k
    ensures AttachedTo(before, u, keys + {conid}, consumer)
  {
    forall s: nat | s < |u.subs|
      ensures JoinedAt(before, u, s, keys + {conid}, consumer)
    {
      assert JoinedAt(v, u, s, {conid}, consumer);
      if s < |v.subs| { assert JoinedAt(before, v, s, keys, consumer); }
    }
  }

  function Keys(conids: seq<int>): set<int> {
    set k | k in conids
  }

  lemma {:induction false} KeysAppend(conids: seq<int>, n: nat)
    requires n == |conids| - 1
    ensures Keys(conids) == Keys(conids[..n]) + {conids[n]}
  {
    assert conids == conids[..n] + [conids[n]];
  }

  lemma {:induction false} AttachAllKeepsInv(reg: Registry, conids: seq<int>, consumer: string)
    requires R.Inv(reg)
    ensures R.Inv(AttachAll(reg, conids, consumer))
  {
    if conids != [] {
      var n := |conids| - 1;
      AttachAllKeepsInv(reg, conids[..n], consumer);
      R.AttachKeepsInv(AttachAll(reg, conids[..n], consumer), conids[n], consumer);
    }
  }

  lemma {:induction false} AttachMore(reg: Registry, v: Registry, keys: set<int>, conid: int, consumer: string)
    requires R.Inv(v) && AttachedTo(reg, v, keys, consumer)
    ensures AttachedTo(reg, R.Advance(v, R.Attach(conid, consumer), 0), keys + {conid}, consumer)
  {
    AttachOne(v, conid, consumer);
    AttachTwice(reg, v, R.Advance(v, R.Attach(conid, consumer), 0), keys, conid, consumer);
  }

  lemma {:induction false} AttachAllAttaches(reg: Registry, conids: seq<int>, consumer: string)
    requires R.Inv(reg)
    ensures AttachedTo(reg, AttachAll(reg, conids, consumer), Keys(conids), consumer)
  {
    if conids == [] {
      forall s: nat | s < |reg.subs| ensures JoinedAt(reg, reg, s, {}, consumer) { }
    } else {
      var n := |conids| - 1;
      AttachAllKeepsInv(reg, conids[..n], consumer);
      AttachAllAttaches(reg, conids[..n], consumer);
      AttachMore(reg, AttachAll(reg, conids[..n], consumer), Keys(conids[..n]), conids[n], consumer);
      KeysAppend(conids, n);
    }
  }

  // What detaching `consumer` from `slots` leaves of the registry.
  ghost predicate DetachedFrom(before: Registry, after: Registry, slots: seq<nat>, consumer: string) {
    && |after.subs| == |before.subs| && after.registry == before.registry
    && (forall s: nat :: s < |after.subs| ==>
          after.subs[s].key == before.subs[s].key && after.subs[s].log == before.subs[s].log &&
          after.subs[s].consumers == before.subs[s].consumers - if s in slots then {consumer} else {})
  }

  ghost predicate MayDetach(reg: Registry, slots: seq<nat>, consumer: string) {
    (forall i :: 0 <= i < |slots| ==> slots[i] < |reg.subs| && consumer in reg.subs[slots[i]].consumers) &&
    (forall i, j :: 0 <= i < j < |slots| ==> slots[i] != slots[j])
  }

  lemma {:induction false} DetachOne(reg: Registry, v: Registry, slots: seq<nat>, n: nat, consumer: string, coolDown: nat)
    requires MayDetach(reg, slots, consumer) && n == |slots| - 1 && DetachedFrom(reg, v, slots[..n], consumer)
    ensures R.Legal(v, R.Detach(slots[n], consumer))
    ensures DetachedFrom(reg, R.Advance(v, R.Detach(slots[n], consumer), coolDown), slots, consumer)
  {
    assert slots == slots[..n] + [slots[n]];
    assert slots[n] !in slots[..n];
  }

  lemma {:induction false} DetachAllDetaches(reg: Registry, slots: seq<nat>, consumer: string, coolDown: nat)
    requires R.Inv(reg) && MayDetach(reg, slots, consumer)
    ensures R.Inv(DetachAll(reg, slots, consumer, coolDown))
    ensures DetachedFrom(reg, DetachAll(reg, slots, consumer, coolDown), slots, consumer)
  {
    if slots != [] {
      var n := |slots| - 1;
      DetachAllDetaches(reg, slots[..n], consumer, coolDown);
      var v := DetachAll(reg, slots[..n], consumer, coolDown);
      DetachOne(reg, v, slots, n, consumer, coolDown);
      R.DetachKeepsInv(v, slots[n], consumer, coolDown);
    }
  }

  lemma {:induction false} SlotsAre(reg: Registry, conids: seq<int>)
    requires Keys(conids) <= reg.registry.Keys
    ensures |Slots(reg, conids)| == |conids|
    ensures forall i :: 0 <= i < |conids| ==> conids[i] in reg.registry && Slots(reg, conids)[i] == reg.registry[conids[i]]
  {
    assert forall i :: 0 <= i < |conids| ==> conids[i] in Keys(conids);
    if conids != [] {
      KeysAppend(conids, |conids| - 1);
      SlotsAre(reg, conids[..|conids| - 1]);
    }
  }

  ghost predicate Within(reg: Registry, slots: seq<nat>) {
    forall i :: 0 <= i < |slots| ==> slots[i] < |reg.subs|
  }

  lemma {:induction false} SlotsAreWithin(reg: Registry, conids: seq<int>)
    requires Keys(conids) <= reg.registry.Keys
    requires forall k :: k in reg.registry ==> reg.registry[k] < |reg.subs| && reg.subs[reg.registry[k]].key == k
    ensures Within(reg, Slots(reg, conids))
    ensures forall s: nat :: s < |reg.subs| ==>
              (s in Slots(reg, conids) <==> R.Registered(reg, s) && reg.subs[s].key in Keys(conids))
  {
    SlotsAre(reg, conids);
    var slots := Slots(reg, conids);
    forall i | 0 <= i < |slots|
      ensures slots[i] < |reg.subs| && reg.subs[slots[i]].key == conids[i] && R.Registered(reg, slots[i])
    {
      var k := conids[i];
      assert k in reg.registry && slots[i] == reg.registry[k] && reg.registry[k] < |reg.subs|;
    }
    forall s: nat | s < |reg.subs| && R.Registered(reg, s) && reg.subs[s].key in Keys(conids)
      ensures s in slots
    {
      var i :| 0 <= i < |conids| && conids[i] == reg.subs[s].key;
      assert slots[i] == s;
    }
  }

  lemma {:induction false} SlotsAreListed(reg: Registry, conids: seq<int>)
    requires Keys(conids) <= reg.registry.Keys && Distinct(conids)
    requires forall k :: k in reg.registry ==> reg.registry[k] < |reg.subs| && reg.subs[reg.registry[k]].key == k
    ensures ListsOnce(reg, Slots(reg, conids))
  {
    SlotsAre(reg, conids);
    var slots := Slots(reg, conids);
    forall i | 0 <= i < |slots|
      ensures slots[i] < |reg.subs| && reg.subs[slots[i]].key == conids[i]
    {
      var k := conids[i];
      assert k in reg.registry && slots[i] == reg.registry[k] && reg.registry[k] < |reg.subs|;
    }
  }

  lemma {:induction false} SubscribeCounts(w: World, after: Registry, conids: seq<int>, consumer: string, slots: seq<nat>)
    requires Counted(w) && consumer !in w.iterators && AttachedTo(w.reg, after, Keys(conids), consumer)
    requires forall c :: c in w.iterators ==> Within(w.reg, w.iterators[c])
    requires forall s: nat :: s < |after.subs| ==>
               (s in slots <==> R.Registered(after, s) && after.subs[s].key in Keys(conids))
    ensures Counted(World(after, w.iterators[consumer := slots], w.queues[consumer := []]))
  {
    forall s: nat, c | s < |after.subs|
      ensures c in after.subs[s].consumers <==> c in w.iterators[consumer := slots] && s in w.iterators[consumer := slots][c]
    {
      assert JoinedAt(w.reg, after, s, Keys(conids), consumer);
      if c in w.iterators && c != consumer { assert Within(w.reg, w.iterators[c]); }
    }
  }

  lemma {:induction false} SubscribeLists(w: World, after: Registry, keys: set<int>, consumer: string, slots: seq<nat>)
    requires Listed(w) && AttachedTo(w.reg, after, keys, consumer) && ListsOnce(after, slots)
    ensures Listed(World(after, w.iterators[consumer := slots], w.queues[consumer := []]))
  {
    forall c | c in w.iterators && c != consumer
      ensures ListsOnce(after, w.iterators[c])
    {
      forall s: nat | s < |w.reg.subs| ensures after.subs[s].key == w.reg.subs[s].key {
        assert JoinedAt(w.reg, after, s, keys, consumer);
      }
    }
  }

  lemma {:induction false} CloseCounts(w: World, after: Registry, consumer: string)
    requires Counted(w) && Listed(w) && consumer in w.iterators && DetachedFrom(w.reg, after, w.iterators[consumer], consumer)
    ensures Counted(World(after, w.iterators - {consumer}, w.queues - {consumer}))
    ensures Listed(World(after, w.iterators - {consumer}, w.queues - {consumer}))
  {
  }

  lemma {:induction false} ListedMayDetach(w: World, consumer: string)
    requires Counted(w) && Listed(w) && consumer in w.iterators
    ensures MayDetach(w.reg, w.iterators[consumer], consumer)
  {
  }

  // ---- What the queues hold ----

  function OfConid(queue: seq<StreamEvent>, conid: int): seq<StreamEvent> {
    if queue == [] then []
    else (if queue[0].conid == conid then [queue[0]] else []) + OfConid(queue[1..], conid)
  }

  // Every log numbers its events consecutively and tags them with its contract id.
  ghost predicate Tagged(reg: Registry) {
    forall s: nat, i :: s < |reg.subs| && 0 <= i < |reg.subs[s].log| ==>
      reg.subs[s].log[i].id == i && reg.subs[s].log[i].conid == reg.subs[s].key
  }

  // Of every contract id a consumer listens to, its queue holds a consecutive run ending at the newest event.
  ghost predicate Fed(w: World) {
    forall c, s :: c in w.iterators && c in w.queues && s in w.iterators[c] && s < |w.reg.subs| ==>
      IsSuffix(OfConid(w.queues[c], w.reg.subs[s].key), w.reg.subs[s].log)
  }

  lemma {:induction false} OfConidCons(e: StreamEvent, rest: seq<StreamEvent>, conid: int)
    ensures OfConid([e] + rest, conid) == (if e.conid == conid then [e] else []) + OfConid(rest, conid)
  {
    assert ([e] + rest)[1..] == rest;
  }

  lemma {:induction false} OfConidConcat(a: seq<StreamEvent>, b: seq<StreamEvent>, conid: int)
    ensures OfConid(a + b, conid) == OfConid(a, conid) + OfConid(b, conid)
  {
    if a == [] {
      assert a + b == b;
    } else {
      var e, rest := a[0], a[1..];
      OfConidConcat(rest, b, conid);
      OfConidCons(e, rest + b, conid);
      assert a + b == [e] + (rest + b);
    }
  }

  lemma {:induction false} OfConidSuffix(queue: seq<StreamEvent>, k: nat, conid: int)
    requires k <= |queue|
    ensures IsSuffix(OfConid(queue[k..], conid), OfConid(queue, conid))
  {
    assert queue == queue[..k] + queue[k..];
    OfConidConcat(queue[..k], queue[k..], conid);
  }

  lemma {:induction false} OfferFeeds(queue: seq<StreamEvent>, e: StreamEvent, conid: int, log: seq<StreamEvent>)
    requires IsSuffix(OfConid(queue, conid), log)
    ensures IsSuffix(OfConid(Offer(queue, e), conid), if e.conid == conid then log + [e] else log)
  {
    var q := queue + [e];
    OfConidConcat(queue, [e], conid);
    if e.conid == conid { SuffixAppend(OfConid(queue, conid), log, e); }
    OfConidSuffix(q, |q| - |Offer(queue, e)|, conid);
    SuffixOfSuffix(OfConid(Offer(queue, e), conid), OfConid(q, conid), if e.conid == conid then log + [e] else log);
  }

  lemma {:induction false} TakeFeeds(queue: seq<StreamEvent>, conid: int, log: seq<StreamEvent>)
    requires queue != [] && IsSuffix(OfConid(queue, conid), log)
    ensures IsSuffix(OfConid(queue[1..], conid), log)
  {
    OfConidSuffix(queue, 1, conid);
    SuffixOfSuffix(OfConid(queue[1..], conid), OfConid(queue, conid), log);
  }

  lemma {:induction false} PublishFeeds(w: World, conid: int, quote: Quote, maxConids: nat, coolDown: nat)
    requires Counted(w) && Listed(w) && Fed(w) && Tagged(w.reg) && R.Inv(w.reg)
    requires quote.conid == conid && conid in w.reg.registry
    ensures var v := Advance(w, Publish(conid, quote), maxConids, coolDown);
            Fed(v) && Tagged(v.reg)
  {
    var target := w.reg.registry[conid];
    var sub := w.reg.subs[target];
    var event := StreamEvent(|sub.log|, quote.conid, quote);
    var v := Advance(w, Publish(conid, quote), maxConids, coolDown);
    forall c, s | c in v.iterators && c in v.queues && s in v.iterators[c] && s < |v.reg.subs|
      ensures IsSuffix(OfConid(v.queues[c], v.reg.subs[s].key), v.reg.subs[s].log)
    {
      assert R.Registered(w.reg, s) by { assert c in w.reg.subs[s].consumers; }
      OfferFeeds(w.queues[c], event, w.reg.subs[s].key, w.reg.subs[s].log);
    }
  }

  lemma {:induction false} SubscribeFeeds(w: World, after: Registry, keys: set<int>, consumer: string, slots: seq<nat>)
    requires Fed(w) && Listed(w) && Tagged(w.reg) && consumer !in w.iterators && AttachedTo(w.reg, after, keys, consumer)
    ensures Fed(World(after, w.iterators[consumer := slots], w.queues[consumer := []]))
    ensures Tagged(after)
  {
    forall s: nat | s < |after.subs|
      ensures if s < |w.reg.subs| then after.subs[s].key == w.reg.subs[s].key && after.subs[s].log == w.reg.subs[s].log
              else after.subs[s].log == []
    {
      assert JoinedAt(w.reg, after, s, keys, consumer);
    }
  }

  // ---- The limit on contract ids ----

  lemma {:induction false} UnknownBounds(reg: Registry, conids: seq<int>)
    ensures |reg.registry.Keys + Keys(conids)| <= |reg.registry| + |Unknown(reg, conids)|
  {
    if conids == [] {
      assert reg.registry.Keys + Keys(conids) == reg.registry.Keys;
    } else {
      UnknownBounds(reg, conids[1..]);
      assert conids == [conids[0]] + conids[1..];
      var rest := reg.registry.Keys + Keys(conids[1..]);
      assert reg.registry.Keys + Keys(conids) == rest + {conids[0]};
    }
  }

  lemma {:induction false} FirstIsNew(conids: seq<int>)
    requires Distinct(conids) && conids != []
    ensures Distinct(conids[1..]) && conids[0] !in Keys(conids[1..])
    ensures Keys(conids) == Keys(conids[1..]) + {conids[0]}
  {
    assert conids == [conids[0]] + conids[1..];
    forall i | 0 <= i < |conids| - 1
      ensures conids[1..][i] != conids[0]
    {
      assert conids[1..][i] == conids[i + 1];
    }
  }

  lemma {:induction false} OneMoreKey(keys: set<int>, more: set<int>, k: int)
    requires k !in more
    ensures |keys + (more + {k})| == |keys + more| + if k in keys then 0 else 1
  {
    assert keys + (more + {k}) == if k in keys then keys + more else keys + more + {k};
  }

  lemma {:induction false} UnknownOnce(reg: Registry, conids: seq<int>)
    requires Distinct(conids)
    ensures |reg.registry.Keys + Keys(conids)| == |reg.registry.Keys| + |Unknown(reg, conids)|
  {
    if conids == [] {
      assert reg.registry.Keys + Keys(conids) == reg.registry.Keys;
    } else {
      FirstIsNew(conids);
      UnknownOnce(reg, conids[1..]);
      OneMoreKey(reg.registry.Keys, Keys(conids[1..]), conids[0]);
    }
  }

  // A request without repeats is refused exactly if it is empty or would make too many contract ids.
  lemma {:induction false} RefusedExactlyWhen(w: World, conids: seq<int>, consumer: string, maxConids: nat, coolDown: nat)
    requires Distinct(conids) && consumer !in w.iterators
    ensures Advance(w, Subscribe(conids, consumer), maxConids, coolDown) == w <==>
            conids == [] || |w.reg.registry.Keys + set k | k in conids| > maxConids
  {
    UnknownOnce(w.reg, conids);
    assert Keys(conids) == set k | k in conids;
    assert |w.reg.registry| == |w.reg.registry.Keys|;
    var v := Advance(w, Subscribe(conids, consumer), maxConids, coolDown);
    assert !Refused(w.reg, conids, maxConids) ==> consumer in v.iterators;
  }

  // A published quote is appended to a consumer's queue; only a queue of 1024 gives up its oldest event.
  lemma {:induction false} QueuesLoseOnlyWhenFull(w: World, conid: int, quote: Quote, maxConids: nat, coolDown: nat, c: string)
    requires conid in w.reg.registry && w.reg.registry[conid] < |w.reg.subs| && c in w.queues
    requires |w.queues[c]| <= 1024
    ensures var sub := w.reg.subs[w.reg.registry[conid]];
            var event := StreamEvent(|sub.log|, quote.conid, quote);
            var queue := Advance(w, Publish(conid, quote), maxConids, coolDown).queues[c];
            queue == if c !in sub.consumers then w.queues[c]
                     else if |w.queues[c]| < 1024 then w.queues[c] + [event]
                     else w.queues[c][1..] + [event]
  {
    var sub := w.reg.subs[w.reg.registry[conid]];
    var event := StreamEvent(|sub.log|, quote.conid, quote);
    if |w.queues[c]| == 1024 { assert (w.queues[c] + [event])[1..] == w.queues[c][1..] + [event]; }
  }

  ghost predicate Inv(w: World, maxConids: nat) {
    R.Inv(w.reg) && Counted(w) && Listed(w) && Fed(w) && Tagged(w.reg) && |w.reg.registry| <= maxConids
  }

  lemma {:induction false} ListedIsWithin(w: World)
    requires Listed(w)
    ensures forall c :: c in w.iterators ==> Within(w.reg, w.iterators[c])
  {
    forall c | c in w.iterators
      ensures Within(w.reg, w.iterators[c])
    {
      assert ListsOnce(w.reg, w.iterators[c]);
    }
  }

  lemma {:induction false} SubscribeKeepsInv(w: World, conids: seq<int>, consumer: string, maxConids: nat, coolDown: nat)
    requires Inv(w, maxConids) && consumer !in w.iterators && Distinct(conids)
    ensures Inv(Advance(w, Subscribe(conids, consumer), maxConids, coolDown), maxConids)
  {
    if !Refused(w.reg, conids, maxConids) {
      var after := AttachAll(w.reg, conids, consumer);
      AttachAllKeepsInv(w.reg, conids, consumer);
      AttachAllAttaches(w.reg, conids, consumer);
      SlotsAreWithin(after, conids);
      SlotsAreListed(after, conids);
      ListedIsWithin(w);
      SubscribeCounts(w, after, conids, consumer, Slots(after, conids));
      SubscribeLists(w, after, Keys(conids), consumer, Slots(after, conids));
      SubscribeFeeds(w, after, Keys(conids), consumer, Slots(after, conids));
      UnknownBounds(w.reg, conids);
      assert |after.registry| == |after.registry.Keys|;
    }
  }

  lemma {:induction false} CloseKeepsInv(w: World, consumer: string, maxConids: nat, coolDown: nat)
    requires Inv(w, maxConids)
    ensures Inv(Advance(w, Close(consumer), maxConids, coolDown), maxConids)
  {
    if consumer in w.iterators {
      ListedMayDetach(w, consumer);
      DetachAllDetaches(w.reg, w.iterators[consumer], consumer, coolDown);
      CloseCounts(w, DetachAll(w.reg, w.iterators[consumer], consumer, coolDown), consumer);
    }
  }

  lemma {:induction false} PublishKeepsInv(w: World, conid: int, quote: Quote, maxConids: nat, coolDown: nat)
    requires Inv(w, maxConids) && quote.conid == conid
    ensures Inv(Advance(w, Publish(conid, quote), maxConids, coolDown), maxConids)
  {
    if conid in w.reg.registry {
      PublishFeeds(w, conid, quote, maxConids, coolDown);
      R.OtherStepKeepsInv(w.reg, R.Publish(conid, StreamEvent(|w.reg.subs[w.reg.registry[conid]].log|, conid, quote)), coolDown);
    }
  }

  // Subscriptions may lose their cool-downs, but nothing else.
  ghost predicate SameButCoolDowns(before: Registry, after: Registry) {
    |after.subs| == |before.subs| &&
    forall s: nat :: s < |after.subs| ==>
      after.subs[s].key == before.subs[s].key && after.subs[s].consumers == before.subs[s].consumers &&
      after.subs[s].log == before.subs[s].log
  }

  lemma {:induction false} SameSubs(w: World, reg: Registry)
    requires Counted(w) && Listed(w) && Fed(w) && Tagged(w.reg) && SameButCoolDowns(w.reg, reg)
    ensures var v := w.(reg := reg);
            Counted(v) && Listed(v) && Fed(v) && Tagged(reg)
  {
  }

  lemma {:induction false} TaskStepKeepsSubs(reg: Registry, e: R.Step<int, StreamEvent>, coolDown: nat)
    requires e.Wake? || e.Teardown? || e.Pass?
    ensures SameButCoolDowns(reg, R.Advance(reg, e, coolDown))
  {
  }

  lemma {:induction false} TaskStepShrinks(reg: Registry, e: R.Step<int, StreamEvent>, coolDown: nat)
    requires e.Wake? || e.Teardown? || e.Pass?
    ensures |R.Advance(reg, e, coolDown).registry| <= |reg.registry|
  {
    Fewer(reg.registry, R.Advance(reg, e, coolDown).registry);
  }

  lemma {:induction false} Fewer(before: map<int, nat>, after: map<int, nat>)
    requires after.Keys <= before.Keys
    ensures |after| <= |before|
  {
    FewerKeys(after.Keys, before.Keys);
    assert |after| == |after.Keys| && |before| == |before.Keys|;
  }

  lemma {:induction false} TaskKeepsInv(w: World, e: R.Step<int, StreamEvent>, maxConids: nat, coolDown: nat)
    requires Inv(w, maxConids) && R.Legal(w.reg, e) && (e.Wake? || e.Teardown? || e.Pass?)
    ensures Inv(w.(reg := R.Advance(w.reg, e, coolDown)), maxConids)
  {
    R.OtherStepKeepsInv(w.reg, e, coolDown);
    TaskStepKeepsSubs(w.reg, e, coolDown);
    TaskStepShrinks(w.reg, e, coolDown);
    SameSubs(w, R.Advance(w.reg, e, coolDown));
  }

  lemma {:induction false} FewerKeys(a: set<int>, b: set<int>)
    requires a <= b
    ensures |a| <= |b|
  {
    assert b == a + (b - a);
  }

  lemma {:induction false} TakeKeepsInv(w: World, consumer: string, maxConids: nat, coolDown: nat)
    requires Inv(w, maxConids)
    ensures Inv(Advance(w, Take(consumer), maxConids, coolDown), maxConids)
  {
    if consumer in w.queues && w.queues[consumer] != [] {
      forall s | consumer in w.iterators && s in w.iterators[consumer] && s < |w.reg.subs|
        ensures IsSuffix(OfConid(w.queues[consumer][1..], w.reg.subs[s].key), w.reg.subs[s].log)
      {
        TakeFeeds(w.queues[consumer], w.reg.subs[s].key, w.reg.subs[s].log);
      }
    }
  }

  lemma {:induction false} StepKeepsInv(w: World, e: Step, maxConids: nat, coolDown: nat)
    requires Inv(w, maxConids) && Legal(w, e) && (e.Subscribe? ==> Distinct(e.conids))
    ensures Inv(Advance(w, e, maxConids, coolDown), maxConids)
  {
    match e
    case Subscribe(conids, consumer) => SubscribeKeepsInv(w, conids, consumer, maxConids, coolDown);
    case Close(consumer) => CloseKeepsInv(w, consumer, maxConids, coolDown);
    case Take(consumer) => TakeKeepsInv(w, consumer, maxConids, coolDown);
    case Publish(conid, quote) => PublishKeepsInv(w, conid, quote, maxConids, coolDown);
    case Wake(t) => TaskKeepsInv(w, R.Wake(t), maxConids, coolDown);
    case Teardown(t) => TaskKeepsInv(w, R.Teardown(t, false), maxConids, coolDown);
    case Pass(now) => TaskKeepsInv(w, R.Pass(now), maxConids, coolDown);
  }

  /** As long as no request names a contract id twice, under every interleaving: there are never more
    * than `maxConids` subscriptions; each one's consumers are exactly the live iterators that list it,
    * and it is the registered one; and of every contract id a consumer listens to, its shared queue
    * holds consecutive event ids ending at that contract's newest.
    */
  lemma {:induction false} QuotesReachTheirConsumers(start: int, steps: seq<Step>, maxConids: nat, coolDown: nat)
    requires LegalRun(start, steps, maxConids, coolDown) && NoRepeats(steps)
    ensures var w := Run(start, steps, maxConids, coolDown);
            && Inv(w, maxConids)
            && |w.reg.registry| <= maxConids
            && Counted(w)
            && (forall c, s :: c in w.iterators && s in w.iterators[c] ==> R.Registered(w.reg, s))
            && Fed(w) && Tagged(w.reg)
  {
    var w := Run(start, steps, maxConids, coolDown);
    if steps != [] {
      var last := |steps| - 1;
      QuotesReachTheirConsumers(start, steps[..last], maxConids, coolDown);
      StepKeepsInv(Run(start, steps[..last], maxConids, coolDown), steps[last], maxConids, coolDown);
    }
    forall c, s | c in w.iterators && s in w.iterators[c]
      ensures R.Registered(w.reg, s)
    {
      assert ListsOnce(w.reg, w.iterators[c]);
      assert c in w.reg.subs[s].consumers;
    }
  }

  // `w` is reached by `steps`.
  ghost predicate Reaches(steps: seq<Step>, w: World) {
    LegalRun(0, steps, 250, 5) && Run(0, steps, 250, 5) == w
  }

  lemma {:induction false} ReachesNext(steps: seq<Step>, v: World, e: Step, w: World)
    requires Reaches(steps, v) && Legal(v, e) && Advance(v, e, 250, 5) == w
    ensures Reaches(steps + [e], w)
  {
    assert (steps + [e])[..|steps|] == steps;
  }

  // ---- What a repeated contract id does ----

  // Two of the listed subscriptions are one and the same, and the consumer is the only one it has.
  ghost predicate LeavesTwice(reg: Registry, slots: seq<nat>, consumer: string) {
    exists i, j :: 0 <= i < j < |slots| && slots[i] == slots[j] && slots[j] < |reg.subs|
                   && reg.subs[slots[j]].consumers == {consumer}
  }

  ghost predicate ListsItself(reg: Registry, slots: seq<nat>, consumer: string) {
    forall i :: 0 <= i < |slots| ==> slots[i] < |reg.subs| && consumer in reg.subs[slots[i]].consumers
  }

  // A cool-down that its subscription does not know and therefore cannot cancel.
  ghost predicate Stale(reg: Registry, t: nat) {
    R.Live(reg, t) && reg.tasks[t].owner < |reg.subs| && reg.subs[reg.tasks[t].owner].coolDown != Some(t)
  }

  lemma {:induction false} StaleStays(reg: Registry, s: nat, consumer: string, coolDown: nat, t: nat)
    requires Stale(reg, t)
    ensures Stale(R.Advance(reg, R.Detach(s, consumer), coolDown), t)
  {
  }

  // Nothing happens to a subscription that the consumer left before, as long as others listen to it.
  lemma {:induction false} LeavingAgain(reg: Registry, s: nat, consumer: string, coolDown: nat)
    requires s < |reg.subs| && consumer !in reg.subs[s].consumers && reg.subs[s].consumers != {}
    ensures R.Advance(reg, R.Detach(s, consumer), coolDown) == reg
  {
    assert reg.subs[s].consumers - {consumer} == reg.subs[s].consumers;
    assert reg.subs[s := reg.subs[s]] == reg.subs;
  }

  // Leaving an idle subscription again leaves its first cool-down behind.
  lemma {:induction false} LeavingIdle(reg: Registry, s: nat, consumer: string, coolDown: nat)
    requires R.Inv(reg) && R.Registered(reg, s) && reg.subs[s].consumers == {}
    ensures Stale(R.Advance(reg, R.Detach(s, consumer), coolDown), reg.subs[s].coolDown.value)
  {
    assert R.Cooling(reg, s);
    assert reg.subs[s].consumers - {consumer} == {};
  }

  // What detaching from listed subscriptions, repeated or not, has done so far.
  ghost predicate Leaving(before: Registry, after: Registry, slots: seq<nat>, consumer: string) {
    && |after.subs| == |before.subs| && after.registry == before.registry
    && (forall s: nat :: s < |after.subs| ==>
          after.subs[s].key == before.subs[s].key &&
          after.subs[s].consumers == before.subs[s].consumers - if s in slots then {consumer} else {})
  }

  lemma {:induction false} LeavingOne(before: Registry, v: Registry, slots: seq<nat>, n: nat, consumer: string, coolDown: nat)
    requires n == |slots| - 1 && Leaving(before, v, slots[..n], consumer)
    ensures Leaving(before, R.Advance(v, R.Detach(slots[n], consumer), coolDown), slots, consumer)
  {
    assert slots == slots[..n] + [slots[n]];
  }

  // The last step of a close, told by whether its subscription was listed before.
  lemma {:induction false} LastLeave(before: Registry, v: Registry, slots: seq<nat>, n: nat, consumer: string, coolDown: nat)
    requires R.Inv(before) && R.Inv(v) && n == |slots| - 1 && Leaving(before, v, slots[..n], consumer)
    requires ListsItself(before, slots, consumer)
    ensures var u := R.Advance(v, R.Detach(slots[n], consumer), coolDown);
            if slots[n] in slots[..n] && before.subs[slots[n]].consumers == {consumer} then exists t: nat :: Stale(u, t)
            else R.Inv(u)
  {
    var s := slots[n];
    assert R.Registered(before, s) && R.Registered(v, s);
    if s !in slots[..n] {
      R.DetachKeepsInv(v, s, consumer, coolDown);
    } else if before.subs[s].consumers == {consumer} {
      LeavingIdle(v, s, consumer, coolDown);
    } else {
      var other :| other in before.subs[s].consumers && other != consumer;
      assert other in v.subs[s].consumers;
      LeavingAgain(v, s, consumer, coolDown);
    }
  }

  lemma {:induction false} RepeatsOneMore(reg: Registry, slots: seq<nat>, n: nat, consumer: string)
    requires n == |slots| - 1 && ListsItself(reg, slots, consumer)
    ensures LeavesTwice(reg, slots, consumer) <==>
            LeavesTwice(reg, slots[..n], consumer) ||
            (slots[n] in slots[..n] && reg.subs[slots[n]].consumers == {consumer})
  {
    if LeavesTwice(reg, slots, consumer) {
      var i, j :| 0 <= i < j < |slots| && slots[i] == slots[j] && reg.subs[slots[j]].consumers == {consumer};
      assert slots[..n][i] == slots[i];
      if j < n { assert slots[..n][j] == slots[j]; }
    }
    if slots[n] in slots[..n] && reg.subs[slots[n]].consumers == {consumer} {
      var i :| 0 <= i < n && slots[..n][i] == slots[n];
      assert slots[i] == slots[n];
    }
    if LeavesTwice(reg, slots[..n], consumer) {
      var i, j :| 0 <= i < j < n && slots[..n][i] == slots[..n][j] && reg.subs[slots[..n][j]].consumers == {consumer};
      assert slots[i] == slots[j];
    }
  }

  lemma {:induction false} CloseLeaves(reg: Registry, slots: seq<nat>, consumer: string, coolDown: nat)
    requires R.Inv(reg) && ListsItself(reg, slots, consumer)
    ensures var v := DetachAll(reg, slots, consumer, coolDown);
            && Leaving(reg, v, slots, consumer)
            && (if LeavesTwice(reg, slots, consumer) then exists t: nat :: Stale(v, t) else R.Inv(v))
  {
    if slots != [] {
      var n := |slots| - 1;
      var v := DetachAll(reg, slots[..n], consumer, coolDown);
      CloseLeaves(reg, slots[..n], consumer, coolDown);
      LeavingOne(reg, v, slots, n, consumer, coolDown);
      RepeatsOneMore(reg, slots, n, consumer);
      if LeavesTwice(reg, slots[..n], consumer) {
        var t: nat :| Stale(v, t);
        StaleStays(v, slots[n], consumer, coolDown, t);
      } else {
        LastLeave(reg, v, slots, n, consumer, coolDown);
      }
    }
  }

  /** Closing an iterator keeps the protocol of cool-downs exactly unless it lists a subscription twice
    * of which its consumer is the only one.
    */
  lemma {:induction false} CloseKeepsProtocolExactlyWhen(w: World, consumer: string, maxConids: nat, coolDown: nat)
    requires R.Inv(w.reg) && Counted(w) && consumer in w.iterators
    requires forall i :: 0 <= i < |w.iterators[consumer]| ==> w.iterators[consumer][i] < |w.reg.subs|
    ensures R.Inv(Advance(w, Close(consumer), maxConids, coolDown).reg) <==>
            !LeavesTwice(w.reg, w.iterators[consumer], consumer)
  {
    var slots := w.iterators[consumer];
    CloseLeaves(w.reg, slots, consumer, coolDown);
    var v := DetachAll(w.reg, slots, consumer, coolDown);
    if LeavesTwice(w.reg, slots, consumer) {
      var t: nat :| Stale(v, t);
      assert R.Live(v, t) && !R.Known(v, t);
    }
  }

  // ---- Whole runs with repeats ----

  // What does not depend on requests without repeats.
  ghost predicate Core(w: World) {
    R.Inv(w.reg) && Counted(w) && forall c :: c in w.iterators ==> Within(w.reg, w.iterators[c])
  }

  lemma {:induction false} SubscribeKeepsCore(w: World, conids: seq<int>, consumer: string, maxConids: nat, coolDown: nat)
    requires Core(w) && consumer !in w.iterators
    ensures Core(Advance(w, Subscribe(conids, consumer), maxConids, coolDown))
  {
    if !Refused(w.reg, conids, maxConids) {
      var after := AttachAll(w.reg, conids, consumer);
      AttachAllKeepsInv(w.reg, conids, consumer);
      AttachAllAttaches(w.reg, conids, consumer);
      SlotsAreWithin(after, conids);
      SubscribeCounts(w, after, conids, consumer, Slots(after, conids));
      forall c | c in w.iterators
        ensures Within(after, w.iterators[c])
      {
        assert Within(w.reg, w.iterators[c]);
      }
    }
  }

  lemma {:induction false} LeaversAreCounted(w: World, after: Registry, consumer: string)
    requires Counted(w) && consumer in w.iterators && Leaving(w.reg, after, w.iterators[consumer], consumer)
    ensures Counted(World(after, w.iterators - {consumer}, w.queues - {consumer}))
  {
  }

  // A close keeps everything exactly if it keeps the protocol.
  lemma {:induction false} CloseKeepsCore(w: World, consumer: string, maxConids: nat, coolDown: nat)
    requires Core(w) && consumer in w.iterators
    ensures var v := Advance(w, Close(consumer), maxConids, coolDown);
            if LeavesTwice(w.reg, w.iterators[consumer], consumer) then !R.Inv(v.reg) else Core(v)
  {
    assert Within(w.reg, w.iterators[consumer]);
    CloseKeepsProtocolExactlyWhen(w, consumer, maxConids, coolDown);
    CloseLeaves(w.reg, w.iterators[consumer], consumer, coolDown);
    LeaversAreCounted(w, DetachAll(w.reg, w.iterators[consumer], consumer, coolDown), consumer);
  }

  lemma {:induction false} SameSubsKeepCore(w: World, reg: Registry, queues: map<string, seq<StreamEvent>>)
    requires Core(w) && R.Inv(reg) && |reg.subs| == |w.reg.subs|
    requires forall s: nat :: s < |reg.subs| ==> reg.subs[s].consumers == w.reg.subs[s].consumers
    ensures Core(World(reg, w.iterators, queues))
  {
    forall c | c in w.iterators
      ensures Within(reg, w.iterators[c])
    {
      assert Within(w.reg, w.iterators[c]);
    }
  }

  lemma {:induction false} TaskKeepsCore(w: World, e: R.Step<int, StreamEvent>, coolDown: nat)
    requires Core(w) && R.Legal(w.reg, e) && (e.Wake? || e.Teardown? || e.Pass?)
    ensures Core(w.(reg := R.Advance(w.reg, e, coolDown)))
  {
    R.OtherStepKeepsInv(w.reg, e, coolDown);
    TaskStepKeepsSubs(w.reg, e, coolDown);
    SameSubsKeepCore(w, R.Advance(w.reg, e, coolDown), w.queues);
  }

  lemma {:induction false} PublishKeepsCore(w: World, conid: int, quote: Quote, maxConids: nat, coolDown: nat)
    requires Core(w)
    ensures Core(Advance(w, Publish(conid, quote), maxConids, coolDown))
  {
    var v := Advance(w, Publish(conid, quote), maxConids, coolDown);
    if conid in w.reg.registry && w.reg.registry[conid] < |w.reg.subs| {
      var event := StreamEvent(|w.reg.subs[w.reg.registry[conid]].log|, quote.conid, quote);
      R.OtherStepKeepsInv(w.reg, R.Publish(conid, event), coolDown);
      SameSubsKeepCore(w, R.Advance(w.reg, R.Publish(conid, event), coolDown), v.queues);
    }
  }

  // A close that leaves a subscription twice of which its consumer is the only one.
  ghost predicate Breaks(w: World, e: Step) {
    e.Close? && e.consumer in w.iterators && LeavesTwice(w.reg, w.iterators[e.consumer], e.consumer)
  }

  lemma {:induction false} StepKeepsCore(w: World, e: Step, maxConids: nat, coolDown: nat)
    requires Core(w) && Legal(w, e)
    ensures var v := Advance(w, e, maxConids, coolDown);
            if Breaks(w, e) then !R.Inv(v.reg) else Core(v)
  {
    match e
    case Subscribe(conids, consumer) => SubscribeKeepsCore(w, conids, consumer, maxConids, coolDown);
    case Close(consumer) => if consumer in w.iterators { CloseKeepsCore(w, consumer, maxConids, coolDown); }
    case Take(consumer) => SameSubsKeepCore(w, w.reg, Advance(w, e, maxConids, coolDown).queues);
    case Publish(conid, quote) => PublishKeepsCore(w, conid, quote, maxConids, coolDown);
    case Wake(t) => TaskKeepsCore(w, R.Wake(t), coolDown);
    case Teardown(t) => TaskKeepsCore(w, R.Teardown(t, false), coolDown);
    case Pass(now) => TaskKeepsCore(w, R.Pass(now), coolDown);
  }

  ghost predicate ProtocolAlwaysHolds(start: int, steps: seq<Step>, maxConids: nat, coolDown: nat) {
    R.Inv(Run(start, steps, maxConids, coolDown).reg) &&
    (steps != [] ==> ProtocolAlwaysHolds(start, steps[..|steps| - 1], maxConids, coolDown))
  }

  ghost predicate NothingBreaks(start: int, steps: seq<Step>, maxConids: nat, coolDown: nat) {
    steps != [] ==>
      NothingBreaks(start, steps[..|steps| - 1], maxConids, coolDown) &&
      !Breaks(Run(start, steps[..|steps| - 1], maxConids, coolDown), steps[|steps| - 1])
  }

  /** Over any run, repeats or not: the cool-down protocol holds throughout exactly if no iterator is
    * closed that lists a subscription twice of which its consumer is the only one; and as long as it
    * holds, each subscription's consumers are the live iterators that list it.
    */
  lemma {:induction false} ProtocolHoldsExactlyWhen(start: int, steps: seq<Step>, maxConids: nat, coolDown: nat)
    requires LegalRun(start, steps, maxConids, coolDown)
    ensures ProtocolAlwaysHolds(start, steps, maxConids, coolDown) <==> NothingBreaks(start, steps, maxConids, coolDown)
    ensures ProtocolAlwaysHolds(start, steps, maxConids, coolDown) ==> Core(Run(start, steps, maxConids, coolDown))
  {
    if steps != [] {
      var last := |steps| - 1;
      ProtocolHoldsExactlyWhen(start, steps[..last], maxConids, coolDown);
      if ProtocolAlwaysHolds(start, steps[..last], maxConids, coolDown) {
        StepKeepsCore(Run(start, steps[..last], maxConids, coolDown), steps[last], maxConids, coolDown);
      }
    }
  }

  // ---- How that starves another consumer ----

  function RequestTwice(): seq<Step> {
    [] + [Subscribe([7, 7], "a")] + [Close("a")] + [Pass(1)] + [Subscribe([7, 7], "b")]
  }

  function AndAgain(): seq<Step> {
    RequestTwice() + [Pass(2)] + [Close("b")] + [Pass(5)] + [Wake(0)] + [Teardown(0)]
  }

  function ThenAnother(): seq<Step> {
    AndAgain() + [Pass(6)] + [Subscribe([7], "c")]
  }

  function ThenStale(quote: Quote): seq<Step> {
    ThenAnother() + [Pass(7)] + [Wake(2)] + [Teardown(2)] + [Publish(7, quote)]
  }

  function Slot(consumers: set<string>, coolDown: Option<nat>): R.Sub<int, StreamEvent> {
    R.Sub(7, consumers, coolDown, [])
  }

  function Cool(phase: R.Phase): R.Task {
    R.Task(0, phase)
  }

  function HeldByA(): Registry { R.World(map[7 := 0], [Slot({"a"}, None)], [], 0) }

  // Two cool-downs, of which the subscription knows only the second.
  function LeftByA(now: int): Registry {
    R.World(map[7 := 0], [Slot({}, Some(1))], [Cool(R.Sleeping(5)), Cool(R.Sleeping(5))], now)
  }

  function HeldByB(now: int): Registry {
    R.World(map[7 := 0], [Slot({"b"}, None)], [Cool(R.Sleeping(5)), Cool(R.Ended)], now)
  }

  function LeftByB(first: R.Phase, now: int): Registry {
    R.World(map[7 := 0], [Slot({}, Some(3))], [Cool(first), Cool(R.Ended), Cool(R.Sleeping(7)), Cool(R.Sleeping(7))], now)
  }

  // The teardown cancelled the cool-down that was known, but not the other one.
  function TakenEarly(now: int): Registry {
    R.World(map[], [Slot({}, None)], [Cool(R.Ended), Cool(R.Ended), Cool(R.Sleeping(7)), Cool(R.Ended)], now)
  }

  function HeldByC(stale: R.Phase, now: int): Registry {
    R.World(map[7 := 1], [Slot({}, None), Slot({"c"}, None)],
            [Cool(R.Ended), Cool(R.Ended), Cool(stale), Cool(R.Ended)], now)
  }

  function Starved(now: int): Registry {
    R.World(map[], [Slot({}, None), Slot({"c"}, None)],
            [Cool(R.Ended), Cool(R.Ended), Cool(R.Ended), Cool(R.Ended)], now)
  }

  lemma {:induction false} OneConid(reg: Registry, consumer: string)
    ensures AttachAll(reg, [7], consumer) == R.Advance(reg, R.Attach(7, consumer), 0)
    ensures Unknown(reg, [7]) == if 7 in reg.registry then [] else [7]
    ensures Slots(reg, [7]) == if 7 in reg.registry then [reg.registry[7]] else []
  {
    assert [7][..0] == [] && [7][1..] == [];
  }

  lemma {:induction false} TwoConids(reg: Registry, consumer: string)
    ensures AttachAll(reg, [7, 7], consumer) ==
            R.Advance(R.Advance(reg, R.Attach(7, consumer), 0), R.Attach(7, consumer), 0)
    ensures Unknown(reg, [7, 7]) == if 7 in reg.registry then [] else [7, 7]
    ensures Slots(reg, [7, 7]) == if 7 in reg.registry then [reg.registry[7], reg.registry[7]] else []
  {
    OneConid(reg, consumer);
    assert [7, 7][..1] == [7] && [7, 7][1..] == [7];
  }

  // Detaching twice from a subscription that has no other consumer.
  lemma {:induction false} TwoSlots(reg: Registry, consumer: string, coolDown: nat)
    ensures DetachAll(reg, [0, 0], consumer, coolDown) ==
            R.Advance(R.Advance(reg, R.Detach(0, consumer), coolDown), R.Detach(0, consumer), coolDown)
  {
    assert [0][..0] == [] && [0, 0][..1] == [0];
    assert DetachAll(reg, [0], consumer, coolDown) == R.Advance(reg, R.Detach(0, consumer), coolDown);
  }

  lemma {:induction false} FirstJoins()
    ensures R.Advance(R.Empty(0), R.Attach(7, "a"), 0) == HeldByA()
    ensures R.Advance(HeldByA(), R.Attach(7, "a"), 0) == HeldByA()
  {
    var once: Registry := R.Advance(R.Empty(0), R.Attach(7, "a"), 0);
    assert once.subs[0].consumers == {"a"};
    var again := R.Joined(HeldByA(), 0, "a");
    assert again.subs[0].consumers == {"a"};
  }

  lemma {:induction false} FirstRequest()
    ensures Advance(Empty(0), Subscribe([7, 7], "a"), 250, 5) == World(HeldByA(), map["a" := [0, 0]], map["a" := []])
  {
    FirstJoins();
    TwoConids(R.Empty(0), "a");
    TwoConids(HeldByA(), "a");
  }

  lemma {:induction false} FirstClose()
    ensures Advance(World(HeldByA(), map["a" := [0, 0]], map["a" := []]), Close("a"), 250, 5) == World(LeftByA(0), map[], map[])
  {
    var once: Registry := R.World(map[7 := 0], [Slot({}, Some(0))], [Cool(R.Sleeping(5))], 0);
    TwoSlots(HeldByA(), "a", 5);
    assert R.Advance(HeldByA(), R.Detach(0, "a"), 5) == once;
    assert R.Advance(once, R.Detach(0, "a"), 5) == LeftByA(0);
    assert map["a" := [0, 0]] - {"a"} == map[];
  }

  lemma {:induction false} SecondRequest()
    ensures Advance(World(LeftByA(1), map[], map[]), Subscribe([7, 7], "b"), 250, 5)
            == World(HeldByB(1), map["b" := [0, 0]], map["b" := []])
  {
    TwoConids(LeftByA(1), "b");
    TwoConids(HeldByB(1), "b");
    var once := R.Joined(LeftByA(1), 0, "b");
    assert once.subs[0].consumers == {"b"};
    assert once == HeldByB(1);
    var again := R.Joined(HeldByB(1), 0, "b");
    assert again.subs[0].consumers == {"b"};
    assert again == HeldByB(1);
  }

  lemma {:induction false} SecondClose()
    ensures Advance(World(HeldByB(2), map["b" := [0, 0]], map["b" := []]), Close("b"), 250, 5)
            == World(LeftByB(R.Sleeping(5), 2), map[], map[])
  {
    var once: Registry := R.World(map[7 := 0], [Slot({}, Some(2))],
                                  [Cool(R.Sleeping(5)), Cool(R.Ended), Cool(R.Sleeping(7))], 2);
    TwoSlots(HeldByB(2), "b", 5);
    assert R.Advance(HeldByB(2), R.Detach(0, "b"), 5) == once;
    assert R.Advance(once, R.Detach(0, "b"), 5) == LeftByB(R.Sleeping(5), 2);
    assert map["b" := [0, 0]] - {"b"} == map[];
  }

  lemma {:induction false} EarlyTeardown()
    ensures R.Advance(LeftByB(R.AtLock, 5), R.Teardown(0, false), 5) == TakenEarly(5)
  {
    assert LeftByB(R.AtLock, 5).registry - {7} == map[];
  }

  lemma {:induction false} ThirdRequest()
    ensures Advance(World(TakenEarly(6), map[], map[]), Subscribe([7], "c"), 250, 5)
            == World(HeldByC(R.Sleeping(7), 6), map["c" := [1]], map["c" := []])
  {
    OneConid(TakenEarly(6), "c");
    OneConid(HeldByC(R.Sleeping(7), 6), "c");
  }

  lemma {:induction false} StaleTeardown()
    ensures R.Advance(HeldByC(R.AtLock, 7), R.Teardown(2, false), 5) == Starved(7)
  {
    assert HeldByC(R.AtLock, 7).registry - {7} == map[];
  }

  lemma {:induction false} UntilHeldByB()
    ensures Reaches(RequestTwice(), World(HeldByB(1), map["b" := [0, 0]], map["b" := []]))
  {
    var s0: seq<Step> := [];
    var s1 := s0 + [Subscribe([7, 7], "a")];
    var s2 := s1 + [Close("a")];
    var s3 := s2 + [Pass(1)];
    var w1 := World(HeldByA(), map["a" := [0, 0]], map["a" := []]);
    FirstRequest();
    ReachesNext(s0, Empty(0), Subscribe([7, 7], "a"), w1);
    FirstClose();
    ReachesNext(s1, w1, Close("a"), World(LeftByA(0), map[], map[]));
    ReachesNext(s2, World(LeftByA(0), map[], map[]), Pass(1), World(LeftByA(1), map[], map[]));
    SecondRequest();
    ReachesNext(s3, World(LeftByA(1), map[], map[]), Subscribe([7, 7], "b"),
                World(HeldByB(1), map["b" := [0, 0]], map["b" := []]));
  }

  lemma {:induction false} UntilLeftByB()
    ensures Reaches(RequestTwice() + [Pass(2)] + [Close("b")], World(LeftByB(R.Sleeping(5), 2), map[], map[]))
  {
    var w := World(HeldByB(2), map["b" := [0, 0]], map["b" := []]);
    UntilHeldByB();
    ReachesNext(RequestTwice(), World(HeldByB(1), map["b" := [0, 0]], map["b" := []]), Pass(2), w);
    SecondClose();
    ReachesNext(RequestTwice() + [Pass(2)], w, Close("b"), World(LeftByB(R.Sleeping(5), 2), map[], map[]));
  }

  lemma {:induction false} FirstWake()
    ensures R.Advance(LeftByB(R.Sleeping(5), 5), R.Wake(0), 5) == LeftByB(R.AtLock, 5)
  {
  }

  lemma {:induction false} UntilTakenEarly()
    ensures Reaches(AndAgain(), World(TakenEarly(5), map[], map[]))
  {
    var s0 := RequestTwice() + [Pass(2)] + [Close("b")];
    var s1 := s0 + [Pass(5)];
    var w0, w1 := World(LeftByB(R.Sleeping(5), 2), map[], map[]), World(LeftByB(R.Sleeping(5), 5), map[], map[]);
    UntilLeftByB();
    ReachesNext(s0, w0, Pass(5), w1);
    FirstWake();
    ReachesNext(s1, w1, Wake(0), World(LeftByB(R.AtLock, 5), map[], map[]));
    EarlyTeardown();
    ReachesNext(s1 + [Wake(0)], World(LeftByB(R.AtLock, 5), map[], map[]), Teardown(0), World(TakenEarly(5), map[], map[]));
  }

  lemma {:induction false} UntilHeldByC()
    ensures Reaches(ThenAnother(), World(HeldByC(R.Sleeping(7), 6), map["c" := [1]], map["c" := []]))
  {
    UntilTakenEarly();
    ReachesNext(AndAgain(), World(TakenEarly(5), map[], map[]), Pass(6), World(TakenEarly(6), map[], map[]));
    ThirdRequest();
    ReachesNext(AndAgain() + [Pass(6)], World(TakenEarly(6), map[], map[]), Subscribe([7], "c"),
                World(HeldByC(R.Sleeping(7), 6), map["c" := [1]], map["c" := []]));
  }

  /** A request that names a contract id twice is detached twice and leaves a cool-down behind that
    * nobody can cancel. If another such request comes and goes before that one ends, the first stale
    * cool-down takes the subscription away early, and the second one later takes away the successor
    * while a consumer listens to it; from then on that consumer gets nothing.
    */
  lemma {:induction false} RepeatedConidStarvesAnother(quote: Quote)
    requires quote.conid == 7
    ensures var w := Run(0, ThenStale(quote), 250, 5);
            LegalRun(0, ThenStale(quote), 250, 5) &&
            w.iterators == map["c" := [1]] && 7 !in w.reg.registry && w.queues == map["c" := []]
  {
    var s0 := ThenAnother();
    var s1 := s0 + [Pass(7)];
    var s2 := s1 + [Wake(2)];
    var s3 := s2 + [Teardown(2)];
    var w := World(HeldByC(R.Sleeping(7), 6), map["c" := [1]], map["c" := []]);
    var v := w.(reg := Starved(7));
    UntilHeldByC();
    ReachesNext(s0, w, Pass(7), w.(reg := HeldByC(R.Sleeping(7), 7)));
    ReachesNext(s1, w.(reg := HeldByC(R.Sleeping(7), 7)), Wake(2), w.(reg := HeldByC(R.AtLock, 7)));
    StaleTeardown();
    ReachesNext(s2, w.(reg := HeldByC(R.AtLock, 7)), Teardown(2), v);
    ReachesNext(s3, v, Publish(7, quote), v);
  }
}
