/** The client ids of the TWS API: a pool and the clients that share it (tws/client.py:47-92, 174-210). */
module ClientIds {
  import opened Options

  class ClientIdPool {
    const low: int
    const high: int
    var queue: seq<int>

    constructor (low: int, high: int)
      requires 0 < low <= high
      ensures this.low == low && this.high == high && queue == Range(low, high)
    {
      this.low, this.high := low, high;
      var ids: seq<int> := [];
      for id := low to high + 1
        invariant ids == Range(low, id - 1)
      {
        ids := ids + [id];
      }
      queue := ids;
    }

    method Acquire() returns (id: int)
      requires queue != []
      modifies this
      ensures [id] + queue == old(queue)
    {
      id := queue[0];
      queue := queue[1..];
    }

    // False stands for the ValueError on an id that cannot be the pool's.
    method Release(id: int) returns (ok: bool)
      modifies this
      ensures ok <==> low <= id <= high
      ensures queue == if ok then old(queue) + [id] else old(queue)
    {
      if !(low <= id <= high) { return false; }
      queue := queue + [id];
      ok := true;
    }
  }

  // connect() is split at its two awaits: on the pool and on the socket.
  class TWSClient {
    const pool: ClientIdPool
    var clientId: Option<int>

    constructor (pool: ClientIdPool)
      ensures this.pool == pool && clientId == None
    {
      this.pool, clientId := pool, None;
    }

    // Up to the await on the pool; `connected` is what the socket says.
    method BeginConnect(connected: bool) returns (wantsId: bool)
      requires clientId.Some? ==> pool.low <= clientId.value <= pool.high
      modifies this, pool
      ensures wantsId <==> !(old(clientId).Some? && connected)
      ensures clientId == if wantsId then None else old(clientId)
      ensures pool.queue == old(pool.queue) + if wantsId then Held(old(clientId)) else []
    {
      if clientId.Some? && connected { return false; }
      if clientId.Some? {
        Disconnect();
      }
      wantsId := true;
    }

    // After the await on the socket.
    method EndConnect(id: int, accepted: bool)
      requires pool.low <= id <= pool.high
      modifies this, pool
      ensures clientId == if accepted then Some(id) else old(clientId)
      ensures pool.queue == old(pool.queue) + if accepted then [] else [id]
    {
      if !accepted {
        var _ := pool.Release(id);
        return;
      }
      clientId := Some(id);
    }

    method Disconnect()
      requires clientId.Some? ==> pool.low <= clientId.value <= pool.high
      modifies this, pool
      ensures clientId == None
      ensures pool.queue == old(pool.queue) + Held(old(clientId))
    {
      if clientId.Some? {
        var _ := pool.Release(clientId.value);
        clientId := None;
      }
    }
  }

  function Range(low: int, high: int): (ids: seq<int>)
    decreases high - low
  {
    if high < low then [] else Range(low, high - 1) + [high]
  }

  function Held(id: Option<int>): seq<int> {
    match id case None => [] case Some(value) => [value]
  }

  // ---- Any number of clients, in any order ----

  // `waiting` counts its connects that wait for the pool, `inFlight` holds the ids of those that
  // wait for the socket.
  datatype Client = Client(held: Option<int>, waiting: nat, inFlight: seq<int>)

  datatype Event =
    | Begin(client: nat, connected: bool)
    | Acquire(client: nat)
    | Accepted(client: nat, call: nat)
    | Failed(client: nat, call: nat)
    | Disconnect(client: nat)

  // `lost` holds the ids that were overwritten while they were still reserved.
  datatype World = World(pool: seq<int>, clients: seq<Client>, lost: seq<int>)

  ghost predicate Legal(w: World, e: Event) {
    && e.client < |w.clients|
    && (e.Acquire? ==> w.pool != [] && w.clients[e.client].waiting > 0)
    && (e.Accepted? || e.Failed? ==> e.call < |w.clients[e.client].inFlight|)
  }

  // A client runs one call at a time.
  ghost predicate Serial(w: World, e: Event)
    requires Legal(w, e)
  {
    e.Begin? || e.Disconnect? ==> w.clients[e.client].waiting == 0 && w.clients[e.client].inFlight == []
  }

  function Without(s: seq<int>, i: nat): seq<int>
    requires i < |s|
  {
    s[..i] + s[i + 1..]
  }

  ghost function Advance(w: World, e: Event): World
    requires Legal(w, e)
  {
    var c := w.clients[e.client];
    match e
    case Begin(i, connected) =>
      if c.held.Some? && connected then w
      else World(w.pool + Held(c.held), w.clients[i := Client(None, c.waiting + 1, c.inFlight)], w.lost)
    case Acquire(i) =>
      World(w.pool[1..], w.clients[i := Client(c.held, c.waiting - 1, c.inFlight + [w.pool[0]])], w.lost)
    case Accepted(i, k) =>
      World(w.pool, w.clients[i := Client(Some(c.inFlight[k]), c.waiting, Without(c.inFlight, k))],
            w.lost + Held(c.held))
    case Failed(i, k) =>
      World(w.pool + [c.inFlight[k]], w.clients[i := Client(c.held, c.waiting, Without(c.inFlight, k))], w.lost)
    case Disconnect(i) =>
      World(w.pool + Held(c.held), w.clients[i := Client(None, c.waiting, c.inFlight)], w.lost)
  }

  ghost predicate LegalRun(w: World, es: seq<Event>, serial: bool)
    decreases |es|
  {
    es != [] ==> Legal(w, es[0]) && (serial ==> Serial(w, es[0])) && LegalRun(Advance(w, es[0]), es[1..], serial)
  }

  ghost function Run(w: World, es: seq<Event>): World
    requires LegalRun(w, es, false)
    decreases |es|
  {
    if es == [] then w else Run(Advance(w, es[0]), es[1..])
  }

  const IDLE := Client(None, 0, [])

  ghost function Start(low: int, high: int, n: nat): World {
    World(Range(low, high), seq(n, _ => IDLE), [])
  }

  // ---- The objects are what the runs are about ----

  ghost predicate Represents(pool: ClientIdPool, clients: seq<TWSClient>, w: World)
    reads pool, clients
  {
    && pool.queue == w.pool && |clients| == |w.clients|
    && (forall i :: 0 <= i < |clients| ==> clients[i].pool == pool && clients[i].clientId == w.clients[i].held)
    && (forall i, j :: 0 <= i < j < |clients| ==> clients[i] != clients[j])
  }

  ghost predicate InRange(c: Client, low: int, high: int) {
    forall id :: id in Owned(c) ==> low <= id <= high
  }

  // One event on the objects takes their world one step further; `id` is the id that the call waiting
  // for its socket drew from the pool.
  method Perform(pool: ClientIdPool, clients: seq<TWSClient>, ghost w: World, e: Event, id: int)
    requires Represents(pool, clients, w) && Legal(w, e) && InRange(w.clients[e.client], pool.low, pool.high)
    requires e.Accepted? || e.Failed? ==> id == w.clients[e.client].inFlight[e.call]
    modifies pool, clients
    ensures Represents(pool, clients, Advance(w, e))
  {
    ghost var c := w.clients[e.client];
    if c.held.Some? { assert c.held.value in Owned(c); }
    match e
    case Begin(i, connected) =>
      var _ := clients[i].BeginConnect(connected);
    case Acquire(i) =>
      var _ := pool.Acquire();
    case Accepted(i, k) =>
      assert id in Owned(c);
      clients[i].EndConnect(id, true);
    case Failed(i, k) =>
      assert id in Owned(c);
      clients[i].EndConnect(id, false);
    case Disconnect(i) =>
      clients[i].Disconnect();
  }

  // ---- Conservation ----

  function Owned(c: Client): seq<int> {
    Held(c.held) + c.inFlight
  }

  // How often an id occurs.
  function Occurs(s: seq<int>, id: int): nat {
    if s == [] then 0 else (if s[0] == id then 1 else 0) + Occurs(s[1..], id)
  }

  function UsedBy(clients: seq<Client>, id: int): nat {
    if clients == [] then 0
    else UsedBy(clients[..|clients| - 1], id) + Occurs(Owned(clients[|clients| - 1]), id)
  }

  ghost function Everywhere(w: World, id: int): nat {
    Occurs(w.pool, id) + UsedBy(w.clients, id) + Occurs(w.lost, id)
  }

  lemma {:induction false} OccursConcat(s: seq<int>, t: seq<int>, id: int)
    ensures Occurs(s + t, id) == Occurs(s, id) + Occurs(t, id)
  {
    if s == [] {
      assert s + t == t;
    } else {
      assert (s + t)[1..] == s[1..] + t;
      OccursConcat(s[1..], t, id);
    }
  }

  lemma {:induction false} OccursIfMember(s: seq<int>, id: int)
    ensures id in s <==> Occurs(s, id) >= 1
  {
    if s != [] { OccursIfMember(s[1..], id); }
  }

  lemma OccursWithout(s: seq<int>, i: nat, id: int)
    requires i < |s|
    ensures Occurs(Without(s, i), id) + Occurs([s[i]], id) == Occurs(s, id)
  {
    assert s == s[..i] + ([s[i]] + s[i + 1..]);
    OccursConcat(s[..i], [s[i]] + s[i + 1..], id);
    OccursConcat([s[i]], s[i + 1..], id);
    OccursConcat(s[..i], s[i + 1..], id);
  }

  lemma {:induction false} UseUpdate(clients: seq<Client>, i: nat, c: Client, id: int)
    requires i < |clients|
    ensures UsedBy(clients[i := c], id) + Occurs(Owned(clients[i]), id)
            == UsedBy(clients, id) + Occurs(Owned(c), id)
  {
    var n := |clients| - 1;
    if i < n {
      UseUpdate(clients[..n], i, c, id);
      assert clients[i := c][..n] == clients[..n][i := c];
    } else {
      assert clients[i := c][..n] == clients[..n];
    }
  }

  lemma StepConserves(w: World, e: Event, id: int)
    requires Legal(w, e)
    ensures Everywhere(Advance(w, e), id) == Everywhere(w, id)
  {
    var v := Advance(w, e);
    assert v.clients == w.clients[e.client := v.clients[e.client]];
    UseUpdate(w.clients, e.client, v.clients[e.client], id);
    LocalConserves(w, e, v, id);
  }

  lemma LocalConserves(w: World, e: Event, v: World, id: int)
    requires Legal(w, e) && v == Advance(w, e)
    ensures Occurs(v.pool, id) + Occurs(Owned(v.clients[e.client]), id) + Occurs(v.lost, id)
            == Occurs(w.pool, id) + Occurs(Owned(w.clients[e.client]), id) + Occurs(w.lost, id)
  {
    var c := w.clients[e.client];
    OccursConcat(Held(c.held), c.inFlight, id);
    match e
    case Begin(_, _) => Moves(w.pool, c, id);
    case Disconnect(_) => Moves(w.pool, c, id);
    case Acquire(_) => Taken(w.pool, c, id);
    case Accepted(_, k) => Settled(w.lost, c, k, id);
    case Failed(_, k) => Returned(w.pool, c, k, id);
  }

  lemma Moves(pool: seq<int>, c: Client, id: int)
    ensures Occurs(pool + Held(c.held), id) == Occurs(pool, id) + Occurs(Held(c.held), id)
    ensures Held(None) + c.inFlight == c.inFlight
  {
    OccursConcat(pool, Held(c.held), id);
  }

  lemma Taken(pool: seq<int>, c: Client, id: int)
    requires pool != []
    ensures Occurs(pool[1..], id) + Occurs(Held(c.held) + (c.inFlight + [pool[0]]), id)
            == Occurs(pool, id) + Occurs(Held(c.held) + c.inFlight, id)
  {
    assert Held(c.held) + (c.inFlight + [pool[0]]) == (Held(c.held) + c.inFlight) + [pool[0]];
    OccursConcat(Held(c.held) + c.inFlight, [pool[0]], id);
  }

  lemma Settled(lost: seq<int>, c: Client, k: nat, id: int)
    requires k < |c.inFlight|
    ensures Occurs([c.inFlight[k]] + Without(c.inFlight, k), id) + Occurs(lost + Held(c.held), id)
            == Occurs(c.inFlight, id) + Occurs(Held(c.held), id) + Occurs(lost, id)
  {
    OccursConcat([c.inFlight[k]], Without(c.inFlight, k), id);
    OccursWithout(c.inFlight, k, id);
    OccursConcat(lost, Held(c.held), id);
  }

  lemma Returned(pool: seq<int>, c: Client, k: nat, id: int)
    requires k < |c.inFlight|
    ensures Occurs(pool + [c.inFlight[k]], id) + Occurs(Held(c.held) + Without(c.inFlight, k), id)
            == Occurs(pool, id) + Occurs(Held(c.held), id) + Occurs(c.inFlight, id)
  {
    OccursConcat(pool, [c.inFlight[k]], id);
    OccursConcat(Held(c.held), Without(c.inFlight, k), id);
    OccursWithout(c.inFlight, k, id);
  }

  // A serial client holds nothing while a connect of it is under way.
  ghost predicate OneThing(c: Client) {
    c.waiting + |c.inFlight| + |Held(c.held)| <= 1
  }

  ghost predicate AllSerial(w: World) {
    w.lost == [] && forall i :: 0 <= i < |w.clients| ==> OneThing(w.clients[i])
  }

  lemma StepStaysSerial(w: World, e: Event)
    requires Legal(w, e) && Serial(w, e) && AllSerial(w)
    ensures AllSerial(Advance(w, e))
  {
    assert OneThing(w.clients[e.client]);
  }

  lemma {:induction false} RunConserves(w: World, es: seq<Event>, id: int)
    requires LegalRun(w, es, false)
    ensures Everywhere(Run(w, es), id) == Everywhere(w, id)
    decreases |es|
  {
    if es != [] {
      StepConserves(w, es[0], id);
      RunConserves(Advance(w, es[0]), es[1..], id);
    }
  }

  lemma {:induction false} SerialRunIsLegal(w: World, es: seq<Event>)
    requires LegalRun(w, es, true)
    ensures LegalRun(w, es, false)
    decreases |es|
  {
    if es != [] { SerialRunIsLegal(Advance(w, es[0]), es[1..]); }
  }

  lemma {:induction false} SerialRun(w: World, es: seq<Event>)
    requires LegalRun(w, es, true) && LegalRun(w, es, false) && AllSerial(w)
    ensures AllSerial(Run(w, es))
    decreases |es|
  {
    if es != [] {
      StepStaysSerial(w, es[0]);
      SerialRun(Advance(w, es[0]), es[1..]);
    }
  }

  lemma {:induction false} NobodyUses(clients: seq<Client>, id: int)
    requires forall i :: 0 <= i < |clients| ==> clients[i] == IDLE
    ensures UsedBy(clients, id) == 0
  {
    if clients != [] { NobodyUses(clients[..|clients| - 1], id); }
  }

  lemma {:induction false} RangeOnce(low: int, high: int, id: int)
    ensures Occurs(Range(low, high), id) == if low <= id <= high then 1 else 0
    decreases high - low
  {
    if low <= high {
      RangeOnce(low, high - 1, id);
      OccursConcat(Range(low, high - 1), [high], id);
    }
  }

  // Whatever the interleaving, every id of the range is in exactly one place: in the pool, with one
  // client, or lost.
  lemma {:induction false} IdsAreConserved(low: int, high: int, n: nat, es: seq<Event>, id: int)
    requires LegalRun(Start(low, high, n), es, false)
    ensures var w := Run(Start(low, high, n), es);
            Occurs(w.pool, id) + UsedBy(w.clients, id) + Occurs(w.lost, id) == if low <= id <= high then 1 else 0
  {
    RunConserves(Start(low, high, n), es, id);
    NobodyUses(Start(low, high, n).clients, id);
    RangeOnce(low, high, id);
  }

  // If every client runs one call at a time, nothing is lost.
  lemma {:induction false} SerialClientsLoseNothing(low: int, high: int, n: nat, es: seq<Event>, id: int)
    requires LegalRun(Start(low, high, n), es, true)
    ensures LegalRun(Start(low, high, n), es, false)
    ensures var w := Run(Start(low, high, n), es);
            w.lost == [] && Occurs(w.pool, id) + UsedBy(w.clients, id) == if low <= id <= high then 1 else 0
  {
    SerialRunIsLegal(Start(low, high, n), es);
    SerialRun(Start(low, high, n), es);
    IdsAreConserved(low, high, n, es, id);
  }

  lemma {:induction false} UsedByOne(clients: seq<Client>, i: nat, id: int)
    requires i < |clients|
    ensures UsedBy(clients, id) >= Occurs(Owned(clients[i]), id)
  {
    var n := |clients| - 1;
    if i < n { UsedByOne(clients[..n], i, id); }
  }

  lemma UsedByTwo(clients: seq<Client>, i: nat, j: nat, id: int)
    requires i < |clients| && j < |clients| && i != j
    ensures UsedBy(clients, id) >= Occurs(Owned(clients[i]), id) + Occurs(Owned(clients[j]), id)
  {
    UseUpdate(clients, i, IDLE, id);
    UsedByOne(clients[i := IDLE], j, id);
  }

  // Two clients never use the same id, nor does the pool hand out one that is in use.
  lemma {:induction false} NoIdIsShared(low: int, high: int, n: nat, es: seq<Event>, i: nat, j: nat, id: int)
    requires LegalRun(Start(low, high, n), es, false)
    requires var w := Run(Start(low, high, n), es); i < |w.clients| && j < |w.clients| && id in Owned(w.clients[i])
    ensures var w := Run(Start(low, high, n), es); low <= id <= high && id !in w.pool
    ensures var w := Run(Start(low, high, n), es); id in Owned(w.clients[j]) ==> i == j
  {
    var w := Run(Start(low, high, n), es);
    IdsAreConserved(low, high, n, es, id);
    UsedByOne(w.clients, i, id);
    OccursIfMember(Owned(w.clients[i]), id);
    OccursIfMember(Owned(w.clients[j]), id);
    OccursIfMember(w.pool, id);
    if i != j { UsedByTwo(w.clients, i, j, id); }
  }

  // A connect is accepted while its client already holds an id.
  ghost predicate Overwrites(w: World, e: Event)
    requires Legal(w, e)
  {
    e.Accepted? && w.clients[e.client].held.Some?
  }

  ghost predicate SomeConnectOverwrites(w: World, es: seq<Event>)
    requires LegalRun(w, es, false)
    decreases |es|
  {
    es != [] && (Overwrites(w, es[0]) || SomeConnectOverwrites(Advance(w, es[0]), es[1..]))
  }

  lemma {:induction false} LostGrows(w: World, es: seq<Event>)
    requires LegalRun(w, es, false)
    ensures |Run(w, es).lost| >= |w.lost|
    ensures |Run(w, es).lost| > |w.lost| <==> SomeConnectOverwrites(w, es)
    decreases |es|
  {
    if es != [] { LostGrows(Advance(w, es[0]), es[1..]); }
  }

  // An id of the range that is neither in the pool nor with a client.
  ghost predicate Gone(w: World, low: int, high: int, id: int) {
    low <= id <= high && id !in w.pool && UsedBy(w.clients, id) == 0
  }

  // Ids are lost exactly if some connect is accepted while its client already holds one.
  lemma {:induction false} IdsAreLostExactlyWhen(low: int, high: int, n: nat, es: seq<Event>)
    requires LegalRun(Start(low, high, n), es, false)
    ensures (exists id :: Gone(Run(Start(low, high, n), es), low, high, id))
            <==> SomeConnectOverwrites(Start(low, high, n), es)
  {
    var w := Run(Start(low, high, n), es);
    LostGrows(Start(low, high, n), es);
    forall id
      ensures id in w.lost <==> Gone(w, low, high, id)
    {
      IdsAreConserved(low, high, n, es, id);
      OccursIfMember(w.pool, id);
      OccursIfMember(w.lost, id);
    }
    if w.lost != [] { assert Gone(w, low, high, w.lost[0]); }
  }

  // Two overlapping connects of one client lose an id for good.
  lemma {:induction false} OverlappingConnectsLeak(low: int, high: int)
    requires 0 < low < high
    ensures var es := [Begin(0, false), Begin(0, false), Acquire(0), Acquire(0), Accepted(0, 0), Accepted(0, 0)];
            LegalRun(Start(low, high, 1), es, false) && Run(Start(low, high, 1), es).lost == [low]
  {
    RangeEnds(low, high);
    var w0 := Start(low, high, 1);
    assert w0.clients == [IDLE];
    var w1 := Advance(w0, Begin(0, false));
    assert w1.clients == [Client(None, 1, [])] && w1.pool == w0.pool;
    var w2 := Advance(w1, Begin(0, false));
    assert w2.clients == [Client(None, 2, [])] && w2.pool == w0.pool;
    TwoConnectsEnd(w2, low);
    TakeSteps(w1, Begin(0, false), [Acquire(0), Acquire(0), Accepted(0, 0), Accepted(0, 0)]);
    TakeSteps(w0, Begin(0, false), [Begin(0, false), Acquire(0), Acquire(0), Accepted(0, 0), Accepted(0, 0)]);
  }

  lemma TwoConnectsEnd(w: World, low: int)
    requires w.clients == [Client(None, 2, [])] && |w.pool| >= 2 && w.pool[..2] == [low, low + 1] && w.lost == []
    ensures var es := [Acquire(0), Acquire(0), Accepted(0, 0), Accepted(0, 0)];
            LegalRun(w, es, false) && Run(w, es).lost == [low]
  {
    var w1 := Advance(w, Acquire(0));
    assert w.pool[0] == low && w.pool[1] == low + 1;
    assert w1.clients == [Client(None, 1, [low])] by { assert [] + [low] == [low]; }
    assert w1.pool[0] == low + 1;
    var w2 := Advance(w1, Acquire(0));
    assert w2.clients == [Client(None, 0, [low, low + 1])] by { assert [low] + [low + 1] == [low, low + 1]; }
    TwoAccepted(w2, low);
    TakeSteps(w1, Acquire(0), [Accepted(0, 0), Accepted(0, 0)]);
    TakeSteps(w, Acquire(0), [Acquire(0), Accepted(0, 0), Accepted(0, 0)]);
  }

  lemma TwoAccepted(w: World, low: int)
    requires w.clients == [Client(None, 0, [low, low + 1])] && w.lost == []
    ensures var es := [Accepted(0, 0), Accepted(0, 0)]; LegalRun(w, es, false) && Run(w, es).lost == [low]
  {
    var w1 := Advance(w, Accepted(0, 0));
    assert w1.clients == [Client(Some(low), 0, [low + 1])] by { assert Without([low, low + 1], 0) == [low + 1]; }
    assert w1.lost == [];
    TakeSteps(w1, Accepted(0, 0), []);
    TakeSteps(w, Accepted(0, 0), [Accepted(0, 0)]);
  }

  lemma TakeSteps(w: World, e: Event, es: seq<Event>)
    requires Legal(w, e) && LegalRun(Advance(w, e), es, false)
    ensures LegalRun(w, [e] + es, false) && Run(w, [e] + es) == Run(Advance(w, e), es)
  {
    assert ([e] + es)[1..] == es;
  }

  lemma {:induction false} RangeEnds(low: int, high: int)
    requires low < high
    ensures var r := Range(low, high); |r| == high - low + 1 && r[0] == low && r[1] == low + 1
    decreases high - low
  {
    if low + 1 < high {
      RangeEnds(low, high - 1);
    } else {
      assert Range(low, low - 1) == [];
      assert Range(low, low) == [low];
    }
  }
}
