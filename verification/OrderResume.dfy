/** Reconnecting to an order stream with Last-Event-ID (streams/orders.py, `subscribe` and its
  * iterator): a replay of the ring, followed by the consumer's queue, while the channel keeps
  * publishing and other consumers come and go. Reconnecting is specified by section 9.2.4 of the
  * WHATWG HTML standard.
  */
module OrderResume {
  import opened BoundedQueue
  import opened Options
  import opened RecentOrders
  import opened OrderChannel

  /** One consumer's connection. `replay` is what is left to replay, None before the iterator's first
    * step; `replayed` and `live` are what the consumer received from the ring and from its queue;
    * `dropped` holds the ids of the events that its full queue gave up. `attachedAt` and `startedAt` are the
    * lengths of the channel's log when the consumer was attached and when its replay started.
    */
  datatype Connection = Connection(
    channel: Channel, log: seq<Event>, frames: seq<Payload>, me: ConsumerId, lastSeen: int,
    attachedAt: nat, startedAt: nat, replay: Option<seq<Event>>, replayed: seq<Event>, live: seq<Event>,
    dropped: set<nat>)

  datatype Step =
    | Frame(payload: Payload)
    | Snapshot(payload: Payload)
    | Join(id: ConsumerId)
    | Leave(id: ConsumerId)
    | StartReplay
    | YieldReplayed
    | YieldQueued

  // `lastSeen` is negative when no Last-Event-ID was sent: every buffered event is replayed.
  function Replay(ring: seq<Event>, lastSeen: int): seq<Event> {
    if ring == [] then []
    else (if ring[0].id > lastSeen then [ring[0]] else []) + Replay(ring[1..], lastSeen)
  }

  ghost function Queue(c: Connection): seq<Event> {
    if c.me in c.channel.queues then c.channel.queues[c.me] else []
  }

  // How many events of the log the consumer's queue has let go, by handing over or by dropping.
  ghost function Head(c: Connection): int {
    |c.log| - |Queue(c)|
  }

  ghost function Published1(c: Connection, kind: Kind, payload: Payload): Connection {
    c.(channel := Published(c.channel, kind, payload),
       log := c.log + [Event(c.channel.nextId, c.channel.account, kind, payload)],
       dropped := c.dropped + if |Queue(c)| >= CONSUMER_QUEUE_MAX then {Queue(c)[0].id} else {})
  }

  ghost function Connect(channel: Channel, log: seq<Event>, frames: seq<Payload>, me: ConsumerId,
                         lastSeen: int, bootstrap: Option<Payload>): Connection
  {
    var c := Connection(Attached(channel, me), log, frames, me, lastSeen, |log|, 0, None, [], [], {});
    if bootstrap.Some? then Published1(c, Bootstrap, bootstrap.value) else c
  }

  ghost predicate Legal(c: Connection, s: Step) {
    match s
    case Join(id) => id !in c.channel.queues
    case Leave(id) => id != c.me
    case StartReplay => c.replay.None?
    case YieldReplayed => c.replay.Some? && c.replay.value != []
    case YieldQueued => c.replay == Some([]) && Queue(c) != []
    case _ => true
  }

  ghost function Advance(c: Connection, s: Step): Connection {
    match s
    case Frame(p) =>
      var touched := c.(frames := c.frames + [p],
                        channel := c.channel.(cache := Touch(c.channel.cache, p, DEDUP_CACHE_SIZE)));
      if IsDuplicate(c.channel.cache, p) then touched else Published1(touched, OrderUpdate, p)
    case Snapshot(p) => Published1(c, Bootstrap, p)
    case Join(id) => c.(channel := Attached(c.channel, id))
    case Leave(id) => c.(channel := Detached(c.channel, id))
    case StartReplay => c.(replay := Some(Replay(c.channel.ring, c.lastSeen)), startedAt := |c.log|)
    case YieldReplayed =>
      if c.replay == None || c.replay == Some([]) then c
      else c.(replay := Some(c.replay.value[1..]), replayed := c.replayed + [c.replay.value[0]])
    case YieldQueued =>
      if Queue(c) == [] then c
      else c.(channel := c.channel.(queues := c.channel.queues[c.me := Queue(c)[1..]]), live := c.live + [Queue(c)[0]])
  }

  ghost function Run(c: Connection, steps: seq<Step>): Connection {
    if steps == [] then c else Advance(Run(c, steps[..|steps| - 1]), steps[|steps| - 1])
  }

  ghost predicate LegalRun(c: Connection, steps: seq<Step>) {
    steps != [] ==>
      LegalRun(c, steps[..|steps| - 1]) && Legal(Run(c, steps[..|steps| - 1]), steps[|steps| - 1])
  }

  // ---- What holds in every reachable state ----

  // Where the replay begins in a log of length `n`.
  function ReplayFrom(n: nat, lastSeen: int): nat {
    var oldest := if n <= REPLAY_BUFFER_SIZE then 0 else n - REPLAY_BUFFER_SIZE;
    var wanted := if lastSeen < oldest then oldest else lastSeen + 1;
    if wanted < n then wanted else n
  }

  ghost predicate Increasing(events: seq<Event>, below: int) {
    (forall i, j :: 0 <= i < j < |events| ==> events[i].id < events[j].id) &&
    (forall i :: 0 <= i < |events| ==> events[i].id < below)
  }

  // Of the events from `from` up to `head`, the queue handed over exactly those that it did not drop.
  ghost predicate Handed(log: seq<Event>, live: seq<Event>, from: nat, head: int, dropped: set<nat>) {
    && (forall e :: e in live ==> from <= e.id < head && e.id < |log| && log[e.id] == e && e.id !in dropped)
    && (forall k: nat :: from <= k < head && k < |log| && k !in dropped ==> log[k] in live)
    && (forall k: nat :: k in dropped ==> from <= k < head)
  }

  ghost predicate LiveInv(c: Connection) {
    && c.me in c.channel.queues && c.attachedAt <= Head(c) <= |c.log|
    && Increasing(c.live, Head(c))
    && Handed(c.log, c.live, c.attachedAt, Head(c), c.dropped)
  }

  ghost predicate ReplayInv(c: Connection) {
    if c.replay.None? then c.replayed == [] && c.live == []
    else c.attachedAt <= c.startedAt <= |c.log| &&
         c.replayed + c.replay.value == c.log[ReplayFrom(c.startedAt, c.lastSeen)..c.startedAt]
  }

  // What the consumer got, seen from the log alone.
  ghost predicate Consistent(c: Connection) {
    Numbered(c.log) && LiveInv(c) && ReplayInv(c)
  }

  ghost predicate Inv(c: Connection) {
    Mirrors(c.channel, c.log, c.frames) && LiveInv(c) && ReplayInv(c)
  }

  lemma {:induction false} ReplayIsRun(ring: seq<Event>, first: int, lastSeen: int)
    requires forall i :: 0 <= i < |ring| ==> ring[i].id == first + i
    ensures var k := if lastSeen < first then 0 else lastSeen + 1 - first;
            Replay(ring, lastSeen) == if k < |ring| then ring[k..] else []
  {
    if ring != [] {
      var rest := ring[1..];
      assert forall i :: 0 <= i < |rest| ==> rest[i].id == first + 1 + i;
      ReplayIsRun(rest, first + 1, lastSeen);
    }
  }

  lemma {:induction false} RingReplay(log: seq<Event>, lastSeen: int)
    requires Numbered(log)
    ensures Replay(Newest(log, REPLAY_BUFFER_SIZE), lastSeen) == log[ReplayFrom(|log|, lastSeen)..]
  {
    var ring := Newest(log, REPLAY_BUFFER_SIZE);
    ReplayIsRun(ring, |log| - |ring|, lastSeen);
  }

  lemma {:induction false} StartKeepsReplay(c: Connection)
    requires Numbered(c.log) && c.channel.ring == Newest(c.log, REPLAY_BUFFER_SIZE)
    requires ReplayInv(c) && c.attachedAt <= |c.log| && c.replay.None?
    ensures ReplayInv(Advance(c, StartReplay))
  {
    RingReplay(c.log, c.lastSeen);
    var r := ReplayFrom(|c.log|, c.lastSeen);
    assert c.log[r..] == c.log[r..|c.log|];
    assert [] + c.log[r..] == c.log[r..];
  }

  lemma {:induction false} LogKeepsHanded(log: seq<Event>, e: Event, live: seq<Event>, from: nat, head: int, dropped: set<nat>)
    requires Handed(log, live, from, head, dropped) && head <= |log|
    ensures Handed(log + [e], live, from, head, dropped)
  {
  }

  lemma {:induction false} DropKeepsHanded(log: seq<Event>, live: seq<Event>, from: nat, head: nat, dropped: set<nat>)
    requires Handed(log, live, from, head, dropped) && from <= head
    ensures Handed(log, live, from, head + 1, dropped + {head})
  {
  }

  // The oldest event of a queue is the one at its head.
  lemma {:induction false} Oldest(c: Connection)
    requires Mirrors(c.channel, c.log, c.frames) && Queue(c) != []
    ensures 0 <= Head(c) < |c.log| && Queue(c)[0] == c.log[Head(c)] && Queue(c)[0].id == Head(c)
  {
    assert IsSuffix(Queue(c), c.log);
  }

  lemma {:induction false} PublishKeepsQueue(c: Connection, kind: Kind, payload: Payload)
    requires |Queue(c)| <= CONSUMER_QUEUE_MAX && LiveInv(c)
    requires Queue(c) != [] ==> Queue(c)[0].id == Head(c)
    ensures LiveInv(Published1(c, kind, payload))
  {
    var d := Published1(c, kind, payload);
    assert |Queue(d)| == if |Queue(c)| == CONSUMER_QUEUE_MAX then |Queue(c)| else |Queue(c)| + 1;
    assert d.live == c.live && d.attachedAt == c.attachedAt;
    LogKeepsHanded(c.log, d.log[|c.log|], c.live, c.attachedAt, Head(c), c.dropped);
    if |Queue(c)| == CONSUMER_QUEUE_MAX {
      DropKeepsHanded(d.log, c.live, c.attachedAt, Head(c), c.dropped);
    }
  }

  lemma {:induction false} PublishKeepsReplay(c: Connection, kind: Kind, payload: Payload)
    requires ReplayInv(c)
    ensures ReplayInv(Published1(c, kind, payload))
  {
    var d := Published1(c, kind, payload);
    if c.replay.Some? { assert d.log[..c.startedAt] == c.log[..c.startedAt]; }
    if c.replay.Some? {
      var r := ReplayFrom(c.startedAt, c.lastSeen);
      assert d.log[r..c.startedAt] == c.log[r..c.startedAt];
    }
  }

  lemma {:induction false} PublishKeepsInv(c: Connection, kind: Kind, payload: Payload)
    requires Inv(c)
    ensures Inv(Published1(c, kind, payload))
  {
    PublishMirrors(c.channel, kind, payload, c.log, c.frames);
    if Queue(c) != [] { Oldest(c); }
    PublishKeepsQueue(c, kind, payload);
    PublishKeepsReplay(c, kind, payload);
  }

  lemma {:induction false} FrameKeepsInv(c: Connection, p: Payload)
    requires Inv(c)
    ensures Inv(Advance(c, Frame(p)))
  {
    var touched := c.(frames := c.frames + [p],
                      channel := c.channel.(cache := Touch(c.channel.cache, p, DEDUP_CACHE_SIZE)));
    CacheAppend(c.frames, p);
    assert Mirrors(touched.channel, touched.log, touched.frames);
    assert LiveInv(touched) && ReplayInv(touched);
    if !IsDuplicate(c.channel.cache, p) { PublishKeepsInv(touched, OrderUpdate, p); }
  }

  lemma {:induction false} TakeKeepsChannel(c: Connection)
    requires Mirrors(c.channel, c.log, c.frames) && c.me in c.channel.queues && Queue(c) != []
    ensures var d := Advance(c, YieldQueued);
            Mirrors(d.channel, d.log, d.frames) && d.me in d.channel.queues
            && Head(d) == Head(c) + 1 && c.live + [c.log[Head(c)]] == d.live
  {
    var q := Queue(c);
    assert IsSuffix(q, c.log);
    assert q[1..] == c.log[Head(c) + 1..];
  }

  lemma {:induction false} LiveGrows(log: seq<Event>, live: seq<Event>, from: nat, h: nat, dropped: set<nat>)
    requires Numbered(log) && from <= h < |log| && Increasing(live, h) && Handed(log, live, from, h, dropped)
    ensures Increasing(live + [log[h]], h + 1)
    ensures Handed(log, live + [log[h]], from, h + 1, dropped)
  {
  }

  lemma {:induction false} TakeKeepsInv(c: Connection)
    requires Inv(c) && Legal(c, YieldQueued)
    ensures Inv(Advance(c, YieldQueued))
  {
    TakeKeepsChannel(c);
    LiveGrows(c.log, c.live, c.attachedAt, Head(c), c.dropped);
    var d := Advance(c, YieldQueued);
    assert d.replay == c.replay && d.replayed == c.replayed && d.log == c.log && d.startedAt == c.startedAt;
    assert d.dropped == c.dropped && d.attachedAt == c.attachedAt;
  }

  lemma {:induction false} CrowdKeepsInv(c: Connection, s: Step)
    requires Inv(c) && Legal(c, s) && (s.Join? || s.Leave?)
    ensures Inv(Advance(c, s))
  {
    var d := Advance(c, s);
    assert Queue(d) == Queue(c);
  }

  lemma {:induction false} YieldKeepsReplay(c: Connection)
    requires ReplayInv(c) && Legal(c, YieldReplayed)
    ensures ReplayInv(Advance(c, YieldReplayed))
  {
    var head := c.replay.value[0];
    assert c.replayed + [head] + c.replay.value[1..] == c.replayed + c.replay.value;
  }

  // A step that only touches the replay keeps the rest.
  lemma {:induction false} RestKeepsInv(c: Connection, d: Connection)
    requires Inv(c) && ReplayInv(d) && d.channel == c.channel && d.log == c.log && d.frames == c.frames && d.me == c.me
    requires d.attachedAt == c.attachedAt && d.live == c.live && d.dropped == c.dropped
    ensures Inv(d)
  {
    assert Queue(d) == Queue(c);
  }

  lemma {:induction false} YieldKeepsRest(c: Connection)
    ensures var d := Advance(c, YieldReplayed);
            && d.channel == c.channel && d.log == c.log && d.frames == c.frames && d.me == c.me
            && d.attachedAt == c.attachedAt && d.live == c.live && d.dropped == c.dropped
  {
  }

  lemma {:induction false} YieldKeepsInv(c: Connection)
    requires Inv(c) && Legal(c, YieldReplayed)
    ensures Inv(Advance(c, YieldReplayed))
  {
    YieldKeepsReplay(c);
    YieldKeepsRest(c);
    RestKeepsInv(c, Advance(c, YieldReplayed));
  }

  lemma {:induction false} StartKeepsInv(c: Connection)
    requires Inv(c) && Legal(c, StartReplay)
    ensures Inv(Advance(c, StartReplay))
  {
    StartKeepsReplay(c);
    var d := Advance(c, StartReplay);
    assert d.channel == c.channel && d.log == c.log && d.live == c.live;
  }

  lemma {:induction false} StepKeepsInv(c: Connection, s: Step)
    requires Inv(c) && Legal(c, s)
    ensures Inv(Advance(c, s))
  {
    match s
    case Frame(p) => FrameKeepsInv(c, p);
    case Snapshot(p) => PublishKeepsInv(c, Bootstrap, p);
    case Join(_) => CrowdKeepsInv(c, s);
    case Leave(_) => CrowdKeepsInv(c, s);
    case StartReplay => StartKeepsInv(c);
    case YieldReplayed => YieldKeepsInv(c);
    case YieldQueued => TakeKeepsInv(c);
  }

  lemma {:induction false} StepKeepsOrigin(c: Connection, s: Step)
    ensures var d := Advance(c, s); d.attachedAt == c.attachedAt && d.lastSeen == c.lastSeen && d.me == c.me
  {
  }

  lemma {:induction false} StepsKeepInv(c: Connection, steps: seq<Step>)
    requires Inv(c) && LegalRun(c, steps)
    ensures var d := Run(c, steps);
            Inv(d) && d.attachedAt == c.attachedAt && d.lastSeen == c.lastSeen && d.me == c.me
  {
    if steps != [] {
      var last := |steps| - 1;
      StepsKeepInv(c, steps[..last]);
      StepKeepsInv(Run(c, steps[..last]), steps[last]);
      StepKeepsOrigin(Run(c, steps[..last]), steps[last]);
    }
  }

  lemma {:induction false} ConnectInv(channel: Channel, log: seq<Event>, frames: seq<Payload>, me: ConsumerId,
                                      lastSeen: int, bootstrap: Option<Payload>)
    requires Mirrors(channel, log, frames)
    ensures Inv(Connect(channel, log, frames, me, lastSeen, bootstrap))
  {
    var c := Connection(Attached(channel, me), log, frames, me, lastSeen, |log|, 0, None, [], [], {});
    assert Inv(c);
    if bootstrap.Some? { PublishKeepsInv(c, Bootstrap, bootstrap.value); }
  }

  lemma {:induction false} RunKeepsInv(channel: Channel, log: seq<Event>, frames: seq<Payload>, me: ConsumerId,
                                       lastSeen: int, bootstrap: Option<Payload>, steps: seq<Step>)
    requires Mirrors(channel, log, frames)
    requires LegalRun(Connect(channel, log, frames, me, lastSeen, bootstrap), steps)
    ensures var c := Run(Connect(channel, log, frames, me, lastSeen, bootstrap), steps);
            Inv(c) && c.attachedAt == |log| && c.lastSeen == lastSeen && c.me == me
  {
    ConnectInv(channel, log, frames, me, lastSeen, bootstrap);
    StepsKeepInv(Connect(channel, log, frames, me, lastSeen, bootstrap), steps);
  }

  // ---- Nothing is lost, and what comes twice ----

  lemma {:induction false} InSlice(log: seq<Event>, lo: nat, hi: nat, k: nat)
    requires Numbered(log) && lo <= hi <= |log| && k < |log|
    ensures log[k] in log[lo..hi] <==> lo <= k < hi
  {
    if lo <= k < hi { assert log[lo..hi][k - lo] == log[k]; }
  }

  function FirstWanted(lastSeen: int): nat {
    if lastSeen < 0 then 0 else lastSeen + 1
  }

  function Min(a: nat, b: nat): nat {
    if a < b then a else b
  }

  // Everything after Last-Event-ID that the queue let go of so far has reached the consumer.
  ghost predicate NothingLost(c: Connection) {
    forall k: nat :: c.lastSeen < k < Head(c) && k < |c.log| ==> c.log[k] in c.replayed || c.log[k] in c.live
  }

  ghost predicate Finished(c: Connection) {
    c.replay == Some([])
  }

  // `c` is what a consumer's connection became by `steps`, its replay being finished.
  ghost predicate ReplayDone(channel: Channel, log: seq<Event>, frames: seq<Payload>, me: ConsumerId, lastSeen: int,
                             bootstrap: Option<Payload>, steps: seq<Step>, c: Connection)
  {
    var start := Connect(channel, log, frames, me, lastSeen, bootstrap);
    Mirrors(channel, log, frames) && LegalRun(start, steps) && c == Run(start, steps) && c.replay == Some([])
  }

  /** What the consumer got from the ring and what it got from its queue are both in strictly
    * increasing order, whether or not the queue overflowed.
    */
  lemma {:induction false} ResumeIsInOrder(channel: Channel, log: seq<Event>, frames: seq<Payload>, me: ConsumerId,
                                         lastSeen: int, bootstrap: Option<Payload>, steps: seq<Step>, c: Connection)
    requires ReplayDone(channel, log, frames, me, lastSeen, bootstrap, steps, c)
    ensures Increasing(c.replayed, c.startedAt) && Increasing(c.live, Head(c))
  {
    RunKeepsInv(channel, log, frames, me, lastSeen, bootstrap, steps);
    assert c.replayed + [] == c.replayed;
    InOrder(c);
  }

  // The ring still reached back to Last-Event-ID as the replay started, or it was current as the consumer
  // was attached.
  ghost predicate ReachesBack(c: Connection) {
    FirstWanted(c.lastSeen) >= Min(c.attachedAt, ReplayFrom(c.startedAt, -1))
  }

  // Event `k` was in the replay.
  ghost predicate Replayed(c: Connection, k: int) {
    ReplayFrom(c.startedAt, c.lastSeen) <= k < c.startedAt
  }

  /** Nothing after Last-Event-ID is lost exactly when the ring still reached back to it as the replay
    * started, or it was current as the consumer was attached, and whatever the full queue dropped of it
    * was in the replay.
    */
  lemma {:induction false} ResumeLosesNothingExactlyWhen(channel: Channel, log: seq<Event>, frames: seq<Payload>, me: ConsumerId,
                                         lastSeen: int, bootstrap: Option<Payload>, steps: seq<Step>, c: Connection)
    requires ReplayDone(channel, log, frames, me, lastSeen, bootstrap, steps, c)
    ensures NothingLost(c) <==> ReachesBack(c) && forall k :: k in c.dropped && k > lastSeen ==> Replayed(c, k)
  {
    RunKeepsInv(channel, log, frames, me, lastSeen, bootstrap, steps);
    assert c.replayed + [] == c.replayed;
    Coverage(c);
  }

  /** Everything the channel published and the queue let go of reaches the consumer exactly when the
    * replay began with event 0, or the consumer was attached before that was published, and whatever
    * was dropped was in the replay. On a channel that was built anew since the client got its
    * Last-Event-ID, that is what losing nothing means.
    */
  lemma {:induction false} EverythingArrivesExactlyWhen(channel: Channel, log: seq<Event>, frames: seq<Payload>, me: ConsumerId,
                                         lastSeen: int, bootstrap: Option<Payload>, steps: seq<Step>, c: Connection)
    requires ReplayDone(channel, log, frames, me, lastSeen, bootstrap, steps, c)
    ensures EverythingArrived(c) <==>
            Min(c.attachedAt, ReplayFrom(c.startedAt, lastSeen)) == 0 && forall k :: k in c.dropped ==> Replayed(c, k)
  {
    RunKeepsInv(channel, log, frames, me, lastSeen, bootstrap, steps);
    assert c.replayed + [] == c.replayed;
    CoverageOfAll(c);
  }

  // The events that come twice are exactly the wanted ones published between attaching and replaying,
  // unless the queue dropped them.
  lemma {:induction false} OverlapIsExact(channel: Channel, log: seq<Event>, frames: seq<Payload>, me: ConsumerId,
                                         lastSeen: int, bootstrap: Option<Payload>, steps: seq<Step>, c: Connection)
    requires ReplayDone(channel, log, frames, me, lastSeen, bootstrap, steps, c)
    ensures forall k: nat :: k < Head(c) && k < |c.log| ==>
              (c.log[k] in c.replayed && c.log[k] in c.live <==>
               |log| <= k < c.startedAt && k >= ReplayFrom(c.startedAt, lastSeen) && k !in c.dropped)
  {
    RunKeepsInv(channel, log, frames, me, lastSeen, bootstrap, steps);
    assert c.replayed + [] == c.replayed;
    Overlap(c);
  }

  lemma {:induction false} InOrder(c: Connection)
    requires Consistent(c) && c.replay == Some([]) && c.replayed == c.log[ReplayFrom(c.startedAt, c.lastSeen)..c.startedAt]
    ensures Increasing(c.replayed, c.startedAt)
  {
    var r := ReplayFrom(c.startedAt, c.lastSeen);
    assert forall i :: 0 <= i < |c.replayed| ==> c.replayed[i].id == r + i;
  }

  // What a consumer received, event by event.
  lemma {:induction false} Received(c: Connection, k: nat)
    requires Consistent(c) && c.replay.Some? && k < |c.log|
    requires c.replayed == c.log[ReplayFrom(c.startedAt, c.lastSeen)..c.startedAt]
    ensures c.log[k] in c.replayed <==> Replayed(c, k)
    ensures c.log[k] in c.live <==> c.attachedAt <= k < Head(c) && k !in c.dropped
  {
    InSlice(c.log, ReplayFrom(c.startedAt, c.lastSeen), c.startedAt, k);
    assert c.log[k].id == k;
  }

  lemma {:induction false} Coverage(c: Connection)
    requires Consistent(c) && c.replay.Some?
    requires c.replayed == c.log[ReplayFrom(c.startedAt, c.lastSeen)..c.startedAt]
    ensures NothingLost(c) <==> ReachesBack(c) && forall k :: k in c.dropped && k > c.lastSeen ==> Replayed(c, k)
  {
    forall k: nat | k < |c.log|
      ensures c.log[k] in c.replayed <==> Replayed(c, k)
      ensures c.log[k] in c.live <==> c.attachedAt <= k < Head(c) && k !in c.dropped
    {
      Received(c, k);
    }
    if !ReachesBack(c) {
      var k := FirstWanted(c.lastSeen);
      assert c.log[k] !in c.replayed && c.log[k] !in c.live;
    }
    if k :| k in c.dropped && k > c.lastSeen && !Replayed(c, k) {
      assert c.log[k] !in c.replayed && c.log[k] !in c.live;
    }
  }

  ghost predicate EverythingArrived(c: Connection) {
    forall k: nat :: k < Head(c) && k < |c.log| ==> c.log[k] in c.replayed || c.log[k] in c.live
  }

  lemma {:induction false} CoverageOfAll(c: Connection)
    requires Consistent(c) && c.replay.Some?
    requires c.replayed == c.log[ReplayFrom(c.startedAt, c.lastSeen)..c.startedAt]
    ensures EverythingArrived(c) <==>
            Min(c.attachedAt, ReplayFrom(c.startedAt, c.lastSeen)) == 0 && forall k :: k in c.dropped ==> Replayed(c, k)
  {
    forall k: nat | k < |c.log|
      ensures c.log[k] in c.replayed <==> Replayed(c, k)
      ensures c.log[k] in c.live <==> c.attachedAt <= k < Head(c) && k !in c.dropped
    {
      Received(c, k);
    }
    if Min(c.attachedAt, ReplayFrom(c.startedAt, c.lastSeen)) > 0 {
      assert c.log[0] !in c.replayed && c.log[0] !in c.live;
    }
    if k :| k in c.dropped && !Replayed(c, k) {
      assert c.log[k] !in c.replayed && c.log[k] !in c.live;
    }
  }

  lemma {:induction false} Overlap(c: Connection)
    requires Consistent(c) && c.replay.Some?
    requires c.replayed == c.log[ReplayFrom(c.startedAt, c.lastSeen)..c.startedAt]
    ensures forall k: nat :: k < Head(c) && k < |c.log| ==>
              (c.log[k] in c.replayed && c.log[k] in c.live <==>
               c.attachedAt <= k < c.startedAt && k >= ReplayFrom(c.startedAt, c.lastSeen) && k !in c.dropped)
  {
    forall k: nat | k < |c.log|
      ensures c.log[k] in c.replayed <==> Replayed(c, k)
      ensures c.log[k] in c.live <==> c.attachedAt <= k < Head(c) && k !in c.dropped
    {
      Received(c, k);
    }
  }

  lemma {:induction false} LogGrows(c: Connection, steps: seq<Step>)
    ensures c.log <= Run(c, steps).log
  {
    if steps != [] { LogGrows(c, steps[..|steps| - 1]); }
  }

  /** A consumer that asks for a bootstrap snapshot gets it from its queue unless the queue dropped it,
    * and from the ring unless it claimed to have seen it or 200 newer events pushed it out before the
    * replay started.
    */
  lemma {:induction false} BootstrapComesTwice(channel: Channel, log: seq<Event>, frames: seq<Payload>, me: ConsumerId,
                                               lastSeen: int, snapshot: Payload, steps: seq<Step>, c: Connection,
                                               event: Event)
    requires ReplayDone(channel, log, frames, me, lastSeen, Some(snapshot), steps, c) && Head(c) > |log|
    requires event == Event(|log|, channel.account, Bootstrap, snapshot)
    ensures event in c.live <==> |log| !in c.dropped
    ensures event in c.replayed <==> lastSeen < |log| && |log| < c.startedAt <= |log| + REPLAY_BUFFER_SIZE
  {
    var start := Connect(channel, log, frames, me, lastSeen, Some(snapshot));
    RunKeepsInv(channel, log, frames, me, lastSeen, Some(snapshot), steps);
    LogGrows(start, steps);
    assert start.log[|log|] == c.log[|log|];
    assert c.replayed + [] == c.replayed;
    Received(c, |log|);
  }
}
