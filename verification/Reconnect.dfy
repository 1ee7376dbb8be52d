/**
  * An order stream that breaks off and is taken up again, from the first connection's bytes to what the
  * client has in the end (streams/orders.py:207-242, streams/heartbeat.py, api/v1/orders_stream.py:53-85).
  * The account's channel is the same one if the client is back before the cool-down ends; otherwise it
  * was built anew, with an empty ring and ids from zero.
  *
  * Connections are taken in any state in which what the consumer got fits the log, as it does in every
  * reachable one (RunKeepsInv of OrderResume).
  */
module Reconnect {
  import opened Decimals
  import opened Heartbeat
  import opened EventStream
  import C = OrderChannel
  import D = CoolDownRegistry
  import R = RecentOrders
  import S = OrderResume

  function Bytes(encode: R.Payload -> string, events: seq<C.Event>, turns: seq<Turn>): string {
    Joined(Sent(Renderer(encode), COMMENT, events, turns))
  }

  // What a connection has handed to its consumer so far.
  function Items(c: S.Connection): seq<C.Event> {
    c.replayed + c.live
  }

  // A new client read a connection until it broke off, and had at least one event by then.
  ghost predicate BrokeOff(encode: R.Payload -> string, c: S.Connection, turns: seq<Turn>, client: Client) {
    && OneLine(encode) && S.Consistent(c) && Delivered(Items(c), turns) != []
    && client == Feed(START, Bytes(encode, Items(c), turns))
  }

  // The client came back with the id it had read, and was let through everything it was handed.
  ghost predicate TookUp(encode: R.Payload -> string, client: Client, c: S.Connection, turns: seq<Turn>, after: Client) {
    && S.Consistent(c) && S.Finished(c) && c.lastSeen == Read(client.id) && |Items(c)| <= Arrivals(turns)
    && after == Feed(client, Bytes(encode, Items(c), turns))
  }

  // Both connections are to one channel: what the first one knew was on its log at the second attach.
  ghost predicate SameChannel(first: S.Connection, c: S.Connection) {
    c.attachedAt <= |c.log| && first.log <= c.log[..c.attachedAt]
  }

  // ---- One cool-down decides which channel it is ----

  /** A client whose consumer was detached and that is attached again before the cool-down ends meets the
    * same channel.
    */
  lemma {:induction false} InTimeMeansSameChannel(
      start: int, before: seq<D.Step<string, C.Event>>, s: nat, consumer: string, meanwhile: seq<D.Step<string, C.Event>>,
      coolDown: nat, w: D.World<string, C.Event>, u: D.World<string, C.Event>, first: S.Connection, c: S.Connection)
    requires D.LegalRun(D.Empty(start), before + [D.Detach(s, consumer)] + meanwhile, coolDown)
    requires w == D.Run(D.Empty(start), before, coolDown)
    requires u == D.Run(D.Empty(start), before + [D.Detach(s, consumer)] + meanwhile, coolDown)
    requires u.clock < w.clock + coolDown && s < |w.subs| && s < |u.subs|
    requires first.log == w.subs[s].log && c.attachedAt <= |c.log| && c.log[..c.attachedAt] == u.subs[s].log
    ensures SameChannel(first, c) && D.Registered(u, s) && u.subs[s].key == w.subs[s].key
  {
    D.ReconnectJoinsTheSame(start, before, s, consumer, meanwhile, coolDown, w, u);
  }

  // ---- Messages and events ----

  lemma {:induction false} MessageIn(encode: R.Payload -> string, events: seq<C.Event>, e: C.Event)
    requires e in events
    ensures MessageOf(encode, e) in Messages(encode, events)
  {
    if events[0] != e { MessageIn(encode, events[1..], e); }
  }

  lemma {:induction false} MessageFrom(encode: R.Payload -> string, events: seq<C.Event>, m: Message) returns (e: C.Event)
    requires m in Messages(encode, events)
    ensures e in events && MessageOf(encode, e) == m
  {
    if m == MessageOf(encode, events[0]) {
      e := events[0];
    } else {
      e := MessageFrom(encode, events[1..], m);
    }
  }

  // Events lie in a log at the places their ids name.
  ghost predicate From(events: seq<C.Event>, log: seq<C.Event>) {
    forall e :: e in events ==> e.id < |log| && log[e.id] == e
  }

  // A message is told apart by its id: it can only come from the event in that place.
  lemma {:induction false} MessageAt(encode: R.Payload -> string, log: seq<C.Event>, events: seq<C.Event>, e: C.Event)
    requires From(events, log)
    ensures MessageOf(encode, e) in Messages(encode, events) <==>
            e.id < |log| && log[e.id] in events && MessageOf(encode, log[e.id]) == MessageOf(encode, e)
  {
    if MessageOf(encode, e) in Messages(encode, events) {
      var f := MessageFrom(encode, events, MessageOf(encode, e));
      ReadDecimal(e.id);
      ReadDecimal(f.id);
    }
    if e.id < |log| && log[e.id] in events { MessageIn(encode, events, log[e.id]); }
  }

  lemma {:induction false} SliceIsFromLog(log: seq<C.Event>, part: seq<C.Event>, rest: seq<C.Event>, lo: nat, hi: nat)
    requires C.Numbered(log) && lo <= hi <= |log| && part + rest == log[lo..hi]
    ensures From(part, log)
  {
    assert forall i :: 0 <= i < |part| ==> part[i] == (part + rest)[i] == log[lo + i];
  }

  lemma {:induction false} ItemsAreFromLog(c: S.Connection)
    requires S.Consistent(c)
    ensures From(Items(c), c.log)
  {
    if c.replay.Some? {
      SliceIsFromLog(c.log, c.replayed, c.replay.value, S.ReplayFrom(c.startedAt, c.lastSeen), c.startedAt);
    }
  }

  lemma {:induction false} DeliveredAreItems(c: S.Connection, turns: seq<Turn>)
    requires S.Consistent(c)
    ensures From(Delivered(Items(c), turns), c.log)
  {
    ItemsAreFromLog(c);
  }

  lemma {:induction false} HasAtTheBreak(encode: R.Payload -> string, first: S.Connection, turns: seq<Turn>, client: Client)
    requires BrokeOff(encode, first, turns, client)
    ensures var delivered := Delivered(Items(first), turns);
            Idle(client) && client.received == Messages(encode, delivered) && Read(client.id) == delivered[|delivered| - 1].id
  {
    var delivered := Delivered(Items(first), turns);
    ClientReceivesTheEvents(encode, START, Items(first), turns);
    ReadDecimal(delivered[|delivered| - 1].id);
  }

  lemma {:induction false} EverythingIsDelivered(events: seq<C.Event>, turns: seq<Turn>)
    requires |events| <= Arrivals(turns)
    ensures Delivered(events, turns) == events
  {
  }

  // What the client has in the end: what was delivered first, and everything it was handed afterwards.
  lemma {:induction false} HasInTheEnd(encode: R.Payload -> string, first: S.Connection, turns: seq<Turn>, client: Client,
                                       c: S.Connection, again: seq<Turn>, after: Client)
    requires BrokeOff(encode, first, turns, client) && TookUp(encode, client, c, again, after)
    ensures client.received == Messages(encode, Delivered(Items(first), turns))
    ensures after.received == client.received + Messages(encode, Items(c))
    ensures c.lastSeen == Delivered(Items(first), turns)[|Delivered(Items(first), turns)| - 1].id
  {
    HasAtTheBreak(encode, first, turns, client);
    EverythingIsDelivered(Items(c), again);
    ClientReceivesTheEvents(encode, client, Items(c), again);
  }

  // ---- Back in time ----

  /** On the same channel: an event that the second connection's queue let go of is with the client in the
    * end exactly if the first connection delivered it, the replay had it, or the queue did not drop it.
    */
  lemma {:induction false} HasEventExactlyWhen(encode: R.Payload -> string, first: S.Connection, turns: seq<Turn>,
                                               client: Client, c: S.Connection, again: seq<Turn>, after: Client, k: nat)
    requires BrokeOff(encode, first, turns, client) && TookUp(encode, client, c, again, after)
    requires SameChannel(first, c) && k < S.Head(c) && k < |c.log|
    ensures MessageOf(encode, c.log[k]) in after.received <==>
            || c.log[k] in Delivered(Items(first), turns)
            || S.Replayed(c, k)
            || (c.attachedAt <= k && k !in c.dropped)
  {
    HasInTheEnd(encode, first, turns, client, c, again, after);
    DeliveredAreItems(first, turns);
    FromLonger(Delivered(Items(first), turns), first.log, c.log);
    MessageAt(encode, c.log, Delivered(Items(first), turns), c.log[k]);
    ArrivesAgain(encode, c, k);
  }

  lemma {:induction false} FromLonger(events: seq<C.Event>, log: seq<C.Event>, longer: seq<C.Event>)
    requires From(events, log) && log <= longer
    ensures From(events, longer)
  {
  }

  lemma {:induction false} ArrivesAgain(encode: R.Payload -> string, c: S.Connection, k: nat)
    requires S.Consistent(c) && S.Finished(c) && k < S.Head(c) && k < |c.log|
    ensures c.log[k].id == k
    ensures MessageOf(encode, c.log[k]) in Messages(encode, Items(c)) <==> c.log[k] in Items(c)
    ensures c.log[k] in Items(c) <==> S.Replayed(c, k) || (c.attachedAt <= k && k !in c.dropped)
  {
    assert c.replayed + [] == c.replayed;
    ItemsAreFromLog(c);
    MessageAt(encode, c.log, Items(c), c.log[k]);
    S.Received(c, k);
  }

  // Everything after the last event the client had, on the log the second connection knows, is in `messages`.
  ghost predicate MissesNothing(encode: R.Payload -> string, c: S.Connection, messages: seq<Message>) {
    forall k: nat :: c.lastSeen < k < S.Head(c) && k < |c.log| ==> MessageOf(encode, c.log[k]) in messages
  }

  /** On the same channel, the second connection brings everything after the last event the client had,
    * the events of the gap included, exactly if the ring still reached back to that event when the
    * replay began, or it was the newest one at the attach, and what the queue dropped was in the replay.
    */
  lemma {:induction false} ReconnectMissesNothingExactlyWhen(
      encode: R.Payload -> string, first: S.Connection, turns: seq<Turn>, client: Client, c: S.Connection,
      again: seq<Turn>, after: Client)
    requires BrokeOff(encode, first, turns, client) && TookUp(encode, client, c, again, after)
    requires SameChannel(first, c)
    ensures forall k: nat :: k < |first.log| ==> k < S.Head(c) && k < |c.log| && c.log[k] == first.log[k]
    ensures client.received <= after.received
    ensures MissesNothing(encode, c, after.received[|client.received|..]) <==>
            S.ReachesBack(c) && forall k :: k in c.dropped && k > c.lastSeen ==> S.Replayed(c, k)
  {
    HasInTheEnd(encode, first, turns, client, c, again, after);
    assert after.received[|client.received|..] == Messages(encode, Items(c));
    forall k: nat | k < S.Head(c) && k < |c.log|
      ensures MessageOf(encode, c.log[k]) in Messages(encode, Items(c)) <==> c.log[k] in c.replayed || c.log[k] in c.live
    {
      ArrivesAgain(encode, c, k);
    }
    assert c.replayed + [] == c.replayed;
    S.Coverage(c);
  }

  // ---- Too late ----

  /** On a channel that was built anew: everything it published and the queue let go of arrives exactly if
    * the replay began with its event 0, or the client was attached before that, and what the queue
    * dropped was in the replay. A Last-Event-ID from the old channel can prevent that.
    */
  lemma {:induction false} RebuiltChannelArrivesExactlyWhen(
      encode: R.Payload -> string, first: S.Connection, turns: seq<Turn>, client: Client, c: S.Connection,
      again: seq<Turn>, after: Client)
    requires BrokeOff(encode, first, turns, client) && TookUp(encode, client, c, again, after)
    ensures client.received <= after.received
    ensures (forall k: nat :: k < S.Head(c) && k < |c.log| ==>
               MessageOf(encode, c.log[k]) in after.received[|client.received|..])
            <==>
            S.Min(c.attachedAt, S.ReplayFrom(c.startedAt, c.lastSeen)) == 0 &&
            forall k :: k in c.dropped ==> S.Replayed(c, k)
  {
    HasInTheEnd(encode, first, turns, client, c, again, after);
    assert after.received[|client.received|..] == Messages(encode, Items(c));
    forall k: nat | k < S.Head(c) && k < |c.log|
      ensures MessageOf(encode, c.log[k]) in Messages(encode, Items(c)) <==> c.log[k] in c.replayed || c.log[k] in c.live
    {
      ArrivesAgain(encode, c, k);
    }
    assert c.replayed + [] == c.replayed;
    S.CoverageOfAll(c);
  }

  /** Whatever the second connection meets: an event of the first channel is with the client in the end
    * exactly if it was delivered before the break, or the second log holds one with the very same message
    * in its place and hands it over.
    */
  lemma {:induction false} HasOldEventExactlyWhen(
      encode: R.Payload -> string, first: S.Connection, turns: seq<Turn>, client: Client, c: S.Connection,
      again: seq<Turn>, after: Client, k: nat)
    requires BrokeOff(encode, first, turns, client) && TookUp(encode, client, c, again, after)
    requires k < |first.log|
    ensures MessageOf(encode, first.log[k]) in after.received <==>
            || first.log[k] in Delivered(Items(first), turns)
            || (k < |c.log| && c.log[k] in Items(c) && MessageOf(encode, c.log[k]) == MessageOf(encode, first.log[k]))
  {
    HasInTheEnd(encode, first, turns, client, c, again, after);
    assert first.log[k].id == k;
    DeliveredAreItems(first, turns);
    MessageAt(encode, first.log, Delivered(Items(first), turns), first.log[k]);
    ItemsAreFromLog(c);
    MessageAt(encode, c.log, Items(c), first.log[k]);
  }

  // The events of the gap go with the channel: as long as the new one has published nothing, none of
  // them reaches the client, although nothing on the new log is missing.
  lemma {:induction false} GapIsLostWithTheChannel(
      encode: R.Payload -> string, first: S.Connection, turns: seq<Turn>, client: Client, c: S.Connection,
      again: seq<Turn>, after: Client, k: nat)
    requires BrokeOff(encode, first, turns, client) && TookUp(encode, client, c, again, after)
    requires c.log == [] && k < |first.log| && first.log[k] !in Delivered(Items(first), turns)
    ensures MessageOf(encode, first.log[k]) !in after.received && MissesNothing(encode, c, after.received)
  {
    HasOldEventExactlyWhen(encode, first, turns, client, c, again, after, k);
  }
}
