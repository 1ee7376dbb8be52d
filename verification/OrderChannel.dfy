/** One account's event channel (streams/orders.py, `_AccountSubscription`): event numbering, the
  * replay ring, the consumers' bounded queues and the duplicate filter.
  */
module OrderChannel {
  import opened BoundedQueue
  import opened Options
  import opened RecentOrders

  const REPLAY_BUFFER_SIZE := 200
  const CONSUMER_QUEUE_MAX := 1024
  const DEDUP_CACHE_SIZE := 1024

  datatype Kind = Bootstrap | OrderUpdate

  datatype Event = Event(id: nat, account: string, kind: Kind, payload: Payload)

  type ConsumerId = string

  datatype Channel = Channel(account: string, nextId: nat, ring: seq<Event>,
                             queues: map<ConsumerId, seq<Event>>, cache: seq<Entry>)

  function Fresh(account: string): Channel {
    Channel(account, 0, [], map[], [])
  }

  // A full queue gives up its oldest event.
  function Offer(queue: seq<Event>, e: Event): seq<Event> {
    Newest(queue + [e], CONSUMER_QUEUE_MAX)
  }

  function Published(c: Channel, kind: Kind, payload: Payload): Channel {
    var e := Event(c.nextId, c.account, kind, payload);
    Channel(c.account, c.nextId + 1, Newest(c.ring + [e], REPLAY_BUFFER_SIZE),
            map id | id in c.queues :: Offer(c.queues[id], e), c.cache)
  }

  // A live frame arrives: unless the filter knows it already, it becomes an event.
  function Pushed(c: Channel, frame: Payload): Channel {
    var touched := c.(cache := Touch(c.cache, frame, DEDUP_CACHE_SIZE));
    if IsDuplicate(c.cache, frame) then touched else Published(touched, OrderUpdate, frame)
  }

  function Attached(c: Channel, id: ConsumerId): Channel {
    c.(queues := c.queues[id := []])
  }

  function Detached(c: Channel, id: ConsumerId): Channel {
    c.(queues := c.queues - {id})
  }

  // Events carry their position in the complete log of the channel.
  ghost predicate Numbered(log: seq<Event>) {
    forall i :: 0 <= i < |log| ==> log[i].id == i
  }

  /** What a channel holds, as a view of everything it ever published (`log`) and of every live frame
    * it ever saw (`frames`): the ring is the newest 200 events, every queue is a consecutive run of
    * events that ends at the newest one, and the filter holds the most recent orders.
    */
  ghost predicate Mirrors(c: Channel, log: seq<Event>, frames: seq<Payload>) {
    && Numbered(log) && c.nextId == |log|
    && c.ring == Newest(log, REPLAY_BUFFER_SIZE)
    && (forall id :: id in c.queues ==> IsSuffix(c.queues[id], log) && |c.queues[id]| <= CONSUMER_QUEUE_MAX)
    && c.cache == CacheAfter(frames, DEDUP_CACHE_SIZE)
  }

  lemma {:induction false} OfferKeepsSuffix(queue: seq<Event>, log: seq<Event>, e: Event)
    requires IsSuffix(queue, log)
    ensures IsSuffix(Offer(queue, e), log + [e])
  {
    assert queue + [e] == (log + [e])[|log| - |queue|..];
  }

  lemma {:induction false} PublishMirrors(c: Channel, kind: Kind, payload: Payload, log: seq<Event>, frames: seq<Payload>)
    requires Mirrors(c, log, frames)
    ensures Mirrors(Published(c, kind, payload), log + [Event(c.nextId, c.account, kind, payload)], frames)
  {
    var e := Event(c.nextId, c.account, kind, payload);
    NewestAppend(log, e, REPLAY_BUFFER_SIZE);
    forall id | id in c.queues
      ensures IsSuffix(Offer(c.queues[id], e), log + [e])
    {
      OfferKeepsSuffix(c.queues[id], log, e);
    }
  }

  lemma {:induction false} CacheAppend(frames: seq<Payload>, frame: Payload)
    ensures CacheAfter(frames + [frame], DEDUP_CACHE_SIZE)
         == Touch(CacheAfter(frames, DEDUP_CACHE_SIZE), frame, DEDUP_CACHE_SIZE)
  {
    assert (frames + [frame])[..|frames|] == frames;
  }

  // The events that a live frame adds to the log.
  function Emitted(c: Channel, frame: Payload): seq<Event> {
    if IsDuplicate(c.cache, frame) then [] else [Event(c.nextId, c.account, OrderUpdate, frame)]
  }

  lemma {:induction false} PushMirrors(c: Channel, frame: Payload, log: seq<Event>, frames: seq<Payload>, d: Channel)
    requires Mirrors(c, log, frames) && d == Pushed(c, frame)
    ensures Mirrors(d, log + Emitted(c, frame), frames + [frame])
  {
    var touched := c.(cache := Touch(c.cache, frame, DEDUP_CACHE_SIZE));
    CacheAppend(frames, frame);
    assert Mirrors(touched, log, frames + [frame]);
    if IsDuplicate(c.cache, frame) {
      assert log + [] == log;
    } else {
      PublishMirrors(touched, OrderUpdate, frame, log, frames + [frame]);
    }
  }

  /** A frame that the channel swallows is one whose order last said the same with fewer than 1024
    * other orders in between; every other frame becomes the next numbered event.
    */
  lemma {:induction false} SwallowedExactlyWhen(c: Channel, frame: Payload, log: seq<Event>, frames: seq<Payload>)
    requires Mirrors(c, log, frames)
    ensures Emitted(c, frame) == [] <==> OldNews(frames, frame, 1024)
  {
    SuppressedExactlyWhen(frames, frame, DEDUP_CACHE_SIZE);
  }

  // ---- The object ----

  // A cool-down waiting to run out; `done` once it was cancelled or has finished.
  class CoolDownTask {
    var done: bool
    constructor ()
      ensures !done
    {
      done := false;
    }
  }

  class AccountSubscription {
    const account: string
    var nextEventId: nat
    var consumers: map<ConsumerId, seq<Event>>
    var eventBuffer: seq<Event>
    var lastOrderKey: seq<Entry>
    var coolDownTask: CoolDownTask?
    // Everything published, and every live frame seen, since the subscription was created.
    ghost var log: seq<Event>
    ghost var frames: seq<Payload>

    function Abs(): Channel
      reads this
    {
      Channel(account, nextEventId, eventBuffer, consumers, lastOrderKey)
    }

    ghost predicate Valid()
      reads this
    {
      Mirrors(Abs(), log, frames)
    }

    constructor (account: string)
      ensures Valid() && Abs() == Fresh(account) && coolDownTask == null && log == [] && frames == []
    {
      this.account := account;
      nextEventId, consumers, eventBuffer, lastOrderKey, coolDownTask := 0, map[], [], [], null;
      log, frames := [], [];
    }

    method Attach(id: ConsumerId)
      requires Valid()
      modifies this`consumers, this`coolDownTask, coolDownTask
      ensures Valid() && Abs() == Attached(old(Abs()), id)
      ensures coolDownTask == null && (old(coolDownTask) != null ==> old(coolDownTask).done)
    {
      CancelCoolDown();
      consumers := consumers[id := []];
    }

    // A new consumer, and the snapshot it starts from; all consumers see that snapshot.
    method Welcome(id: ConsumerId, bootstrap: Option<Payload>)
      requires Valid()
      modifies this, coolDownTask
      ensures Valid() && coolDownTask == null && (old(coolDownTask) != null ==> old(coolDownTask).done)
      ensures var attached := Attached(old(Abs()), id);
              Abs() == if bootstrap.Some? then Published(attached, Bootstrap, bootstrap.value) else attached
    {
      Attach(id);
      if bootstrap.Some? {
        var _ := Publish(Bootstrap, bootstrap.value);
      }
    }

    method Detach(id: ConsumerId)
      requires Valid()
      modifies this`consumers, this`coolDownTask
      ensures Valid() && Abs() == Detached(old(Abs()), id)
      ensures id !in consumers && forall other :: other in old(consumers) && other != id ==>
                other in consumers && consumers[other] == old(consumers)[other]
      ensures consumers == map[] <==> old(consumers).Keys <= {id}
      ensures if consumers == map[] then coolDownTask != null && fresh(coolDownTask) && !coolDownTask.done
              else coolDownTask == old(coolDownTask)
    {
      consumers := consumers - {id};
      if consumers == map[] {
        coolDownTask := new CoolDownTask();
      }
    }

    method CancelCoolDown()
      modifies this`coolDownTask, coolDownTask
      ensures coolDownTask == null && (old(coolDownTask) != null ==> old(coolDownTask).done)
    {
      if coolDownTask != null && !coolDownTask.done {
        coolDownTask.done := true;
      }
      coolDownTask := null;
    }

    method IsDuplicateOrder(payload: Payload) returns (duplicate: bool)
      requires Valid()
      modifies this`lastOrderKey, this`frames
      ensures Valid() && frames == old(frames) + [payload]
      ensures duplicate <==> OldNews(old(frames), payload, 1024)
      ensures duplicate == IsDuplicate(old(lastOrderKey), payload)
      ensures lastOrderKey == Touch(old(lastOrderKey), payload, DEDUP_CACHE_SIZE)
    {
      var orderId, key := IdOf(payload), KeyOf(payload);
      SuppressedExactlyWhen(frames, payload, DEDUP_CACHE_SIZE);
      CacheAppend(frames, payload);
      CacheIsDictionary(frames);
      frames := frames + [payload];
      if Get(lastOrderKey, orderId) == Some(key) {
        MovedToEnd(lastOrderKey, orderId, key);
        lastOrderKey := Without(lastOrderKey, orderId) + [Entry(orderId, key)];
        return true;
      }
      // The new key takes its old place in the dictionary, if it has one, and then moves to the end.
      lastOrderKey := Stored(lastOrderKey, orderId, key);
      StoredMovesToEnd(old(lastOrderKey), orderId, key);
      lastOrderKey := Without(lastOrderKey, orderId) + [Entry(orderId, key)];
      EvictOldest();
      return false;
    }

    method EvictOldest()
      modifies this`lastOrderKey
      ensures lastOrderKey == Newest(old(lastOrderKey), DEDUP_CACHE_SIZE)
    {
      while |lastOrderKey| > DEDUP_CACHE_SIZE
        invariant Newest(lastOrderKey, DEDUP_CACHE_SIZE) == Newest(old(lastOrderKey), DEDUP_CACHE_SIZE)
      {
        lastOrderKey := lastOrderKey[1..];
      }
    }

    method Publish(kind: Kind, payload: Payload) returns (event: Event)
      requires Valid()
      modifies this`nextEventId, this`eventBuffer, this`consumers, this`log
      ensures Valid() && log == old(log) + [event]
      ensures event == Event(old(nextEventId), account, kind, payload)
      ensures Abs() == Published(old(Abs()), kind, payload)
    {
      event := Event(nextEventId, account, kind, payload);
      PublishMirrors(Abs(), kind, payload, log, frames);
      log := log + [event];
      nextEventId := nextEventId + 1;
      eventBuffer := eventBuffer + [event];
      if |eventBuffer| > REPLAY_BUFFER_SIZE { eventBuffer := eventBuffer[1..]; }
      FanOut(event);
    }

    method FanOut(event: Event)
      requires forall id :: id in consumers ==> |consumers[id]| <= CONSUMER_QUEUE_MAX
      modifies this`consumers
      ensures consumers == map id | id in old(consumers) :: Offer(old(consumers)[id], event)
    {
      var waiting := consumers.Keys;
      assert consumers == OfferedBut(consumers, consumers.Keys, event);
      while waiting != {}
        invariant waiting <= old(consumers).Keys && consumers == OfferedBut(old(consumers), waiting, event)
        decreases |waiting|
      {
        var id :| id in waiting;
        var queue := consumers[id];
        if |queue| >= CONSUMER_QUEUE_MAX { queue := queue[1..]; }
        OfferOneMore(old(consumers), waiting, event, id);
        consumers := consumers[id := queue + [event]];
        waiting := waiting - {id};
      }
    }
  }

  // Everyone was offered the event but those still waiting.
  function OfferedBut(queues: map<ConsumerId, seq<Event>>, waiting: set<ConsumerId>, e: Event)
    : map<ConsumerId, seq<Event>>
  {
    map id | id in queues :: if id in waiting then queues[id] else Offer(queues[id], e)
  }

  lemma OfferOneMore(queues: map<ConsumerId, seq<Event>>, waiting: set<ConsumerId>, e: Event, id: ConsumerId)
    requires id in queues && id in waiting && |queues[id]| <= CONSUMER_QUEUE_MAX
    ensures var queue := if |queues[id]| >= CONSUMER_QUEUE_MAX then queues[id][1..] else queues[id];
            OfferedBut(queues, waiting, e)[id := queue + [e]] == OfferedBut(queues, waiting - {id}, e)
  {
    var queue := if |queues[id]| >= CONSUMER_QUEUE_MAX then queues[id][1..] else queues[id];
    assert queue + [e] == Offer(queues[id], e);
  }

  // `cache[id] = key` of an ordered dictionary.
  function Stored(cache: seq<Entry>, id: Value, key: Payload): seq<Entry> {
    if cache == [] then [Entry(id, key)]
    else if cache[0].id == id then [Entry(id, key)] + cache[1..]
    else [cache[0]] + Stored(cache[1..], id, key)
  }

  lemma {:induction false} StoredMovesToEnd(cache: seq<Entry>, id: Value, key: Payload)
    ensures Without(Stored(cache, id, key), id) == Without(cache, id)
  {
    if cache != [] && cache[0].id != id { StoredMovesToEnd(cache[1..], id, key); }
  }

  lemma {:induction false} CacheIsDictionary(frames: seq<Payload>)
    ensures var cache := CacheAfter(frames, DEDUP_CACHE_SIZE);
            DistinctIds(cache) && |cache| <= DEDUP_CACHE_SIZE
  {
    CacheHoldsTheMostRecent(frames, DEDUP_CACHE_SIZE);
    LastFramesFacts(frames);
    var all := LastFrames(frames);
    TailDistinct(all, |all| - |Newest(all, DEDUP_CACHE_SIZE)|);
  }

  lemma {:induction false} MovedToEnd(cache: seq<Entry>, id: Value, key: Payload)
    requires DistinctIds(cache) && Get(cache, id) == Some(key)
    ensures |Without(cache, id) + [Entry(id, key)]| == |cache|
  {
    GetFinds(cache, id);
    var k :| 0 <= k < |cache| && cache[k].id == id;
    WithoutPresent(cache, k);
  }
}
