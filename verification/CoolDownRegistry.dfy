/** Subscriptions that outlive their last consumer by a cool-down: the registry protocol shared by the
  * order stream (streams/orders.py, keyed by account) and the quote stream (streams/manager.py, keyed
  * by contract id). Each step below is one stretch of code between two awaits; the steps of
  * subscribers, publishers and any number of cool-down tasks interleave freely.
  *
  * Subscriptions and tasks are named by their position in `subs` and `tasks`, which keep every object
  * ever created.
  */
module CoolDownRegistry {
  import opened Options

  datatype Phase = Sleeping(deadline: int) | AtLock | Ended

  datatype Task = Task(owner: nat, phase: Phase)

  datatype Sub<K, E> = Sub(key: K, consumers: set<string>, coolDown: Option<nat>, log: seq<E>)

  datatype World<K, E> = World(registry: map<K, nat>, subs: seq<Sub<K, E>>, tasks: seq<Task>, clock: int)

  datatype Step<K, E> =
    | Attach(key: K, consumer: string)
    | Detach(sub: nat, consumer: string)
    | Wake(task: nat)
    | Teardown(task: nat, guarded: bool)
    | Publish(key: K, event: E)
    | Pass(now: int)

  function Empty<K, E>(start: int): World<K, E> {
    World(map[], [], [], start)
  }

  // ---- The steps ----

  predicate Registered<K, E>(w: World<K, E>, s: nat) {
    s < |w.subs| && w.subs[s].key in w.registry && w.registry[w.subs[s].key] == s
  }

  // The registered subscription for `key`, created on demand.
  function Opened<K, E>(w: World<K, E>, key: K): World<K, E> {
    if key in w.registry then w
    else w.(registry := w.registry[key := |w.subs|], subs := w.subs + [Sub(key, {}, None, [])])
  }

  function Ending(tasks: seq<Task>, t: Option<nat>): seq<Task> {
    if t.Some? && t.value < |tasks| then tasks[t.value := tasks[t.value].(phase := Ended)] else tasks
  }

  // Attaching cancels the cool-down, wherever that task is waiting.
  function Joined<K, E>(w: World<K, E>, s: nat, consumer: string): World<K, E>
    requires s < |w.subs|
  {
    var sub := w.subs[s];
    w.(subs := w.subs[s := sub.(consumers := sub.consumers + {consumer}, coolDown := None)],
       tasks := Ending(w.tasks, sub.coolDown))
  }

  // The last consumer to leave starts a cool-down.
  function Left<K, E>(w: World<K, E>, s: nat, consumer: string, coolDown: nat): World<K, E>
    requires s < |w.subs|
  {
    var sub := w.subs[s].(consumers := w.subs[s].consumers - {consumer});
    if sub.consumers != {} then w.(subs := w.subs[s := sub])
    else w.(subs := w.subs[s := sub.(coolDown := Some(|w.tasks|))],
            tasks := w.tasks + [Task(s, Sleeping(w.clock + coolDown))])
  }

  /** The order stream (`guarded`) removes an idle subscription only if it is still the registered one.
    * The quote stream removes whatever is registered for the key, and stops its subscription, which
    * cancels the cool-down that this subscription knows at that moment.
    */
  function Taken<K, E>(w: World<K, E>, s: nat, guarded: bool): World<K, E>
    requires s < |w.subs|
  {
    if guarded then
      if Registered(w, s) then w.(registry := w.registry - {w.subs[s].key}) else w
    else
      w.(registry := w.registry - {w.subs[s].key}, subs := w.subs[s := w.subs[s].(coolDown := None)],
         tasks := Ending(w.tasks, w.subs[s].coolDown))
  }

  function Advance<K, E>(w: World<K, E>, e: Step<K, E>, coolDown: nat): World<K, E> {
    match e
    case Attach(key, consumer) =>
      var v := Opened(w, key);
      if v.registry[key] < |v.subs| then Joined(v, v.registry[key], consumer) else v
    case Detach(s, consumer) => if s < |w.subs| then Left(w, s, consumer, coolDown) else w
    case Wake(t) =>
      if t < |w.tasks| && w.tasks[t].owner < |w.subs| then
        var phase := if w.subs[w.tasks[t].owner].consumers != {} then Ended else AtLock;
        w.(tasks := w.tasks[t := w.tasks[t].(phase := phase)])
      else w
    case Teardown(t, guarded) =>
      if t < |w.tasks| && w.tasks[t].owner < |w.subs| then
        var v := w.(tasks := Ending(w.tasks, Some(t)));
        if w.subs[w.tasks[t].owner].consumers == {} then Taken(v, w.tasks[t].owner, guarded) else v
      else w
    case Publish(key, event) =>
      if key in w.registry && w.registry[key] < |w.subs| then
        var s := w.registry[key];
        w.(subs := w.subs[s := w.subs[s].(log := w.subs[s].log + [event])])
      else w
    case Pass(now) => w.(clock := now)
  }

  // Iterators detach once, tasks wake when their time has come, and the clock does not run backwards.
  ghost predicate Legal<K(!new), E(!new)>(w: World<K, E>, e: Step<K, E>) {
    match e
    case Detach(s, consumer) => s < |w.subs| && consumer in w.subs[s].consumers
    case Wake(t) => t < |w.tasks| && w.tasks[t].phase.Sleeping? && w.tasks[t].phase.deadline <= w.clock
    case Teardown(t, _) => t < |w.tasks| && w.tasks[t].phase == AtLock
    case Pass(now) => w.clock <= now
    case _ => true
  }

  function Run<K, E>(w: World<K, E>, steps: seq<Step<K, E>>, coolDown: nat): World<K, E> {
    if steps == [] then w
    else Advance(Run(w, steps[..|steps| - 1], coolDown), steps[|steps| - 1], coolDown)
  }

  ghost predicate LegalRun<K(!new), E(!new)>(w: World<K, E>, steps: seq<Step<K, E>>, coolDown: nat) {
    steps != [] ==>
      LegalRun(w, steps[..|steps| - 1], coolDown) &&
      Legal(Run(w, steps[..|steps| - 1], coolDown), steps[|steps| - 1])
  }

  // ---- What every interleaving keeps ----

  ghost predicate Live<K(!new), E(!new)>(w: World<K, E>, t: nat) {
    t < |w.tasks| && w.tasks[t].phase != Ended
  }

  // The cool-down's subscription is idle and registered, and this is the only cool-down it has.
  ghost predicate Known<K(!new), E(!new)>(w: World<K, E>, t: nat)
    requires t < |w.tasks|
  {
    var s := w.tasks[t].owner;
    Registered(w, s) && w.subs[s].consumers == {} && w.subs[s].coolDown == Some(t)
  }

  // A cool-down that will take the subscription away is under way.
  ghost predicate Cooling<K(!new), E(!new)>(w: World<K, E>, s: nat)
    requires s < |w.subs|
  {
    w.subs[s].coolDown.Some? && Live(w, w.subs[s].coolDown.value) && w.tasks[w.subs[s].coolDown.value].owner == s
  }

  ghost predicate Inv<K(!new), E(!new)>(w: World<K, E>) {
    && (forall k :: k in w.registry ==> w.registry[k] < |w.subs| && w.subs[w.registry[k]].key == k)
    && (forall s: nat :: s < |w.subs| && w.subs[s].consumers != {} ==> Registered(w, s) && w.subs[s].coolDown == None)
    && (forall t: nat :: Live(w, t) ==> Known(w, t))
    && (forall s: nat :: Registered(w, s) && w.subs[s].consumers == {} ==> Cooling(w, s))
  }

  lemma {:induction false} AttachKeepsInv<K(!new), E(!new)>(w: World<K, E>, key: K, consumer: string)
    requires Inv(w)
    ensures Inv(Advance(w, Attach(key, consumer), 0))
  {
    var v := Opened(w, key);
    var s := v.registry[key];
    var u := Joined(v, s, consumer);
    assert forall k :: k in w.registry ==> w.registry[k] < |w.subs|;
    forall t: nat | Live(u, t)
      ensures Known(u, t)
    {
      assert Live(w, t);
    }
    forall i: nat | Registered(u, i) && u.subs[i].consumers == {}
      ensures Cooling(u, i)
    {
      assert i != s && Registered(w, i);
      assert Cooling(w, i);
      assert s < |w.subs| ==> Registered(w, s);
    }
  }

  lemma {:induction false} DetachKeepsInv<K(!new), E(!new)>(w: World<K, E>, s: nat, consumer: string, coolDown: nat)
    requires Inv(w) && Legal(w, Detach(s, consumer))
    ensures Inv(Advance(w, Detach(s, consumer), coolDown))
  {
    var u := Left(w, s, consumer, coolDown);
    assert Registered(w, s);
    forall t: nat | Live(u, t)
      ensures Known(u, t)
    {
      if t < |w.tasks| { assert Live(w, t); }
    }
    forall i: nat | Registered(u, i) && u.subs[i].consumers == {}
      ensures Cooling(u, i)
    {
      if i != s { assert Registered(w, i); }
    }
  }

  /** When a consumer leaves, it and nobody else is gone, and a cool-down of the full length starts
    * exactly if it was the last one.
    */
  lemma {:induction false} LastToLeaveStartsCoolDown<K(!new), E(!new)>(w: World<K, E>, s: nat, consumer: string, coolDown: nat,
                                                                       u: World<K, E>)
    requires s < |w.subs| && consumer in w.subs[s].consumers && u == Advance(w, Detach(s, consumer), coolDown)
    ensures |u.subs| == |w.subs| && u.registry == w.registry
    ensures forall c :: c in u.subs[s].consumers <==> c in w.subs[s].consumers && c != consumer
    ensures forall i :: 0 <= i < |w.subs| && i != s ==> u.subs[i] == w.subs[i]
    ensures u.tasks == w.tasks + if w.subs[s].consumers == {consumer} then [Task(s, Sleeping(w.clock + coolDown))] else []
    ensures w.subs[s].consumers == {consumer} ==> u.subs[s].coolDown == Some(|w.tasks|)
  {
    if w.subs[s].consumers != {consumer} {
      var other :| other in w.subs[s].consumers && other != consumer;
      assert other in u.subs[s].consumers;
    } else {
      assert w.subs[s].consumers - {consumer} == {};
    }
  }

  lemma {:induction false} OtherStepKeepsInv<K(!new), E(!new)>(w: World<K, E>, e: Step<K, E>, coolDown: nat)
    requires Inv(w) && Legal(w, e) && !e.Attach? && !e.Detach?
    ensures Inv(Advance(w, e, coolDown))
  {
    var u := Advance(w, e, coolDown);
    if e.Wake? || e.Teardown? { assert Live(w, e.task); }
    forall t: nat | Live(u, t)
      ensures Known(u, t)
    {
      assert Live(w, t);
    }
    forall i: nat | Registered(u, i) && u.subs[i].consumers == {}
      ensures Cooling(u, i)
    {
      assert Registered(w, i);
    }
  }

  lemma {:induction false} StepKeepsInv<K(!new), E(!new)>(w: World<K, E>, e: Step<K, E>, coolDown: nat)
    requires Inv(w) && Legal(w, e)
    ensures Inv(Advance(w, e, coolDown))
  {
    match e
    case Attach(key, consumer) => AttachKeepsInv(w, key, consumer);
    case Detach(s, consumer) => DetachKeepsInv(w, s, consumer, coolDown);
    case _ => OtherStepKeepsInv(w, e, coolDown);
  }

  lemma {:induction false} RunKeepsInv<K(!new), E(!new)>(w: World<K, E>, steps: seq<Step<K, E>>, coolDown: nat)
    requires Inv(w) && LegalRun(w, steps, coolDown)
    ensures Inv(Run(w, steps, coolDown))
  {
    if steps != [] {
      RunKeepsInv(w, steps[..|steps| - 1], coolDown);
      StepKeepsInv(Run(w, steps[..|steps| - 1], coolDown), steps[|steps| - 1], coolDown);
    }
  }

  /** Under every interleaving: a subscription with a consumer is the registered one for its key, at
    * most one cool-down per subscription is live, and every idle registered subscription has one.
    */
  lemma {:induction false} ProtocolHolds<K(!new), E(!new)>(start: int, steps: seq<Step<K, E>>, coolDown: nat)
    requires LegalRun(Empty(start), steps, coolDown)
    ensures var w := Run(Empty(start), steps, coolDown);
            && Inv(w)
            && (forall s: nat :: s < |w.subs| && w.subs[s].consumers != {} ==> Registered(w, s))
            && (forall t: nat, t': nat :: Live(w, t) && Live(w, t') && w.tasks[t].owner == w.tasks[t'].owner ==> t == t')
            && (forall s: nat :: Registered(w, s) && w.subs[s].consumers == {} ==> Cooling(w, s))
  {
    RunKeepsInv(Empty(start), steps, coolDown);
  }

  /** Whether or not it checks that it is still the registered one, a teardown takes exactly its own
    * subscription out of the registry: it never meets a consumer, and never a successor.
    */
  lemma {:induction false} TeardownTakesItsOwn<K(!new), E(!new)>(
      start: int, steps: seq<Step<K, E>>, coolDown: nat, t: nat, guarded: bool)
    requires LegalRun(Empty(start), steps, coolDown)
    requires Legal(Run(Empty(start), steps, coolDown), Teardown(t, guarded))
    ensures var w := Run(Empty(start), steps, coolDown);
            var s := w.tasks[t].owner;
            Registered(w, s) && w.subs[s].consumers == {} &&
            Advance(w, Teardown(t, guarded), coolDown).registry == w.registry - {w.subs[s].key}
  {
    RunKeepsInv(Empty(start), steps, coolDown);
    assert Live(Run(Empty(start), steps, coolDown), t);
  }

  // ---- A reconnect before the deadline ----

  // Subscription `s` is registered and stays so until `deadline` at least.
  ghost predicate Warm<K(!new), E(!new)>(w: World<K, E>, s: nat, deadline: int) {
    Registered(w, s) &&
    (w.subs[s].consumers == {} ==>
       w.subs[s].coolDown.Some? && w.subs[s].coolDown.value < |w.tasks| &&
       w.tasks[w.subs[s].coolDown.value].phase.Sleeping? &&
       w.tasks[w.subs[s].coolDown.value].phase.deadline >= deadline)
  }

  lemma {:induction false} StepStaysWarm<K(!new), E(!new)>(w: World<K, E>, e: Step<K, E>, coolDown: nat, s: nat, deadline: int)
    requires Inv(w) && Legal(w, e) && Warm(w, s, deadline) && w.clock < deadline
    requires deadline <= w.clock + coolDown
    ensures var u := Advance(w, e, coolDown);
            s < |u.subs| && w.subs[s].log <= u.subs[s].log && Warm(u, s, deadline)
  {
    if e.Wake? || e.Teardown? { assert Live(w, e.task); }
    if e.Attach? && e.key != w.subs[s].key && e.key in w.registry && w.subs[s].coolDown.Some? {
      var i := w.registry[e.key];
      assert Registered(w, i) && i != s;
      if w.subs[s].consumers == {} { assert Cooling(w, s); }
      if w.subs[i].consumers == {} { assert Cooling(w, i); }
    }
  }

  lemma {:induction false} RunStaysWarm<K(!new), E(!new)>(w: World<K, E>, steps: seq<Step<K, E>>, coolDown: nat, s: nat, deadline: int)
    requires Inv(w) && Warm(w, s, deadline) && deadline <= w.clock + coolDown
    requires LegalRun(w, steps, coolDown) && Run(w, steps, coolDown).clock < deadline
    ensures var u := Run(w, steps, coolDown);
            s < |u.subs| && w.subs[s].log <= u.subs[s].log && Warm(u, s, deadline) && w.clock <= u.clock
            && u.subs[s].key == w.subs[s].key
  {
    if steps != [] {
      var last := |steps| - 1;
      var v := Run(w, steps[..last], coolDown);
      assert v.clock <= Run(w, steps, coolDown).clock;
      RunStaysWarm(w, steps[..last], coolDown, s, deadline);
      RunKeepsInv(w, steps[..last], coolDown);
      StepStaysWarm(v, steps[last], coolDown, s, deadline);
    }
  }

  lemma {:induction false} RunConcat<K(!new), E(!new)>(w: World<K, E>, a: seq<Step<K, E>>, b: seq<Step<K, E>>, coolDown: nat)
    ensures Run(w, a + b, coolDown) == Run(Run(w, a, coolDown), b, coolDown)
    ensures LegalRun(w, a + b, coolDown) ==> LegalRun(w, a, coolDown) && LegalRun(Run(w, a, coolDown), b, coolDown)
    decreases |b|
  {
    if b == [] {
      assert a + b == a;
    } else {
      assert (a + b)[..|a + b| - 1] == a + b[..|b| - 1];
      RunConcat(w, a, b[..|b| - 1], coolDown);
    }
  }

  /** A subscriber that comes back less than a cool-down after a consumer left joins the very same
    * subscription, and everything that was published before is still on its log.
    */
  lemma {:induction false} ReconnectJoinsTheSame<K(!new), E(!new)>(
      start: int, before: seq<Step<K, E>>, s: nat, consumer: string, after: seq<Step<K, E>>, coolDown: nat,
      w: World<K, E>, u: World<K, E>)
    requires LegalRun(Empty(start), before + [Detach(s, consumer)] + after, coolDown)
    requires w == Run(Empty(start), before, coolDown)
    requires u == Run(Empty(start), before + [Detach(s, consumer)] + after, coolDown)
    requires u.clock < w.clock + coolDown
    ensures s < |w.subs| && Registered(u, s) && u.subs[s].key == w.subs[s].key && w.subs[s].log <= u.subs[s].log
    ensures Opened(u, w.subs[s].key) == u && u.registry[w.subs[s].key] == s
  {
    RunConcat(Empty(start), before + [Detach(s, consumer)], after, coolDown);
    RunConcat(Empty(start), before, [Detach(s, consumer)], coolDown);
    var leave: seq<Step<K, E>> := [Detach(s, consumer)];
    assert leave[..0] == [];
    var v := Run(w, leave, coolDown);
    assert v == Advance(w, Detach(s, consumer), coolDown);
    RunKeepsInv(Empty(start), before, coolDown);
    StepKeepsInv(w, Detach(s, consumer), coolDown);
    assert Warm(v, s, w.clock + coolDown);
    RunStaysWarm(v, after, coolDown, s, w.clock + coolDown);
  }
}
