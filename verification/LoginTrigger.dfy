/** Starting the login sidecar (cp/auto_login_trigger.py), asked by the tickle loop and by operators.
  *
  * `maybe_trigger` is split at the await on the sidecar, so that any number of callers may be
  * suspended there at once.
  */
module LoginTrigger {
  import opened Options
  import T = LoginThrottle

  datatype AuthStatus = OK | REAUTH_PENDING | AUTH_LOST | CP_DOWN | TWS_DOWN | SESSION_LOST

  datatype StackKind = Paper | Live

  datatype Setup = Setup(throttle: T.Config, enabled: bool, stackKind: StackKind)

  datatype Skip = ManualIntervention | Disabled | WrongStack | HealthyStatus(status: AuthStatus)
    | Throttled(reason: T.Reason) | ThrottleCrashed

  const EXIT_SUCCESS := 0
  const EXIT_TWO_FACTOR := 4

  // The checks made before the throttle is asked.
  function Guard(enabled: bool, stackKind: StackKind, manual: bool, status: AuthStatus): Option<Skip> {
    if manual then Some(ManualIntervention)
    else if !enabled then Some(Disabled)
    else if stackKind != Paper then Some(WrongStack)
    else if status != AUTH_LOST && status != CP_DOWN then Some(HealthyStatus(status))
    else None
  }

  class AutoLoginTrigger {
    const throttle: T.AutoLoginThrottle
    const enabled: bool
    const stackKind: StackKind
    var manualInterventionRequired: bool
    // The slice of the lifecycle that the trigger writes.
    var failuresTotal: nat
    var lastAttemptAt: Option<int>
    var lastSuccessAt: Option<int>

    constructor (throttle: T.AutoLoginThrottle, enabled: bool, stackKind: StackKind)
      ensures this.throttle == throttle && this.enabled == enabled && this.stackKind == stackKind
      ensures !manualInterventionRequired && failuresTotal == 0
    {
      this.throttle, this.enabled, this.stackKind := throttle, enabled, stackKind;
      manualInterventionRequired, failuresTotal, lastAttemptAt, lastSuccessAt := false, 0, None, None;
    }

    // Up to the await: None means that the sidecar was started.
    method Begin(now: int, status: AuthStatus) returns (skipped: Option<Skip>)
      requires throttle.Valid()
      modifies this`lastAttemptAt, throttle
      ensures throttle.Valid()
      ensures var guard := Guard(enabled, stackKind, manualInterventionRequired, status);
              if guard.Some? then skipped == guard && throttle.Abs() == old(throttle.Abs())
              else throttle.Abs() == T.AfterAsk(throttle.config, old(throttle.Abs()), now) &&
                   (skipped.None? <==> T.Later(throttle.config, old(throttle.Abs()), now) == T.Allowed)
      ensures lastAttemptAt == if skipped.None? then Some(now) else old(lastAttemptAt)
      ensures skipped == Some(ManualIntervention) <==> manualInterventionRequired
      ensures skipped == Some(Disabled) <==> !manualInterventionRequired && !enabled
      ensures skipped == Some(WrongStack) <==> !manualInterventionRequired && enabled && stackKind == Live
      ensures (skipped.Some? && skipped.value.HealthyStatus?) <==>
              !manualInterventionRequired && enabled && stackKind == Paper && status !in {AUTH_LOST, CP_DOWN}
      ensures skipped.Some? && skipped.value.Throttled? ==>
              var answer := T.Later(throttle.config, old(throttle.Abs()), now);
              answer.Refused? && answer.reason == skipped.value.reason
    {
      if manualInterventionRequired { return Some(ManualIntervention); }
      if !enabled { return Some(Disabled); }
      if stackKind != Paper { return Some(WrongStack); }
      if status != AUTH_LOST && status != CP_DOWN { return Some(HealthyStatus(status)); }
      var decision := throttle.Attempt(now);
      match decision
      case Refused(reason, _) => return Some(Throttled(reason));
      case IndexError => return Some(ThrottleCrashed);
      case Allowed =>
        lastAttemptAt := Some(now);
        return None;
    }

    // After the await: the sidecar ended with `exit`; a crash of the runner counts as exit 9.
    method Finish(now: int, exit: int)
      requires throttle.Valid()
      modifies this`failuresTotal, this`lastSuccessAt, this`manualInterventionRequired, throttle
      ensures throttle.Valid()
      ensures manualInterventionRequired == (old(manualInterventionRequired) || exit == EXIT_TWO_FACTOR)
      ensures failuresTotal == old(failuresTotal) + if exit == EXIT_SUCCESS then 0 else 1
      ensures lastSuccessAt == if exit == EXIT_SUCCESS then Some(now) else old(lastSuccessAt)
      ensures var closed := T.AfterClose(old(throttle.Abs()), exit == EXIT_SUCCESS);
              throttle.Abs() == if exit == EXIT_TWO_FACTOR then closed else T.Purged(closed, now)
    {
      if exit == EXIT_TWO_FACTOR {
        manualInterventionRequired := true;
        throttle.RecordFailure();
        failuresTotal := failuresTotal + 1;
        return;
      }
      if exit == EXIT_SUCCESS {
        throttle.RecordSuccess();
        lastSuccessAt := Some(now);
        var _ := throttle.State(now);
        return;
      }
      throttle.RecordFailure();
      failuresTotal := failuresTotal + 1;
      var _ := throttle.State(now);
    }
  }

  // ---- Whole runs: any interleaving of callers ----

  // A sidecar is named by the position of its own attempt in the throttle's history.
  datatype Event = Ask(now: int, status: AuthStatus) | Finish(slot: nat, now: int, exit: int)

  // `results` holds what each sidecar itself reported; None while it is still running.
  datatype World = World(t: T.World, manual: bool, results: seq<Option<bool>>, inFlight: set<nat>,
                         successes: nat, failuresTotal: nat)

  ghost predicate Legal(w: World, e: Event) {
    w.t.clock <= e.now && (e.Finish? ==> e.slot in w.inFlight)
  }

  // Every running sidecar is younger than the throttle's minimum interval.
  ghost predicate Prompt(setup: Setup, w: World, e: Event) {
    forall k: nat :: k in w.inFlight && k < |w.t.history| ==>
      e.now < w.t.history[k].at + setup.throttle.minInterval
  }

  // The throttle moved on to `t`; if that took a new attempt on record, a sidecar was started for it.
  ghost function Asked(w: World, t: T.World): World {
    if |t.history| == |w.t.history| then w.(t := t)
    else w.(t := t, results := w.results + [None], inFlight := w.inFlight + {|w.t.history|})
  }

  ghost function Advance(setup: Setup, w: World, e: Event): World {
    match e
    case Ask(now, status) =>
      if Guard(setup.enabled, setup.stackKind, w.manual, status).Some? then w
      else
        Asked(w, T.Advance(setup.throttle, w.t, T.Ask(now)))
    case Finish(slot, now, exit) =>
      var ok := exit == EXIT_SUCCESS;
      World(Settled(setup.throttle, w.t, now, exit),
            w.manual || exit == EXIT_TWO_FACTOR,
            if slot < |w.results| then w.results[slot := Some(ok)] else w.results,
            w.inFlight - {slot},
            w.successes + if ok then 1 else 0,
            w.failuresTotal + if ok then 0 else 1)
  }

  ghost function Run(setup: Setup, start: int, events: seq<Event>): World {
    if events == [] then World(T.World(T.FRESH, [], 0, start), false, [], {}, 0, 0)
    else Advance(setup, Run(setup, start, events[..|events| - 1]), events[|events| - 1])
  }

  ghost predicate LegalRun(setup: Setup, start: int, events: seq<Event>) {
    events != [] ==>
      LegalRun(setup, start, events[..|events| - 1]) &&
      Legal(Run(setup, start, events[..|events| - 1]), events[|events| - 1])
  }

  ghost predicate PromptRun(setup: Setup, start: int, events: seq<Event>) {
    events != [] ==>
      PromptRun(setup, start, events[..|events| - 1]) &&
      Prompt(setup, Run(setup, start, events[..|events| - 1]), events[|events| - 1])
  }

  // ---- The object is what the runs are about ----

  ghost predicate Represents(trigger: AutoLoginTrigger, setup: Setup, w: World)
    reads trigger, trigger.throttle
  {
    && trigger.throttle.Valid() && trigger.throttle.config == setup.throttle
    && trigger.enabled == setup.enabled && trigger.stackKind == setup.stackKind
    && trigger.throttle.Abs() == w.t.s
    && trigger.manualInterventionRequired == w.manual && trigger.failuresTotal == w.failuresTotal
  }

  lemma {:induction false} AskMovesThrottle(setup: Setup, w: World, now: int, status: AuthStatus)
    requires Guard(setup.enabled, setup.stackKind, w.manual, status).None?
    ensures Advance(setup, w, Ask(now, status)).t.s == T.AfterAsk(setup.throttle, w.t.s, now)
    ensures |Advance(setup, w, Ask(now, status)).results| > |w.results| <==>
            T.Later(setup.throttle, w.t.s, now) == T.Allowed
  {
    T.AdvanceIsTheObject(setup.throttle, w.t, T.Ask(now));
  }

  lemma {:induction false} FinishMovesThrottle(setup: Setup, w: World, slot: nat, now: int, exit: int)
    ensures var closed := T.AfterClose(w.t.s, exit == EXIT_SUCCESS);
            Advance(setup, w, Finish(slot, now, exit)).t.s ==
            if exit == EXIT_TWO_FACTOR then closed else T.Purged(closed, now)
  {
    var close := if exit == EXIT_SUCCESS then T.Success else T.Failure;
    T.AdvanceIsTheObject(setup.throttle, w.t, close);
    T.AdvanceIsTheObject(setup.throttle, T.Advance(setup.throttle, w.t, close), T.Peek(now));
  }

  // One event on the object takes its world one step further.
  method Perform(trigger: AutoLoginTrigger, setup: Setup, ghost w: World, e: Event) returns (launched: bool)
    requires Represents(trigger, setup, w)
    modifies trigger, trigger.throttle
    ensures Represents(trigger, setup, Advance(setup, w, e))
    ensures launched <==> |Advance(setup, w, e).results| > |w.results|
  {
    match e
    case Ask(now, status) =>
      if Guard(trigger.enabled, trigger.stackKind, trigger.manualInterventionRequired, status).None? {
        AskMovesThrottle(setup, w, now, status);
      }
      var skipped := trigger.Begin(now, status);
      launched := skipped.None?;
    case Finish(slot, now, exit) =>
      FinishMovesThrottle(setup, w, slot, now, exit);
      trigger.Finish(now, exit);
      launched := false;
  }

  // Every launch is running, or was counted once.
  ghost predicate Books(launches: nat, results: seq<Option<bool>>, inFlight: set<nat>, ended: nat) {
    && |results| == launches
    && (forall k: nat :: k in inFlight <==> k < |results| && results[k].None?)
    && launches == ended + |inFlight|
  }

  // Launches are the grants of the throttle.
  ghost predicate Balanced(w: World) {
    Books(|w.t.history|, w.results, w.inFlight, w.successes + w.failuresTotal)
  }

  ghost predicate Reported(outcome: T.Outcome, result: Option<bool>) {
    outcome == match result case None => T.Open case Some(ok) => if ok then T.Succeeded else T.Failed
  }

  // At most the newest sidecar runs, and every attempt carries its own sidecar's result.
  ghost predicate OneAtATime(w: World) {
    && |w.results| == |w.t.history|
    && (forall k: nat :: k in w.inFlight ==> k == |w.t.history| - 1 && w.t.dropped <= k)
    && (forall k :: 0 <= k < |w.t.history| ==> Reported(w.t.history[k].outcome, w.results[k]))
  }

  lemma {:induction false} BookLaunch(launches: nat, results: seq<Option<bool>>, inFlight: set<nat>, ended: nat)
    requires Books(launches, results, inFlight, ended)
    ensures Books(launches + 1, results + [None], inFlight + {launches}, ended)
  {
    assert launches !in inFlight;
  }

  lemma {:induction false} BookResult(launches: nat, results: seq<Option<bool>>, inFlight: set<nat>, ended: nat, k: nat, ok: bool)
    requires Books(launches, results, inFlight, ended) && k in inFlight
    ensures Books(launches, results[k := Some(ok)], inFlight - {k}, ended + 1)
  {
  }

  lemma {:induction false} AskedIsBalanced(w: World, t: T.World)
    requires Balanced(w) && |w.t.history| <= |t.history| <= |w.t.history| + 1
    ensures Balanced(Asked(w, t))
  {
    BookLaunch(|w.t.history|, w.results, w.inFlight, w.successes + w.failuresTotal);
  }

  // The throttle's side of a completion.
  ghost function Settled(cfg: T.Config, t: T.World, now: int, exit: int): T.World {
    var closed := T.Advance(cfg, t, if exit == EXIT_SUCCESS then T.Success else T.Failure);
    if exit == EXIT_TWO_FACTOR then closed else T.Advance(cfg, closed, T.Peek(now))
  }

  lemma {:induction false} SettlingGrows(cfg: T.Config, t: T.World, now: int, exit: int)
    requires t.clock <= now
    ensures var v := Settled(cfg, t, now, exit);
            |v.history| == |t.history| && t.clock <= v.clock <= now &&
            forall i :: 0 <= i < |t.history| ==> v.history[i].at == t.history[i].at
  {
    var close := if exit == EXIT_SUCCESS then T.Success else T.Failure;
    T.HistoryGrows(cfg, t, close);
    T.HistoryGrows(cfg, T.Advance(cfg, t, close), T.Peek(now));
  }

  lemma {:induction false} SettlingKeepsInv(cfg: T.Config, t: T.World, now: int, exit: int)
    requires T.Inv(cfg, t) && t.clock <= now
    ensures T.Inv(cfg, Settled(cfg, t, now, exit))
  {
    var close := if exit == EXIT_SUCCESS then T.Success else T.Failure;
    T.StepKeepsInv(cfg, t, close);
    T.HistoryGrows(cfg, t, close);
    T.StepKeepsInv(cfg, T.Advance(cfg, t, close), T.Peek(now));
  }

  lemma {:induction false} StepIsBalanced(setup: Setup, w: World, e: Event)
    requires Balanced(w) && Legal(w, e)
    ensures Balanced(Advance(setup, w, e))
  {
    match e
    case Ask(now, _) =>
      T.HistoryGrows(setup.throttle, w.t, T.Ask(now));
      AskedIsBalanced(w, T.Advance(setup.throttle, w.t, T.Ask(now)));
    case Finish(slot, now, exit) =>
      SettlingGrows(setup.throttle, w.t, now, exit);
      BookResult(|w.t.history|, w.results, w.inFlight, w.successes + w.failuresTotal, slot, exit == EXIT_SUCCESS);
  }

  lemma {:induction false} StepKeepsThrottle(setup: Setup, w: World, e: Event)
    requires T.Inv(setup.throttle, w.t) && Legal(w, e)
    ensures T.Inv(setup.throttle, Advance(setup, w, e).t)
  {
    match e
    case Ask(now, _) => T.StepKeepsInv(setup.throttle, w.t, T.Ask(now));
    case Finish(_, now, exit) => SettlingKeepsInv(setup.throttle, w.t, now, exit);
  }

  /** Whatever the sidecars do and however many overlap: launches = successes + failures + running. */
  lemma {:induction false} LaunchesAreConserved(setup: Setup, start: int, events: seq<Event>)
    requires LegalRun(setup, start, events)
    ensures var w := Run(setup, start, events);
            T.Inv(setup.throttle, w.t) && Balanced(w) &&
            |w.t.history| == w.successes + w.failuresTotal + |w.inFlight|
  {
    if events != [] {
      var last := |events| - 1;
      LaunchesAreConserved(setup, start, events[..last]);
      StepIsBalanced(setup, Run(setup, start, events[..last]), events[last]);
      StepKeepsThrottle(setup, Run(setup, start, events[..last]), events[last]);
    }
  }

  // While a sidecar younger than the minimum interval runs, the throttle grants nothing.
  lemma {:induction false} RunningBlocks(cfg: T.Config, t: T.World, now: int)
    requires cfg.minInterval <= T.DAY && T.Remembers(t) && t.dropped < |t.history| && t.clock <= now
    requires var last := t.history[|t.history| - 1];
             last.outcome == T.Open && now < last.at + cfg.minInterval
    ensures T.Forgotten(t, now).dropped < |t.history|
    ensures T.Advance(cfg, t, T.Ask(now)) == T.Forgotten(t, now)
  {
    T.LastIsKept(t, now);
  }

  lemma {:induction false} IdleAsk(w: World, t: T.World, now: int)
    requires OneAtATime(w) && w.inFlight == {}
    requires t.history == w.t.history || t.history == w.t.history + [T.Grant(now, T.Open)]
    requires t.history != [] && |t.history| > |w.t.history| ==> t.dropped <= |w.t.history|
    ensures OneAtATime(Asked(w, t))
  {
  }

  lemma {:induction false} BusyAsk(cfg: T.Config, w: World, now: int)
    requires cfg.minInterval <= T.DAY && T.Remembers(w.t) && w.t.clock <= now
    requires Balanced(w) && OneAtATime(w) && w.inFlight != {}
    requires forall k: nat :: k in w.inFlight && k < |w.t.history| ==> now < w.t.history[k].at + cfg.minInterval
    ensures OneAtATime(Asked(w, T.Advance(cfg, w.t, T.Ask(now))))
  {
    var k :| k in w.inFlight;
    RunningBlocks(cfg, w.t, now);
  }

  lemma {:induction false} AskKeepsOneAtATime(setup: Setup, w: World, e: Event)
    requires setup.throttle.minInterval <= T.DAY && T.Inv(setup.throttle, w.t) && Balanced(w)
    requires OneAtATime(w) && Legal(w, e) && Prompt(setup, w, e) && e.Ask?
    ensures OneAtATime(Advance(setup, w, e))
  {
    if w.inFlight != {} {
      BusyAsk(setup.throttle, w, e.now);
    } else {
      var t := T.Advance(setup.throttle, w.t, T.Ask(e.now));
      T.StepKeepsInv(setup.throttle, w.t, T.Ask(e.now));
      T.HistoryGrows(setup.throttle, w.t, T.Ask(e.now));
      T.GrantIsRemembered(setup.throttle, w.t, e.now);
      IdleAsk(w, t, e.now);
    }
  }

  lemma {:induction false} SettlingReports(cfg: T.Config, t: T.World, now: int, exit: int)
    requires T.PendingIsLast(t.s) && T.Remembers(t) && t.dropped < |t.history|
    requires t.history[|t.history| - 1].outcome == T.Open
    ensures var v := Settled(cfg, t, now, exit);
            v.history == t.history[|t.history| - 1 := t.history[|t.history| - 1].(outcome :=
                           if exit == EXIT_SUCCESS then T.Succeeded else T.Failed)]
  {
    assert t.s.attempts[|t.s.attempts| - 1] == t.history[|t.history| - 1];
  }

  lemma {:induction false} FinishKeepsOneAtATime(setup: Setup, w: World, e: Event)
    requires T.Inv(setup.throttle, w.t) && Balanced(w)
    requires OneAtATime(w) && Legal(w, e) && e.Finish?
    ensures OneAtATime(Advance(setup, w, e))
  {
    SettlingReports(setup.throttle, w.t, e.now, e.exit);
  }

  /** If every sidecar run is shorter than the minimum interval, then under any interleaving of
    * callers at most one runs at a time, and its completion closes exactly its own attempt.
    */
  lemma {:induction false} SidecarsRunAlone(setup: Setup, start: int, events: seq<Event>)
    requires setup.throttle.minInterval <= T.DAY
    requires LegalRun(setup, start, events) && PromptRun(setup, start, events)
    ensures var w := Run(setup, start, events);
            OneAtATime(w) && |w.inFlight| <= 1 &&
            forall k :: 0 <= k < |w.t.history| ==> Reported(w.t.history[k].outcome, w.results[k])
  {
    var w' := Run(setup, start, events);
    if events != [] {
      var last := |events| - 1;
      SidecarsRunAlone(setup, start, events[..last]);
      LaunchesAreConserved(setup, start, events[..last]);
      var w := Run(setup, start, events[..last]);
      if events[last].Ask? { AskKeepsOneAtATime(setup, w, events[last]); }
      else { FinishKeepsOneAtATime(setup, w, events[last]); }
    }
    assert w'.inFlight <= {|w'.t.history| - 1};
  }

  /** Once a sidecar reported that a second factor is demanded, nothing is launched again. */
  lemma {:induction false} TwoFactorStopsForGood(setup: Setup, start: int, before: seq<Event>, after: seq<Event>)
    requires Run(setup, start, before).manual
    ensures Run(setup, start, before + after).manual
    ensures |Run(setup, start, before + after).t.history| == |Run(setup, start, before).t.history|
    decreases |after|
  {
    if after == [] {
      assert before + after == before;
    } else {
      var last := |after| - 1;
      TwoFactorStopsForGood(setup, start, before, after[..last]);
      assert (before + after)[..|before + after| - 1] == before + after[..last];
    }
  }

  // The shortest wait between two grants, whatever the outcomes.
  ghost predicate ShorterThanEveryCooldown(cfg: T.Config, span: int) {
    span < cfg.minInterval && forall i :: 0 <= i < |cfg.backoffLevels| ==> span < cfg.backoffLevels[i]
  }

  lemma {:induction false} GapBetweenGrants(cfg: T.Config, history: seq<T.Grant>, i: nat, span: int)
    requires T.Cooled(cfg, history) && 0 < i < |history| && ShorterThanEveryCooldown(cfg, span) && span <= T.DAY
    ensures history[i].at - history[i - 1].at > span
  {
    assert history[i].at - history[i - 1].at >= T.Enforced(T.Owed(cfg, history[..i]));
  }

  // `w` is what `v` became: old grants kept their times, new ones were made between `from` and `to`.
  ghost predicate Grew(v: T.World, w: T.World, from: int, to: int) {
    && |v.history| <= |w.history|
    && (forall k :: 0 <= k < |v.history| ==> w.history[k].at == v.history[k].at)
    && (forall k :: |v.history| <= k < |w.history| ==> from <= w.history[k].at <= to)
  }

  lemma {:induction false} GrewTwice(u: T.World, v: T.World, w: T.World, from: int, to: int, later: int)
    requires Grew(u, v, from, to) && Grew(v, w, later, later) && from <= to <= later
    ensures Grew(u, w, from, later)
  {
  }

  lemma {:induction false} StepGrows(setup: Setup, w: World, e: Event)
    requires Legal(w, e)
    ensures Grew(w.t, Advance(setup, w, e).t, e.now, e.now)
  {
    match e
    case Ask(now, _) => T.HistoryGrows(setup.throttle, w.t, T.Ask(now));
    case Finish(_, now, exit) => SettlingGrows(setup.throttle, w.t, now, exit);
  }

  // The events of a tick follow one another in time.
  ghost predicate InOrder(tick: seq<Event>) {
    forall i, j :: 0 <= i <= j < |tick| ==> tick[i].now <= tick[j].now
  }

  lemma {:induction false} InOrderPrefix(tick: seq<Event>, n: nat)
    requires InOrder(tick) && n <= |tick|
    ensures InOrder(tick[..n])
  {
  }

  lemma {:induction false} LaunchTimes(setup: Setup, start: int, before: seq<Event>, tick: seq<Event>)
    requires tick != [] && InOrder(tick) && LegalRun(setup, start, before + tick)
    ensures Grew(Run(setup, start, before).t, Run(setup, start, before + tick).t, tick[0].now, tick[|tick| - 1].now)
    decreases |tick|
  {
    var last := |tick| - 1;
    assert (before + tick)[..|before + tick| - 1] == before + tick[..last];
    var v := Run(setup, start, before + tick[..last]);
    StepGrows(setup, v, tick[last]);
    if last == 0 {
      assert before + tick[..last] == before;
    } else {
      assert tick[..last][0] == tick[0] && tick[..last][last - 1] == tick[last - 1];
      InOrderPrefix(tick, last);
      LaunchTimes(setup, start, before, tick[..last]);
      GrewTwice(Run(setup, start, before).t, v.t, Advance(setup, v, tick[last]).t,
                tick[0].now, tick[last - 1].now, tick[last].now);
    }
  }

  /** One tick launches at most once: the login trigger may be asked any number of times (the path
    * for an unauthorised tickle asks twice), but two launches are a whole cool-down apart, and a tick
    * does not last that long.
    */
  lemma {:induction false} OneLaunchPerTick(setup: Setup, start: int, before: seq<Event>, tick: seq<Event>)
    requires LegalRun(setup, start, before + tick) && tick != [] && InOrder(tick)
    requires var span := tick[|tick| - 1].now - tick[0].now;
             ShorterThanEveryCooldown(setup.throttle, span) && span <= T.DAY
    ensures |Run(setup, start, before + tick).t.history| <= |Run(setup, start, before).t.history| + 1
  {
    LaunchTimes(setup, start, before, tick);
    LaunchesAreConserved(setup, start, before + tick);
    var w, v := Run(setup, start, before + tick).t, Run(setup, start, before).t;
    if |w.history| > |v.history| + 1 {
      GapBetweenGrants(setup.throttle, w.history, |v.history| + 1, tick[|tick| - 1].now - tick[0].now);
    }
  }

  // ---- Who may start a sidecar ----

  lemma {:induction false} StepLaunches(setup: Setup, w: World, e: Event)
    ensures |Advance(setup, w, e).results| > |w.results| <==>
            && e.Ask? && setup.enabled && setup.stackKind == Paper && !w.manual
            && (e.status == AUTH_LOST || e.status == CP_DOWN)
            && T.Later(setup.throttle, w.t.s, e.now) == T.Allowed
  {
    if e.Ask? { T.HistoryGrows(setup.throttle, w.t, T.Ask(e.now)); }
  }

  lemma {:induction false} ManualExactlyWhen(setup: Setup, start: int, events: seq<Event>)
    ensures Run(setup, start, events).manual <==>
            exists i :: 0 <= i < |events| && events[i].Finish? && events[i].exit == 4
  {
    if events != [] {
      var last := |events| - 1;
      ManualExactlyWhen(setup, start, events[..last]);
      assert events == events[..last] + [events[last]];
    }
  }

  /** In every run, an event launches a sidecar exactly if it is an ask, automatic logins are enabled, the
    * stack is the paper one, no sidecar reported a demand for a second factor before, the session is lost
    * or the gateway down, and the throttle allows it.
    */
  lemma {:induction false} LaunchesExactlyWhen(setup: Setup, start: int, events: seq<Event>, e: Event, w: World)
    requires w == Run(setup, start, events)
    ensures |Advance(setup, w, e).results| > |w.results| <==>
            && e.Ask? && setup.enabled && setup.stackKind == Paper
            && !(exists i :: 0 <= i < |events| && events[i].Finish? && events[i].exit == 4)
            && (e.status == AUTH_LOST || e.status == CP_DOWN)
            && T.Later(setup.throttle, w.t.s, e.now) == T.Allowed
  {
    ManualExactlyWhen(setup, start, events);
    StepLaunches(setup, w, e);
  }

  // ---- Sidecars that outlive the minimum interval ----

  // What keeps the throttle from granting at `now`, told from the attempts it still remembers.
  ghost predicate Overtakes(cfg: T.Config, t: T.World, now: int)
    requires t.history != []
  {
    var last, kept := t.history[|t.history| - 1], T.Kept(t.s.attempts, now - T.DAY);
    && (now >= last.at + cfg.minInterval || last.at < now - T.DAY)
    && |kept| < cfg.maxPerDay
    && |T.Since(kept, now - T.HOUR)| < cfg.maxPerHour
  }

  lemma {:induction false} OpenLastVerdict(cfg: T.Config, p: T.Memory, now: int)
    requires p.attempts != [] ==> p.attempts[|p.attempts| - 1].outcome == T.Open
    ensures T.Verdict(cfg, p, now) == T.Allowed <==>
            && |p.attempts| < cfg.maxPerDay && |T.Since(p.attempts, now - T.HOUR)| < cfg.maxPerHour
            && (p.attempts == [] || now >= p.attempts[|p.attempts| - 1].at + cfg.minInterval)
  {
  }

  lemma {:induction false} OpenVerdict(cfg: T.Config, t: T.World, now: int)
    requires T.PendingIsLast(t.s) && T.Remembers(t) && t.clock <= now
    requires t.history != [] && t.history[|t.history| - 1].outcome == T.Open
    ensures T.Later(cfg, t.s, now) == T.Allowed <==> Overtakes(cfg, t, now)
  {
    if t.history[|t.history| - 1].at < now - T.DAY {
      NothingIsKept(t, now);
    } else {
      assert t.dropped < |t.history|;
      T.LastIsKept(t, now);
    }
    OpenLastVerdict(cfg, T.Purged(t.s, now), now);
  }

  lemma {:induction false} NothingIsKept(t: T.World, now: int)
    requires T.Remembers(t) && t.history != [] && t.history[|t.history| - 1].at < now - T.DAY
    ensures T.Kept(t.s.attempts, now - T.DAY) == []
  {
    var a := t.s.attempts;
    T.RemembersSorted(t);
    if a != [] {
      assert a[|a| - 1] == t.history[|t.history| - 1];
      T.PurgeAt(a, now - T.DAY, |a| - 1);
    }
  }

  /** While the newest attempt has no outcome yet, another sidecar is launched exactly when the minimum
    * interval has passed since that attempt (or the throttle has forgotten it) and neither limit is
    * reached.
    */
  lemma {:induction false} OvertakenExactlyWhen(setup: Setup, start: int, events: seq<Event>, now: int,
                                                status: AuthStatus, w: World)
    requires LegalRun(setup, start, events) && w == Run(setup, start, events) && w.t.clock <= now
    requires Guard(setup.enabled, setup.stackKind, w.manual, status).None?
    requires w.t.history != [] && w.t.history[|w.t.history| - 1].outcome == T.Open
    ensures |Advance(setup, w, Ask(now, status)).inFlight| == |w.inFlight| + 1 <==> Overtakes(setup.throttle, w.t, now)
    ensures !Overtakes(setup.throttle, w.t, now) ==> Advance(setup, w, Ask(now, status)).inFlight == w.inFlight
  {
    LaunchesAreConserved(setup, start, events);
    OpenVerdict(setup.throttle, w.t, now);
    AskLaunches(setup, w, now, status);
  }

  lemma {:induction false} AskLaunches(setup: Setup, w: World, now: int, status: AuthStatus)
    requires Guard(setup.enabled, setup.stackKind, w.manual, status).None? && Balanced(w)
    ensures Advance(setup, w, Ask(now, status)).inFlight ==
            if T.Later(setup.throttle, w.t.s, now) == T.Allowed then w.inFlight + {|w.t.history|} else w.inFlight
    ensures |w.t.history| !in w.inFlight
  {
    assert T.Forgotten(w.t, now).s == T.Purged(w.t.s, now);
  }

  // An ask that launches beside a running sidecar.
  ghost predicate OvertakesAt(setup: Setup, w: World, e: Event) {
    && e.Ask? && w.inFlight != {} && Guard(setup.enabled, setup.stackKind, w.manual, e.status).None?
    && w.t.history != [] && Overtakes(setup.throttle, w.t, e.now)
  }

  ghost predicate NeverOvertaken(setup: Setup, start: int, events: seq<Event>) {
    events != [] ==>
      NeverOvertaken(setup, start, events[..|events| - 1]) &&
      !OvertakesAt(setup, Run(setup, start, events[..|events| - 1]), events[|events| - 1])
  }

  ghost predicate AlwaysAlone(setup: Setup, start: int, events: seq<Event>) {
    |Run(setup, start, events).inFlight| <= 1 && (events != [] ==> AlwaysAlone(setup, start, events[..|events| - 1]))
  }

  // Whatever runs is the newest attempt, which is still open.
  ghost predicate NewestRuns(w: World) {
    && (forall k :: k in w.inFlight ==> k == |w.t.history| - 1)
    && (w.inFlight != {} ==> w.t.history != [] && w.t.history[|w.t.history| - 1].outcome == T.Open)
  }

  lemma {:induction false} AtMostNewest(w: World)
    requires NewestRuns(w)
    ensures |w.inFlight| <= 1
  {
    if w.inFlight != {} {
      var k :| k in w.inFlight;
      assert w.inFlight == {k};
    }
  }

  lemma {:induction false} AskedNewest(w: World, t: T.World, now: int)
    requires NewestRuns(w) && (t.history == w.t.history || t.history == w.t.history + [T.Grant(now, T.Open)])
    requires w.inFlight != {} ==> t.history == w.t.history
    ensures NewestRuns(Asked(w, t))
  {
  }

  lemma {:induction false} AskAlone(setup: Setup, w: World, now: int, status: AuthStatus)
    requires T.Inv(setup.throttle, w.t) && Balanced(w) && w.t.clock <= now && NewestRuns(w)
    requires Guard(setup.enabled, setup.stackKind, w.manual, status).None?
    ensures if OvertakesAt(setup, w, Ask(now, status)) then |Advance(setup, w, Ask(now, status)).inFlight| > 1
            else NewestRuns(Advance(setup, w, Ask(now, status)))
  {
    var t := T.Advance(setup.throttle, w.t, T.Ask(now));
    T.HistoryGrows(setup.throttle, w.t, T.Ask(now));
    if w.inFlight == {} {
      AskedNewest(w, t, now);
    } else {
      OpenVerdict(setup.throttle, w.t, now);
      AskLaunches(setup, w, now, status);
      if !OvertakesAt(setup, w, Ask(now, status)) { AskedNewest(w, t, now); }
    }
  }

  lemma {:induction false} FinishAlone(setup: Setup, w: World, slot: nat, now: int, exit: int)
    requires NewestRuns(w) && slot in w.inFlight
    ensures Advance(setup, w, Finish(slot, now, exit)).inFlight == {}
  {
    assert w.inFlight - {slot} == {};
  }

  lemma {:induction false} AloneStep(setup: Setup, w: World, e: Event)
    requires T.Inv(setup.throttle, w.t) && Balanced(w) && Legal(w, e) && NewestRuns(w)
    ensures if OvertakesAt(setup, w, e) then |Advance(setup, w, e).inFlight| > 1
            else NewestRuns(Advance(setup, w, e)) && |Advance(setup, w, e).inFlight| <= 1
  {
    match e
    case Ask(now, status) =>
      if Guard(setup.enabled, setup.stackKind, w.manual, status).None? { AskAlone(setup, w, now, status); }
      if !OvertakesAt(setup, w, e) { AtMostNewest(Advance(setup, w, e)); }
    case Finish(slot, now, exit) => FinishAlone(setup, w, slot, now, exit);
  }

  /** Sidecars always run alone exactly if nobody asks, with neither limit reached, while one is running
    * that was started the minimum interval ago.
    */
  lemma {:induction false} SidecarsRunAloneExactlyWhen(setup: Setup, start: int, events: seq<Event>)
    requires LegalRun(setup, start, events)
    ensures AlwaysAlone(setup, start, events) <==> NeverOvertaken(setup, start, events)
    ensures AlwaysAlone(setup, start, events) ==> NewestRuns(Run(setup, start, events))
  {
    if events != [] {
      var last := |events| - 1;
      SidecarsRunAloneExactlyWhen(setup, start, events[..last]);
      LaunchesAreConserved(setup, start, events[..last]);
      if AlwaysAlone(setup, start, events[..last]) {
        AloneStep(setup, Run(setup, start, events[..last]), events[last]);
      }
    }
  }

  const MINUTE := 60_000_000

  // The throttle as shipped.
  const SHIPPED := T.Config(5 * MINUTE, 3, 5, [5 * MINUTE, 15 * MINUTE, 45 * MINUTE])

  /** With the shipped limits a sidecar that ran for more than five minutes would be overtaken: two run
    * at once, and the first one's result is booked on the second one's attempt.
    */
  lemma {:induction false} SlowSidecarIsOvertaken(setup: Setup)
    requires setup.enabled && setup.stackKind == Paper && setup.throttle == SHIPPED
    ensures var events := [Ask(0, AUTH_LOST), Ask(5 * MINUTE, AUTH_LOST), Finish(0, 6 * MINUTE, EXIT_SUCCESS)];
            var w := Run(setup, 0, events);
            LegalRun(setup, 0, events) &&
            w.results == [Some(true), None] &&
            w.t.history == [T.Grant(0, T.Open), T.Grant(5 * MINUTE, T.Succeeded)]
  {
    var e0, e1, e2 := Ask(0, AUTH_LOST), Ask(5 * MINUTE, AUTH_LOST), Finish(0, 6 * MINUTE, EXIT_SUCCESS);
    assert [e0][..0] == [] && [e0, e1][..1] == [e0] && [e0, e1, e2][..2] == [e0, e1];
    var g0, g1 := T.Grant(0, T.Open), T.Grant(5 * MINUTE, T.Open);
    assert Run(setup, 0, [e0]) == World(T.World(T.Memory([g0], 0, Some(0)), [g0], 0, 0), false, [None], {0}, 0, 0);
    assert LegalRun(setup, 0, [e0]);
    assert T.Since([g0], 5 * MINUTE - T.HOUR) == [g0] by { assert [g0][1..] == []; }
    assert Run(setup, 0, [e0, e1]) ==
           World(T.World(T.Memory([g0, g1], 0, Some(1)), [g0, g1], 0, 5 * MINUTE), false, [None, None], {0, 1}, 0, 0);
    assert LegalRun(setup, 0, [e0, e1]);
  }
}
