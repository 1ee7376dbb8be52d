/**
  * The watchdog over a TWS stack (scripts/tws_watchdog.py:209-240, 326-436): when it alarms,
  * recreates the container and declares the stack recovered.
  */
module Watchdog {
  import opened Options

  datatype Config = Config(paper: bool, autoRecreate: bool, threshold: int, realertHours: real)

  // One look at a stack, with the answers the outside world would give to a push and to a recreate,
  // should one be tried.
  datatype Observation = Observation(up: bool, now: real, delivered: bool, recreateOk: bool)

  datatype StackState = StackState(consecutiveDown: nat, lastAlert: Option<real>, recreated: bool)

  datatype Outcome = Outcome(up: bool, consecutiveDown: nat, recovered: bool, recreated: bool, alerted: bool)

  // What counts as up; a container that is just starting does.
  predicate CheckStack(health: string, gatewayOk: bool) {
    ((health == "healthy" || health == "none" || health == "running") && gatewayOk) || health == "starting"
  }

  // Down is a container in any other state than these, or an unreachable gateway, unless it is starting.
  method LookAt(health: string, gatewayOk: bool) returns (up: bool, waiting: bool)
    ensures up == CheckStack(health, gatewayOk)
    ensures !up <==> health != "starting" && (health !in {"healthy", "none", "running"} || !gatewayOk)
    ensures waiting ==> up && health == "starting"
  {
    var twsOk := health == "healthy" || health == "none" || health == "running";
    if twsOk && gatewayOk { return true, false; }
    if health == "starting" { return true, true; }
    return false, false;
  }

  predicate ShouldAlert(lastAlert: Option<real>, now: real, realertHours: real) {
    lastAlert.None? || (now - lastAlert.value) / 3600.0 >= realertHours
  }

  const CALM := StackState(0, None, false)

  predicate Resets(c: Config, s: StackState, o: Observation) {
    o.up && (s.consecutiveDown >= c.threshold ==> o.delivered)
  }

  predicate Recreates(c: Config, s: StackState, o: Observation) {
    && !o.up && s.consecutiveDown + 1 >= c.threshold
    && c.paper && c.autoRecreate && !s.recreated && o.recreateOk
  }

  predicate Alerts(c: Config, s: StackState, o: Observation) {
    && !o.up && s.consecutiveDown + 1 >= c.threshold
    && ShouldAlert(s.lastAlert, o.now, c.realertHours) && o.delivered
  }

  function Next(c: Config, s: StackState, o: Observation): StackState {
    if o.up then (if Resets(c, s, o) then CALM else s)
    else StackState(s.consecutiveDown + 1,
                    if Alerts(c, s, o) then Some(o.now) else s.lastAlert,
                    s.recreated || Recreates(c, s, o))
  }

  class StackEntry {
    var consecutiveDown: nat
    var lastAlert: Option<real>
    var recreatedThisEpisode: bool

    constructor ()
      ensures Abs() == CALM
    {
      consecutiveDown, lastAlert, recreatedThisEpisode := 0, None, false;
    }

    function Abs(): StackState
      reads this
    {
      StackState(consecutiveDown, lastAlert, recreatedThisEpisode)
    }

    method ProcessStack(c: Config, o: Observation) returns (outcome: Outcome)
      modifies this
      ensures Abs() == Next(c, old(Abs()), o)
      ensures outcome.up == o.up && outcome.consecutiveDown == consecutiveDown
      ensures outcome.recovered <==> outcome.up && old(consecutiveDown) >= c.threshold
      ensures outcome.recreated <==> Recreates(c, old(Abs()), o)
      ensures outcome.alerted <==> Alerts(c, old(Abs()), o)
    {
      if o.up {
        var recovered := consecutiveDown >= c.threshold;
        var reset := true;
        if recovered {
          reset := o.delivered;
        }
        if reset {
          consecutiveDown := 0;
          lastAlert := None;
          recreatedThisEpisode := false;
        }
        return Outcome(true, consecutiveDown, recovered, false, false);
      }

      consecutiveDown := consecutiveDown + 1;
      outcome := Outcome(false, consecutiveDown, false, false, false);
      if consecutiveDown < c.threshold { return; }

      if c.paper && c.autoRecreate && !recreatedThisEpisode {
        if o.recreateOk {
          recreatedThisEpisode := true;
          outcome := outcome.(recreated := true);
        }
      }
      if ShouldAlert(lastAlert, o.now, c.realertHours) {
        if o.delivered {
          lastAlert := Some(o.now);
          outcome := outcome.(alerted := true);
        }
      }
    }
  }

  // ---- Whole runs ----

  // What was seen and done in one step.
  datatype Record = Record(o: Observation, reset: bool, recreated: bool, alerted: bool)

  datatype World = World(s: StackState, trace: seq<Record>)

  ghost function Advance(c: Config, w: World, o: Observation): World {
    World(Next(c, w.s, o), w.trace + [Record(o, Resets(c, w.s, o), Recreates(c, w.s, o), Alerts(c, w.s, o))])
  }

  ghost function Run(c: Config, observations: seq<Observation>): World {
    if observations == [] then World(CALM, [])
    else Advance(c, Run(c, observations[..|observations| - 1]), observations[|observations| - 1])
  }

  // An episode lasts from one reset to the next.  What the current one has seen so far:
  function DownsSince(trace: seq<Record>): nat {
    if trace == [] then 0
    else
      var last := trace[|trace| - 1];
      if last.reset then 0 else DownsSince(trace[..|trace| - 1]) + if last.o.up then 0 else 1
  }

  function AlarmSince(trace: seq<Record>): Option<real> {
    if trace == [] then None
    else
      var last := trace[|trace| - 1];
      if last.reset then None else if last.alerted then Some(last.o.now) else AlarmSince(trace[..|trace| - 1])
  }

  predicate RecreatedSince(trace: seq<Record>) {
    trace != [] &&
    var last := trace[|trace| - 1];
    !last.reset && (last.recreated || RecreatedSince(trace[..|trace| - 1]))
  }

  // What the watchdog does, told from the history alone.
  predicate Proper(c: Config, before: seq<Record>, r: Record) {
    var downs := DownsSince(before) + 1;
    && (r.reset <==> r.o.up && (DownsSince(before) >= c.threshold ==> r.o.delivered))
    && (r.recreated <==> !r.o.up && downs >= c.threshold && c.paper && c.autoRecreate && !RecreatedSince(before) &&
                         r.o.recreateOk)
    && (r.alerted <==> !r.o.up && downs >= c.threshold && ShouldAlert(AlarmSince(before), r.o.now, c.realertHours) &&
                       r.o.delivered)
  }

  ghost predicate Lawful(c: Config, trace: seq<Record>) {
    forall k :: 0 <= k < |trace| ==> Proper(c, trace[..k], trace[k])
  }

  ghost predicate Remembers(w: World) {
    w.s == StackState(DownsSince(w.trace), AlarmSince(w.trace), RecreatedSince(w.trace))
  }

  lemma StepRemembers(c: Config, w: World, o: Observation)
    requires Remembers(w)
    ensures Remembers(Advance(c, w, o)) && Advance(c, w, o).trace[..|w.trace|] == w.trace
    ensures Proper(c, w.trace, Advance(c, w, o).trace[|w.trace|])
  {
    assert Advance(c, w, o).trace[..|w.trace|] == w.trace;
  }

  // The three stored fields say neither more nor less than the history of the episode.
  lemma {:induction false} DecidedByHistory(c: Config, observations: seq<Observation>)
    ensures var w := Run(c, observations);
            && |w.trace| == |observations|
            && w.s == StackState(DownsSince(w.trace), AlarmSince(w.trace), RecreatedSince(w.trace))
            && Lawful(c, w.trace)
  {
    if observations != [] {
      var front, o := observations[..|observations| - 1], observations[|observations| - 1];
      DecidedByHistory(c, front);
      var w := Run(c, front);
      StepRemembers(c, w, o);
      LawfulOneMore(c, w.trace, Advance(c, w, o).trace[|w.trace|]);
    }
  }

  lemma LawfulOneMore(c: Config, trace: seq<Record>, r: Record)
    requires Lawful(c, trace) && Proper(c, trace, r)
    ensures Lawful(c, trace + [r])
  {
    var more := trace + [r];
    forall k | 0 <= k < |more|
      ensures Proper(c, more[..k], more[k])
    {
      if k < |trace| {
        assert more[..k] == trace[..k];
        assert Proper(c, trace[..k], trace[k]);
      } else {
        assert more[..k] == trace;
      }
    }
  }

  lemma LawfulPrefix(c: Config, trace: seq<Record>, n: nat)
    requires Lawful(c, trace) && n <= |trace|
    ensures Lawful(c, trace[..n])
  {
    forall k | 0 <= k < n
      ensures Proper(c, trace[..n][..k], trace[..n][k])
    {
      assert trace[..n][..k] == trace[..k];
    }
  }

  ghost predicate NoReset(trace: seq<Record>, lo: int, hi: int) {
    forall i :: lo <= i < hi && 0 <= i < |trace| ==> !trace[i].reset
  }

  ghost predicate AllDown(trace: seq<Record>, lo: int, hi: int) {
    forall i :: lo <= i < hi && 0 <= i < |trace| ==> !trace[i].o.up
  }

  lemma InPrefix(trace: seq<Record>, n: nat, lo: int, hi: int)
    requires n <= |trace| && hi <= n
    ensures AllDown(trace[..n], lo, hi) <==> AllDown(trace, lo, hi)
    ensures NoReset(trace[..n], lo, hi) <==> NoReset(trace, lo, hi)
  {
    forall i | 0 <= i < n
      ensures trace[..n][i] == trace[i]
    {
    }
  }

  // Below the threshold the downs of the episode are the latest looks, without a gap.
  lemma {:induction false} BelowThreshold(c: Config, trace: seq<Record>)
    requires Lawful(c, trace) && DownsSince(trace) < c.threshold
    ensures DownsSince(trace) <= |trace|
    ensures AllDown(trace, |trace| - DownsSince(trace), |trace|)
    ensures NoReset(trace, |trace| - DownsSince(trace), |trace|)
  {
    if trace != [] {
      var n := |trace| - 1;
      assert Proper(c, trace[..n], trace[n]);
      LawfulPrefix(c, trace, n);
      if !trace[n].reset {
        assert DownsSince(trace) == DownsSince(trace[..n]) + 1;
        BelowThreshold(c, trace[..n]);
        InPrefix(trace, n, n - DownsSince(trace[..n]), n);
      }
    }
  }

  // A window of `threshold` looks in a row that were all down, in the current episode.
  ghost predicate Window(c: Config, trace: seq<Record>, s: nat) {
    s + c.threshold <= |trace| && AllDown(trace, s, s + c.threshold) && NoReset(trace, s, |trace|)
  }

  lemma WindowOneMore(c: Config, trace: seq<Record>, s: nat)
    requires c.threshold >= 1 && trace != [] && Window(c, trace[..|trace| - 1], s) && !trace[|trace| - 1].reset
    ensures Window(c, trace, s)
  {
    InPrefix(trace, |trace| - 1, s, s + c.threshold);
    InPrefix(trace, |trace| - 1, s, |trace| - 1);
  }

  // The look that reaches the threshold.
  lemma ReachingThreshold(c: Config, trace: seq<Record>)
    requires Lawful(c, trace) && trace != [] && DownsSince(trace[..|trace| - 1]) < c.threshold <= DownsSince(trace)
    requires c.threshold >= 1
    ensures |trace| >= c.threshold && Window(c, trace, |trace| - c.threshold)
  {
    var n := |trace| - 1;
    LawfulPrefix(c, trace, n);
    BelowThreshold(c, trace[..n]);
    assert Proper(c, trace[..n], trace[n]);
    assert DownsSince(trace[..n]) == c.threshold - 1;
    InPrefix(trace, n, n - DownsSince(trace[..n]), n);
  }

  lemma {:induction false} ThresholdNeedsWindow(c: Config, trace: seq<Record>) returns (s: nat)
    requires Lawful(c, trace) && DownsSince(trace) >= c.threshold >= 1
    ensures Window(c, trace, s)
  {
    var n := |trace| - 1;
    LawfulPrefix(c, trace, n);
    if DownsSince(trace[..n]) >= c.threshold {
      s := ThresholdNeedsWindow(c, trace[..n]);
      WindowOneMore(c, trace, s);
    } else {
      ReachingThreshold(c, trace);
      s := |trace| - c.threshold;
    }
  }

  lemma {:induction false} DownsCount(c: Config, trace: seq<Record>, s: nat)
    requires Lawful(c, trace) && s <= |trace| && AllDown(trace, s, |trace|)
    ensures DownsSince(trace) >= |trace| - s
  {
    if s < |trace| {
      var n := |trace| - 1;
      assert Proper(c, trace[..n], trace[n]);
      LawfulPrefix(c, trace, n);
      InPrefix(trace, n, s, n);
      DownsCount(c, trace[..n], s);
    }
  }

  // ---- The main results, for every run ----

  // An alarm needs `threshold` downs in a row within its episode; and that many downs in a row
  // raise it, unless the push fails or the last alarm of the episode is too recent.
  lemma {:induction false} AlarmNeedsDownsInARow(c: Config, observations: seq<Observation>, k: nat) returns (s: nat)
    requires c.threshold >= 1
    requires var trace := Run(c, observations).trace; k < |trace| && trace[k].alerted
    ensures Window(c, Run(c, observations).trace[..k + 1], s)
  {
    DecidedByHistory(c, observations);
    s := WindowOfAlarm(c, Run(c, observations).trace, k);
  }

  lemma WindowOfAlarm(c: Config, trace: seq<Record>, k: nat) returns (s: nat)
    requires c.threshold >= 1 && Lawful(c, trace) && k < |trace| && trace[k].alerted
    ensures Window(c, trace[..k + 1], s)
  {
    assert Proper(c, trace[..k], trace[k]);
    LawfulPrefix(c, trace, k + 1);
    assert trace[..k + 1][..k] == trace[..k];
    assert DownsSince(trace[..k + 1]) == DownsSince(trace[..k]) + 1;
    s := ThresholdNeedsWindow(c, trace[..k + 1]);
  }

  ghost predicate NoAlarm(trace: seq<Record>, from: nat, until: nat)
    requires until <= |trace|
  {
    forall j :: from <= j < until ==> !trace[j].alerted
  }

  // The latest alarm since the last reset before `k`, if there is one, is at least `realertHours` old.
  ghost predicate NoRecentAlarm(c: Config, trace: seq<Record>, k: nat, now: real)
    requires k <= |trace|
  {
    forall i :: 0 <= i < k && trace[i].alerted && NoReset(trace, i, k) && NoAlarm(trace, i + 1, k) ==>
      now - trace[i].o.now >= c.realertHours * 3600.0
  }

  lemma {:induction false} LatestAlarmExists(trace: seq<Record>) returns (i: nat)
    requires AlarmSince(trace).Some?
    ensures i < |trace| && trace[i].alerted && NoReset(trace, i, |trace|) && NoAlarm(trace, i + 1, |trace|)
    ensures AlarmSince(trace).value == trace[i].o.now
  {
    var n := |trace| - 1;
    if trace[n].alerted {
      i := n;
    } else {
      i := LatestAlarmExists(trace[..n]);
      assert forall j :: i < j < n ==> trace[j] == trace[..n][j];
      InPrefix(trace, n, i, n);
    }
  }

  lemma {:induction false} LatestAlarm(trace: seq<Record>, i: nat)
    requires i < |trace| && trace[i].alerted && NoReset(trace, i, |trace|) && NoAlarm(trace, i + 1, |trace|)
    ensures AlarmSince(trace) == Some(trace[i].o.now)
  {
    var n := |trace| - 1;
    if i < n {
      InPrefix(trace, n, i, n);
      assert forall j :: i < j < n ==> trace[j] == trace[..n][j];
      LatestAlarm(trace[..n], i);
    }
  }

  lemma {:induction false} DueByHistory(c: Config, trace: seq<Record>, now: real)
    ensures ShouldAlert(AlarmSince(trace), now, c.realertHours) <==> NoRecentAlarm(c, trace, |trace|, now)
  {
    if AlarmSince(trace).Some? {
      var i := LatestAlarmExists(trace);
    }
    forall i | 0 <= i < |trace| && trace[i].alerted && NoReset(trace, i, |trace|) && NoAlarm(trace, i + 1, |trace|)
      ensures AlarmSince(trace) == Some(trace[i].o.now)
    {
      LatestAlarm(trace, i);
    }
  }

  lemma {:induction false} NoRecentAlarmPrefix(c: Config, trace: seq<Record>, k: nat, now: real)
    requires k <= |trace|
    ensures NoRecentAlarm(c, trace[..k], k, now) <==> NoRecentAlarm(c, trace, k, now)
  {
    forall i | 0 <= i < k
      ensures trace[..k][i] == trace[i] && (NoReset(trace[..k], i, k) <==> NoReset(trace, i, k)) &&
              (NoAlarm(trace[..k], i + 1, k) <==> NoAlarm(trace, i + 1, k))
    {
      assert forall j :: i < j < k ==> trace[j] == trace[..k][j];
      InPrefix(trace, k, i, k);
    }
  }

  lemma {:induction false} DownsInARowRaiseTheAlarm(c: Config, observations: seq<Observation>, s: nat, k: nat)
    requires c.threshold >= 1
    requires var trace := Run(c, observations).trace;
             s + c.threshold <= k + 1 <= |trace| && AllDown(trace, s, k + 1)
    ensures var trace := Run(c, observations).trace;
            trace[k].alerted <==> trace[k].o.delivered && NoRecentAlarm(c, trace, k, trace[k].o.now)
  {
    var trace := Run(c, observations).trace;
    DecidedByHistory(c, observations);
    AlarmOfDowns(c, trace, s, k);
    DueByHistory(c, trace[..k], trace[k].o.now);
    NoRecentAlarmPrefix(c, trace, k, trace[k].o.now);
  }

  lemma AlarmOfDowns(c: Config, trace: seq<Record>, s: nat, k: nat)
    requires c.threshold >= 1 && Lawful(c, trace) && s + c.threshold <= k + 1 <= |trace| && AllDown(trace, s, k + 1)
    ensures trace[k].alerted <==>
            trace[k].o.delivered && ShouldAlert(AlarmSince(trace[..k]), trace[k].o.now, c.realertHours)
  {
    assert Proper(c, trace[..k], trace[k]);
    LawfulPrefix(c, trace, k);
    InPrefix(trace, k, s, k);
    DownsCount(c, trace[..k], s);
    assert !trace[k].o.up;
  }

  ghost predicate InOrder(observations: seq<Observation>) {
    forall i, j :: 0 <= i < j < |observations| ==> observations[i].now <= observations[j].now
  }

  lemma AdvanceSees(c: Config, w: World, o: Observation)
    ensures var trace := Advance(c, w, o).trace;
            |trace| == |w.trace| + 1 && trace[..|w.trace|] == w.trace && trace[|w.trace|].o == o
  {
  }

  lemma {:induction false} TraceSees(c: Config, observations: seq<Observation>, k: nat)
    requires k < |observations|
    ensures k < |Run(c, observations).trace| && Run(c, observations).trace[k].o == observations[k]
  {
    var n := |observations| - 1;
    var w := Run(c, observations[..n]);
    TraceLength(c, observations[..n]);
    AdvanceSees(c, w, observations[n]);
    if k < n {
      TraceSees(c, observations[..n], k);
      assert Run(c, observations).trace[..n][k] == Run(c, observations).trace[k];
    }
  }

  lemma {:induction false} TraceLength(c: Config, observations: seq<Observation>)
    ensures |Run(c, observations).trace| == |observations|
  {
    if observations != [] { TraceLength(c, observations[..|observations| - 1]); }
  }

  ghost predicate Timely(trace: seq<Record>) {
    forall m, n :: 0 <= m < n < |trace| ==> trace[m].o.now <= trace[n].o.now
  }

  lemma TimelyPrefix(trace: seq<Record>, n: nat)
    requires Timely(trace) && n <= |trace|
    ensures Timely(trace[..n])
  {
  }

  // The last alarm of an episode is no older than any other alarm in it.
  lemma {:induction false} LastAlarm(trace: seq<Record>, i: nat)
    requires i < |trace| && trace[i].alerted && NoReset(trace, i, |trace|) && Timely(trace)
    ensures AlarmSince(trace).Some? && AlarmSince(trace).value >= trace[i].o.now
  {
    var n := |trace| - 1;
    if i < n && !trace[n].alerted {
      InPrefix(trace, n, i, n);
      TimelyPrefix(trace, n);
      LastAlarm(trace[..n], i);
    }
  }

  lemma {:induction false} RecreateIsRemembered(trace: seq<Record>, i: nat)
    requires i < |trace| && trace[i].recreated && NoReset(trace, i, |trace|)
    ensures RecreatedSince(trace)
  {
    var n := |trace| - 1;
    if i < n {
      InPrefix(trace, n, i, n);
      RecreateIsRemembered(trace[..n], i);
    }
  }

  lemma TraceIsTimely(c: Config, observations: seq<Observation>)
    requires InOrder(observations)
    ensures Timely(Run(c, observations).trace)
  {
    TraceLength(c, observations);
    forall m, n | 0 <= m < n < |observations|
      ensures Run(c, observations).trace[m].o.now <= Run(c, observations).trace[n].o.now
    {
      TraceSees(c, observations, m);
      TraceSees(c, observations, n);
    }
  }

  // Two alarms of one episode are at least `realertHours` apart.
  lemma {:induction false} AlarmsAreSpaced(c: Config, observations: seq<Observation>, i: nat, j: nat)
    requires InOrder(observations) && i < j < |observations|
    requires var trace := Run(c, observations).trace;
             j < |trace| && trace[i].alerted && trace[j].alerted && NoReset(trace, i, j)
    ensures observations[j].now - observations[i].now >= c.realertHours * 3600.0
  {
    DecidedByHistory(c, observations);
    TraceIsTimely(c, observations);
    TraceSees(c, observations, i);
    TraceSees(c, observations, j);
    AlarmsOfTrace(c, Run(c, observations).trace, i, j);
  }

  lemma AlarmsOfTrace(c: Config, trace: seq<Record>, i: nat, j: nat)
    requires Lawful(c, trace) && i < j < |trace| && trace[i].alerted && trace[j].alerted && NoReset(trace, i, j)
    requires Timely(trace)
    ensures trace[j].o.now - trace[i].o.now >= c.realertHours * 3600.0
  {
    assert Proper(c, trace[..j], trace[j]);
    InPrefix(trace, j, i, j);
    TimelyPrefix(trace, j);
    LastAlarm(trace[..j], i);
  }

  // A live stack is never recreated.
  lemma {:induction false} OnlyPaperIsRecreated(c: Config, observations: seq<Observation>, k: nat)
    requires var trace := Run(c, observations).trace; k < |trace| && trace[k].recreated
    ensures c.paper && c.autoRecreate
  {
    DecidedByHistory(c, observations);
    var trace := Run(c, observations).trace;
    assert Proper(c, trace[..k], trace[k]);
  }

  // At most one recreate succeeds per episode.
  lemma {:induction false} OneRecreatePerEpisode(c: Config, observations: seq<Observation>, i: nat, j: nat)
    requires var trace := Run(c, observations).trace;
             i < j < |trace| && trace[i].recreated && trace[j].recreated
    ensures !NoReset(Run(c, observations).trace, i, j)
  {
    DecidedByHistory(c, observations);
    RecreatesOfTrace(c, Run(c, observations).trace, i, j);
  }

  lemma RecreatesOfTrace(c: Config, trace: seq<Record>, i: nat, j: nat)
    requires Lawful(c, trace) && i < j < |trace| && trace[i].recreated && trace[j].recreated
    ensures !NoReset(trace, i, j)
  {
    assert Proper(c, trace[..j], trace[j]);
    if NoReset(trace, i, j) {
      InPrefix(trace, j, i, j);
      RecreateIsRemembered(trace[..j], i);
    }
  }

  // An episode that saw `threshold` downs in a row ends only with a delivered recovery push.
  lemma {:induction false} RecoveryIsAnnounced(c: Config, observations: seq<Observation>, s: nat, k: nat)
    requires c.threshold >= 1
    requires var trace := Run(c, observations).trace;
             k < |trace| && trace[k].reset && s + c.threshold <= k && AllDown(trace, s, s + c.threshold) &&
             NoReset(trace, s, k)
    ensures var r := Run(c, observations).trace[k]; r.o.up && r.o.delivered
  {
    DecidedByHistory(c, observations);
    RecoveryOfTrace(c, Run(c, observations).trace, s, k);
  }

  lemma RecoveryOfTrace(c: Config, trace: seq<Record>, s: nat, k: nat)
    requires c.threshold >= 1 && Lawful(c, trace) && k < |trace| && trace[k].reset && s + c.threshold <= k
    requires AllDown(trace, s, s + c.threshold) && NoReset(trace, s, k)
    ensures trace[k].o.up && trace[k].o.delivered
  {
    var n := s + c.threshold;
    assert Proper(c, trace[..k], trace[k]);
    LawfulPrefix(c, trace, n);
    InPrefix(trace, n, s, n);
    DownsCount(c, trace[..n], s);
    DownsOnlyGrow(trace, n, k);
  }

  lemma {:induction false} DownsOnlyGrow(trace: seq<Record>, n: nat, k: nat)
    requires n <= k <= |trace| && NoReset(trace, n, k)
    ensures DownsSince(trace[..n]) <= DownsSince(trace[..k])
  {
    if n < k {
      DownsOnlyGrow(trace, n, k - 1);
      assert trace[..k][..k - 1] == trace[..k - 1];
    }
  }

  // A container that keeps restarting is never reported: "starting" counts as up.
  lemma {:induction false} RestartingIsNeverReported(c: Config, observations: seq<Observation>, gateway: seq<bool>, k: nat)
    requires c.threshold >= 2 && k < |observations| == |gateway|
    requires forall i :: 0 <= i < |observations| && i % 2 == 1 ==>
               observations[i].up == CheckStack("starting", gateway[i])
    ensures k < |Run(c, observations).trace| && !Run(c, observations).trace[k].alerted
  {
    TraceLength(c, observations);
    if Run(c, observations).trace[k].alerted {
      var s := AlarmNeedsDownsInARow(c, observations, k);
      WindowOfTwo(c, Run(c, observations).trace, k, s);
      TraceSees(c, observations, s);
      TraceSees(c, observations, s + 1);
      assert false;
    }
  }

  lemma WindowOfTwo(c: Config, trace: seq<Record>, k: nat, s: nat)
    requires c.threshold >= 2 && k < |trace| && Window(c, trace[..k + 1], s)
    ensures s + 1 < |trace| && !trace[s].o.up && !trace[s + 1].o.up
  {
    assert trace[..k + 1][s] == trace[s] && trace[..k + 1][s + 1] == trace[s + 1];
  }
}
