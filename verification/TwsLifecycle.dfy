/** The heartbeat over a TWS connection (tws/lifecycle.py:58-100, 194-337). */
module TwsLifecycle {
  import opened Options
  import T = LoginTrigger

  type AuthStatus = T.AuthStatus

  function Min(a: real, b: real): real {
    if a <= b then a else b
  }

  // ---- Heartbeats ----

  // What a tick found: a usable session, a connection that is not ready, or no connection.
  datatype Tick = Ready | NotReady | ConnectFailed

  function Found(connected: bool, connectOk: bool, ready: bool): Tick {
    if !connected && !connectOk then ConnectFailed else if ready then Ready else NotReady
  }

  datatype State = State(status: AuthStatus, failures: nat, sessionStartedAt: Option<real>)

  const INITIAL := State(T.TWS_DOWN, 0, None)

  function AfterTick(max: int, s: State, tick: Tick, now: real): State {
    match tick
    case Ready => State(T.OK, 0, if s.status != T.OK || s.sessionStartedAt.None? then Some(now) else s.sessionStartedAt)
    case NotReady => State(T.SESSION_LOST, s.failures, s.sessionStartedAt)
    case ConnectFailed =>
      State(if s.failures + 1 >= max then T.TWS_DOWN else s.status, s.failures + 1, s.sessionStartedAt)
  }

  class TWSLifecycle {
    const heartbeatInterval: real
    const recoveryInterval: real
    const maxConnectFailures: int
    var status: AuthStatus
    var consecutiveConnectFailures: nat
    var sessionStartedAt: Option<real>
    var lastHeartbeatAt: Option<real>
    var lastConnectAttemptAt: Option<real>
    var lastConnectSuccessAt: Option<real>

    constructor (heartbeatInterval: real, recoveryInterval: real, maxConnectFailures: int)
      requires maxConnectFailures >= 1
      ensures this.heartbeatInterval == heartbeatInterval && this.recoveryInterval == recoveryInterval
      ensures this.maxConnectFailures == maxConnectFailures && Abs() == INITIAL
    {
      this.heartbeatInterval, this.recoveryInterval := heartbeatInterval, recoveryInterval;
      this.maxConnectFailures := maxConnectFailures;
      status, consecutiveConnectFailures, sessionStartedAt := T.TWS_DOWN, 0, None;
      lastHeartbeatAt, lastConnectAttemptAt, lastConnectSuccessAt := None, None, None;
    }

    function Abs(): State
      reads this
    {
      State(status, consecutiveConnectFailures, sessionStartedAt)
    }

    // `connected` is what the socket says, `connectOk` how a connect would end, and `ready` whether
    // the session is ready after that.
    method TickOnce(connected: bool, connectOk: bool, ready: bool, now: real) returns (r: AuthStatus)
      modifies this
      ensures Abs() == AfterTick(maxConnectFailures, old(Abs()), Found(connected, connectOk, ready), now)
      ensures r == status && lastHeartbeatAt == Some(now)
      ensures lastConnectAttemptAt == if connected then old(lastConnectAttemptAt) else Some(now)
      ensures lastConnectSuccessAt == if !connected && connectOk then Some(now) else old(lastConnectSuccessAt)
    {
      lastHeartbeatAt := Some(now);
      if !connected {
        TryConnect(connectOk, ready, now);
        return status;
      }
      if ready {
        MarkReady(now);
      } else {
        status := T.SESSION_LOST;
      }
      r := status;
    }

    method TryConnect(connectOk: bool, ready: bool, now: real)
      modifies this
      ensures Abs() == AfterTick(maxConnectFailures, old(Abs()), Found(false, connectOk, ready), now)
      ensures lastConnectAttemptAt == Some(now) && lastHeartbeatAt == old(lastHeartbeatAt)
      ensures lastConnectSuccessAt == if connectOk then Some(now) else old(lastConnectSuccessAt)
    {
      lastConnectAttemptAt := Some(now);
      if !connectOk {
        consecutiveConnectFailures := consecutiveConnectFailures + 1;
        if consecutiveConnectFailures >= maxConnectFailures {
          status := T.TWS_DOWN;
        }
        return;
      }
      lastConnectSuccessAt := Some(now);
      if ready {
        MarkReady(now);
      } else {
        status := T.SESSION_LOST;
      }
    }

    method MarkReady(now: real)
      modifies this`status, this`consecutiveConnectFailures, this`sessionStartedAt
      ensures Abs() == AfterTick(maxConnectFailures, old(Abs()), Ready, now)
    {
      if status != T.OK || sessionStartedAt.None? {
        sessionStartedAt := Some(now);
      }
      status := T.OK;
      consecutiveConnectFailures := 0;
    }

    function NextInterval(): real
      reads this
    {
      if status == T.OK then heartbeatInterval else Min(recoveryInterval, heartbeatInterval)
    }

    function PollStep(): real {
      Min(recoveryInterval, heartbeatInterval)
    }

    // `stop(k)` and `connected(k)` are the answers after the k-th step of the wait, which takes `steps`.
    method WaitUntilDue(stop: nat -> bool, connected: nat -> bool) returns (stopped: bool, steps: nat)
      ensures var step := Min(recoveryInterval, heartbeatInterval);
              Waited(if status == T.OK then heartbeatInterval else step, step, status == T.OK, stop, connected,
                     stopped, steps)
    {
      var remaining := NextInterval();
      var step := PollStep();
      var k: nat := 0;
      while remaining > 0.0
        invariant remaining == NextInterval() - Elapsed(NextInterval(), step, k)
        invariant KeptWaiting(NextInterval(), step, status == T.OK, stop, connected, k)
        decreases StepsLeft(remaining, step)
      {
        var wait := if step > 0.0 then Min(step, remaining) else remaining;
        StepsLeftShrinks(remaining, step);
        k := k + 1;
        if stop(k - 1) { return true, k; }
        remaining := remaining - wait;
        if status == T.OK && !connected(k - 1) { return false, k; }
      }
      return false, k;
    }
  }

  // ---- The status, told from the history of ticks ----

  ghost function StatusAfter(max: int, ticks: seq<(Tick, real)>): State {
    if ticks == [] then INITIAL
    else
      var last := ticks[|ticks| - 1];
      AfterTick(max, StatusAfter(max, ticks[..|ticks| - 1]), last.0, last.1)
  }

  function TrailingFailures(ticks: seq<(Tick, real)>): (n: nat)
    ensures n <= |ticks|
  {
    if ticks == [] || ticks[|ticks| - 1].0 != ConnectFailed then 0
    else 1 + TrailingFailures(ticks[..|ticks| - 1])
  }

  function FailuresSinceReady(ticks: seq<(Tick, real)>): nat {
    if ticks == [] || ticks[|ticks| - 1].0 == Ready then 0
    else (if ticks[|ticks| - 1].0 == ConnectFailed then 1 else 0) + FailuresSinceReady(ticks[..|ticks| - 1])
  }

  // The session is OK exactly if the last tick that had a connection found it ready and fewer than
  // `max` connects failed since; TWS is down exactly if there never was a connection, or none now and
  // `max` connects failed since the session was last ready.
  lemma {:induction false} StatusExactlyWhen(max: int, ticks: seq<(Tick, real)>)
    requires max >= 1
    ensures var s, n := StatusAfter(max, ticks), TrailingFailures(ticks);
            && s.failures == FailuresSinceReady(ticks)
            && (s.status == T.OK <==> n < |ticks| && ticks[|ticks| - 1 - n].0 == Ready && n < max)
            && (s.status == T.TWS_DOWN <==> n == |ticks| || (n > 0 && FailuresSinceReady(ticks) >= max))
            && (s.status == T.OK || s.status == T.TWS_DOWN || s.status == T.SESSION_LOST)
  {
    if ticks != [] {
      var front := ticks[..|ticks| - 1];
      StatusExactlyWhen(max, front);
      if TrailingFailures(front) < |front| && front[|front| - 1 - TrailingFailures(front)].0 == Ready {
        FailuresAreTrailing(front);
      }
    }
  }

  lemma {:induction false} FailuresAreTrailing(ticks: seq<(Tick, real)>)
    requires TrailingFailures(ticks) < |ticks| && ticks[|ticks| - 1 - TrailingFailures(ticks)].0 == Ready
    ensures FailuresSinceReady(ticks) == TrailingFailures(ticks)
  {
    if ticks[|ticks| - 1].0 == ConnectFailed { FailuresAreTrailing(ticks[..|ticks| - 1]); }
  }

  // A session that is OK began at the tick that made it OK.
  lemma {:induction false} SessionStartsWhenItBecameOk(max: int, ticks: seq<(Tick, real)>, i: nat)
    requires max >= 1 && i < |ticks| && StatusAfter(max, ticks[..i]).status != T.OK
    requires forall j :: i < j <= |ticks| ==> StatusAfter(max, ticks[..j]).status == T.OK
    ensures StatusAfter(max, ticks).sessionStartedAt == Some(ticks[i].1)
  {
    var n := |ticks| - 1;
    assert ticks[..|ticks|] == ticks;
    assert StatusAfter(max, ticks[..n + 1]).status == T.OK;
    if i < n {
      forall j | i < j <= n
        ensures StatusAfter(max, ticks[..n][..j]).status == T.OK
      {
        assert ticks[..n][..j] == ticks[..j];
      }
      assert ticks[..n][..i] == ticks[..i];
      SessionStartsWhenItBecameOk(max, ticks[..n], i);
      assert StatusAfter(max, ticks[..n]).status == T.OK;
    }
  }

  // ---- The wait between two ticks ----

  function StepOf(step: real, remaining: real): real {
    if step > 0.0 then Min(step, remaining) else remaining
  }

  // The time that passes in the first k steps.
  function Elapsed(interval: real, step: real, k: nat): real {
    if k == 0 then 0.0
    else Elapsed(interval, step, k - 1) + StepOf(step, interval - Elapsed(interval, step, k - 1))
  }

  function StepsLeft(remaining: real, step: real): nat {
    if remaining <= 0.0 then 0
    else if step <= 0.0 then 1
    else
      assert remaining / step > 0.0;
      (remaining / step).Floor + 1
  }

  lemma StepsLeftShrinks(remaining: real, step: real)
    requires remaining > 0.0
    ensures StepsLeft(remaining - StepOf(step, remaining), step) < StepsLeft(remaining, step)
  {
    if step > 0.0 && step < remaining {
      var q := (remaining - step) / step;
      assert q * step == remaining - step;
      assert (q + 1.0) * step == remaining;
      QuotientIs(remaining, step, q + 1.0);
    }
  }

  lemma QuotientIs(a: real, b: real, q: real)
    requires b > 0.0 && q * b == a
    ensures a / b == q
  {
  }

  // Nothing ended the wait in its first k steps.
  ghost predicate KeptWaiting(interval: real, step: real, ok: bool, stop: nat -> bool, connected: nat -> bool, k: nat) {
    forall j: nat :: j < k ==> Elapsed(interval, step, j) < interval && !stop(j) && (ok ==> connected(j))
  }

  ghost predicate Waited(interval: real, step: real, ok: bool, stop: nat -> bool, connected: nat -> bool,
                         stopped: bool, steps: nat)
  {
    if steps == 0 then !stopped && interval <= 0.0
    else
      && KeptWaiting(interval, step, ok, stop, connected, steps - 1)
      && Elapsed(interval, step, steps - 1) < interval
      && stopped == stop(steps - 1)
      && (!stopped ==> Elapsed(interval, step, steps) >= interval || (ok && !connected(steps - 1)))
  }

  lemma {:induction false} ElapsedIs(interval: real, step: real, k: nat)
    requires step > 0.0 && interval >= 0.0
    ensures Elapsed(interval, step, k) == Min(k as real * step, interval)
  {
    if k > 0 {
      ElapsedIs(interval, step, k - 1);
      assert k as real * step == (k - 1) as real * step + step;
    }
  }

  // An undisturbed wait takes the interval, in ceil(interval / step) steps.
  lemma {:induction false} FullWait(interval: real, step: real, ok: bool, stop: nat -> bool, connected: nat -> bool, steps: nat)
    requires interval > 0.0 && Waited(interval, step, ok, stop, connected, false, steps)
    requires steps > 0 ==> ok ==> connected(steps - 1)
    ensures steps > 0 && Elapsed(interval, step, steps) == interval
    ensures step > 0.0 ==> (steps - 1) as real * step < interval <= steps as real * step
    ensures step <= 0.0 ==> steps == 1
  {
    if step > 0.0 {
      FullWaitInSteps(interval, step, steps);
    } else {
      FullWaitAtOnce(interval, step, ok, stop, connected, steps);
    }
  }

  lemma FullWaitInSteps(interval: real, step: real, steps: nat)
    requires interval > 0.0 && step > 0.0 && steps > 0
    requires Elapsed(interval, step, steps - 1) < interval <= Elapsed(interval, step, steps)
    ensures Elapsed(interval, step, steps) == interval
    ensures (steps - 1) as real * step < interval <= steps as real * step
  {
    ElapsedIs(interval, step, steps - 1);
    ElapsedIs(interval, step, steps);
  }

  lemma FullWaitAtOnce(interval: real, step: real, ok: bool, stop: nat -> bool, connected: nat -> bool, steps: nat)
    requires interval > 0.0 && step <= 0.0 && steps > 0 && Waited(interval, step, ok, stop, connected, false, steps)
    ensures steps == 1 && Elapsed(interval, step, steps) == interval
  {
    assert Elapsed(interval, step, 0) == 0.0;
    assert Elapsed(interval, step, 1) == interval;
  }

  // From any state, a socket that goes away `lostAt` after the start of the wait is followed by a
  // tick within one poll step.
  lemma {:induction false} LostSocketIsNoticed(s: State, heartbeat: real, recovery: real, stop: nat -> bool, connected: nat -> bool,
                            steps: nat, lostAt: real)
    requires heartbeat > 0.0 && recovery > 0.0 && lostAt >= 0.0
    requires var step := Min(recovery, heartbeat);
             var interval := if s.status == T.OK then heartbeat else step;
             && Waited(interval, step, s.status == T.OK, stop, connected, false, steps)
             && (forall k: nat :: connected(k) <==> Elapsed(interval, step, k + 1) < lostAt)
    ensures var step := Min(recovery, heartbeat);
            var interval := if s.status == T.OK then heartbeat else step;
            Elapsed(interval, step, steps) <= lostAt + step
  {
    var step := Min(recovery, heartbeat);
    var interval := if s.status == T.OK then heartbeat else step;
    ElapsedIs(interval, step, steps);
    if s.status == T.OK && steps > 1 {
      assert connected(steps - 2);
      ElapsedIs(interval, step, steps - 1);
      assert steps as real * step == (steps - 1) as real * step + step;
    }
  }
}
