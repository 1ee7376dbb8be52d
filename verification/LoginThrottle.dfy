/** Admission control for automatic logins (cp/auto_login_throttle.py).
  *
  * The throttle keeps a deque of recent attempts that is purged from the left, an index into that
  * deque naming the attempt still waiting for its outcome, and a failure counter. The theorems
  * speak about the complete history of granted attempts, which the code itself forgets.
  */
module LoginThrottle {
  import opened Options

  // Instants and durations are whole microseconds, the resolution of the source's clock.
  const HOUR := 3_600_000_000
  const DAY := 24 * HOUR

  datatype Config = Config(minInterval: int, maxPerHour: int, maxPerDay: int, backoffLevels: seq<int>)

  datatype Outcome = Open | Succeeded | Failed

  datatype Grant = Grant(at: int, outcome: Outcome)

  datatype Reason = DailyLimit | HourlyLimit | Cooldown(length: int)

  // IndexError: a limit of zero or less lets the code index an empty list.
  datatype Decision = Allowed | Refused(reason: Reason, retryAt: int) | IndexError

  datatype Label = Ready | Blocked(reason: Reason)

  datatype Memory = Memory(attempts: seq<Grant>, failures: nat, pending: Option<int>)

  const FRESH := Memory([], 0, None)

  // ---- What one call does ----

  function Kept(attempts: seq<Grant>, cutoff: int): (r: seq<Grant>)
    ensures |r| <= |attempts|
  {
    if attempts != [] && attempts[0].at < cutoff then Kept(attempts[1..], cutoff) else attempts
  }

  function Since(attempts: seq<Grant>, cutoff: int): (r: seq<Grant>)
    ensures |r| <= |attempts|
  {
    if attempts == [] then []
    else (if attempts[0].at > cutoff then [attempts[0]] else []) + Since(attempts[1..], cutoff)
  }

  function Shifted(pending: Option<int>, dropped: nat): Option<int> {
    if pending.Some? && pending.value >= dropped then Some(pending.value - dropped) else None
  }

  function Purged(s: Memory, now: int): Memory {
    var kept := Kept(s.attempts, now - DAY);
    Memory(kept, s.failures, Shifted(s.pending, |s.attempts| - |kept|))
  }

  function LevelFor(cfg: Config, streak: nat): int {
    if cfg.backoffLevels == [] then cfg.minInterval
    else
      var step := if streak == 0 then 0 else streak - 1;
      cfg.backoffLevels[if step < |cfg.backoffLevels| then step else |cfg.backoffLevels| - 1]
  }

  function CooldownAfter(cfg: Config, outcome: Outcome, streak: nat): int {
    if outcome == Failed then LevelFor(cfg, streak) else cfg.minInterval
  }

  // The answer to a caller who asks at `now`, once old attempts have been purged.
  function Verdict(cfg: Config, s: Memory, now: int): Decision {
    var lastHour := Since(s.attempts, now - HOUR);
    if |s.attempts| >= cfg.maxPerDay then
      if s.attempts == [] then IndexError else Refused(DailyLimit, s.attempts[0].at + DAY)
    else if |lastHour| >= cfg.maxPerHour then
      if lastHour == [] then IndexError else Refused(HourlyLimit, lastHour[0].at + HOUR)
    else if s.attempts == [] then Allowed
    else
      var last := s.attempts[|s.attempts| - 1];
      var cooldown := CooldownAfter(cfg, last.outcome, s.failures);
      if now < last.at + cooldown then Refused(Cooldown(cooldown), last.at + cooldown) else Allowed
  }

  function AfterAsk(cfg: Config, s: Memory, now: int): Memory {
    var p := Purged(s, now);
    if Verdict(cfg, p, now) == Allowed
    then Memory(p.attempts + [Grant(now, Open)], p.failures, Some(|p.attempts|))
    else p
  }

  // The pending index, when there is one, names the last attempt, and that attempt is open.
  ghost predicate PendingIsLast(s: Memory) {
    (s.pending.Some? <==> s.attempts != [] && s.attempts[|s.attempts| - 1].outcome == Open) &&
    (s.pending.Some? ==> s.pending.value == |s.attempts| - 1)
  }

  function AfterClose(s: Memory, ok: bool): Memory {
    if s.pending.None? || !(0 <= s.pending.value < |s.attempts|) then s.(pending := None)
    else
      var i := s.pending.value;
      Memory(s.attempts[i := s.attempts[i].(outcome := if ok then Succeeded else Failed)],
            if ok then 0 else s.failures + 1, None)
  }

  // ---- The object ----

  class AutoLoginThrottle {
    const config: Config
    var attempts: seq<Grant>
    var consecutiveFailures: nat
    var pendingAttemptIndex: Option<int>

    function Abs(): Memory
      reads this
    {
      Memory(attempts, consecutiveFailures, pendingAttemptIndex)
    }

    ghost predicate Valid()
      reads this
    {
      PendingIsLast(Abs())
    }

    constructor (config: Config)
      ensures this.config == config && Valid() && Abs() == FRESH
    {
      this.config := config;
      attempts, consecutiveFailures, pendingAttemptIndex := [], 0, None;
    }

    method Attempt(now: int) returns (decision: Decision)
      requires Valid()
      modifies this
      ensures Valid() && Abs() == AfterAsk(config, old(Abs()), now)
      ensures decision == Verdict(config, Purged(old(Abs()), now), now)
    {
      Purge(now);
      if |attempts| >= config.maxPerDay {
        if attempts == [] { return IndexError; }
        return Refused(DailyLimit, attempts[0].at + DAY);
      }
      var lastHour := AttemptsSince(now - HOUR);
      if |lastHour| >= config.maxPerHour {
        if lastHour == [] { return IndexError; }
        return Refused(HourlyLimit, lastHour[0].at + HOUR);
      }
      var cooldown := CurrentCooldown();
      if attempts != [] && cooldown.Some? {
        var unblockAt := attempts[|attempts| - 1].at + cooldown.value;
        if now < unblockAt {
          return Refused(Cooldown(cooldown.value), unblockAt);
        }
      }
      attempts := attempts + [Grant(now, Open)];
      pendingAttemptIndex := Some(|attempts| - 1);
      return Allowed;
    }

    method RecordSuccess()
      requires Valid()
      modifies this
      ensures Valid() && Abs() == AfterClose(old(Abs()), true)
    {
      var closed := ClosePending(true);
      if closed { consecutiveFailures := 0; }
    }

    method RecordFailure()
      requires Valid()
      modifies this
      ensures Valid() && Abs() == AfterClose(old(Abs()), false)
    {
      var closed := ClosePending(false);
      if closed { consecutiveFailures := consecutiveFailures + 1; }
    }

    // The health text is Ready at exactly the instants at which Attempt would be granted.
    method State(now: int) returns (shown: Label)
      requires Valid()
      modifies this
      ensures Valid() && Abs() == Purged(old(Abs()), now)
      ensures shown == Ready <==> Verdict(config, Abs(), now) == Allowed
      ensures forall r, t :: Verdict(config, Abs(), now) == Refused(r, t) ==> shown == Blocked(r)
    {
      Purge(now);
      if |attempts| >= config.maxPerDay { return Blocked(DailyLimit); }
      var lastHour := AttemptsSince(now - HOUR);
      if |lastHour| >= config.maxPerHour { return Blocked(HourlyLimit); }
      var cooldown := CurrentCooldown();
      if attempts != [] && cooldown.Some? {
        if now < attempts[|attempts| - 1].at + cooldown.value {
          return Blocked(Cooldown(cooldown.value));
        }
      }
      return Ready;
    }

    method Purge(now: int)
      requires Valid()
      modifies this
      ensures Valid() && Abs() == Purged(old(Abs()), now)
    {
      var cutoff := now - DAY;
      ghost var popped := 0;
      while attempts != [] && attempts[0].at < cutoff
        invariant popped + |attempts| == |old(attempts)|
        invariant Kept(attempts, cutoff) == Kept(old(attempts), cutoff)
        invariant consecutiveFailures == old(consecutiveFailures)
        invariant pendingAttemptIndex == Shifted(old(pendingAttemptIndex), popped)
        invariant Valid()
        decreases |attempts|
      {
        attempts := attempts[1..];
        popped := popped + 1;
        if pendingAttemptIndex.Some? {
          pendingAttemptIndex := Some(pendingAttemptIndex.value - 1);
          if pendingAttemptIndex.value < 0 { pendingAttemptIndex := None; }
        }
      }
    }

    method AttemptsSince(cutoff: int) returns (recent: seq<Grant>)
      ensures recent == Since(attempts, cutoff)
    {
      recent := [];
      var i := 0;
      while i < |attempts|
        invariant 0 <= i <= |attempts|
        invariant Since(attempts, cutoff) == recent + Since(attempts[i..], cutoff)
      {
        if attempts[i].at > cutoff { recent := recent + [attempts[i]]; }
        assert attempts[i..][1..] == attempts[i + 1..];
        i := i + 1;
      }
    }

    // An index outside the deque never gets here: the pending index always names the last attempt.
    method ClosePending(ok: bool) returns (closed: bool)
      requires Valid()
      modifies this`attempts, this`pendingAttemptIndex
      ensures closed == old(pendingAttemptIndex.Some?)
      ensures Abs().(failures := 0) == AfterClose(old(Abs()), ok).(failures := 0)
      ensures Valid()
    {
      if pendingAttemptIndex.None? { return false; }
      if !(0 <= pendingAttemptIndex.value < |attempts|) {
        assert false;
      }
      var i := pendingAttemptIndex.value;
      attempts := attempts[i := attempts[i].(outcome := if ok then Succeeded else Failed)];
      pendingAttemptIndex := None;
      return true;
    }

    function CurrentCooldown(): (r: Option<int>)
      reads this
      ensures r.Some? <==> attempts != []
      ensures r.Some? ==> r.value == CooldownAfter(config, attempts[|attempts| - 1].outcome, consecutiveFailures)
    {
      if attempts == [] then None
      else
        var last := attempts[|attempts| - 1];
        if last.outcome != Failed then Some(config.minInterval)
        else if config.backoffLevels == [] then Some(config.minInterval)
        else
          var atLeastZero := if consecutiveFailures - 1 > 0 then consecutiveFailures - 1 else 0;
          var idx := if atLeastZero < |config.backoffLevels| - 1 then atLeastZero else |config.backoffLevels| - 1;
          Some(config.backoffLevels[idx])
    }
  }

  // ---- Whole runs ----

  datatype Event = Ask(now: int) | Peek(now: int) | Success | Failure

  // The throttle, everything it was ever granted, and how much of that the deque has forgotten.
  datatype World = World(s: Memory, history: seq<Grant>, dropped: nat, clock: int)

  // The failures since the last success, read off the history instead of the counter.
  function Streak(history: seq<Grant>): nat {
    if history == [] then 0
    else
      var n := |history| - 1;
      match history[n].outcome
      case Succeeded => 0
      case Failed => 1 + Streak(history[..n])
      case Open => Streak(history[..n])
  }

  // The wait that follows the last attempt of `history`.
  function Owed(cfg: Config, history: seq<Grant>): int
    requires history != []
  {
    CooldownAfter(cfg, history[|history| - 1].outcome, Streak(history))
  }

  // Any `limit` + 1 consecutive grants span more than `width` (a closed window) or at least `width`.
  ghost predicate Windowed(history: seq<Grant>, limit: int, width: int, strictly: bool) {
    forall i, j :: 0 <= i <= j < |history| && j - i >= limit ==>
      history[j].at - history[i].at >= if strictly then width + 1 else width
  }

  // The wait that can be enforced: an attempt older than a day is forgotten, and its cool-down with it.
  function Enforced(owed: int): int {
    if owed <= DAY + 1 then owed else DAY + 1
  }

  ghost predicate Cooled(cfg: Config, history: seq<Grant>) {
    forall i :: 0 < i < |history| ==> history[i].at - history[i - 1].at >= Enforced(Owed(cfg, history[..i]))
  }

  ghost predicate Spaced(cfg: Config, history: seq<Grant>) {
    && Windowed(history, cfg.maxPerDay, DAY, true)
    && Windowed(history, cfg.maxPerHour, HOUR, false)
    && Cooled(cfg, history)
  }

  ghost predicate Sorted(history: seq<Grant>) {
    forall i, j :: 0 <= i <= j < |history| ==> history[i].at <= history[j].at
  }

  // The deque is what is left of the history, and everything forgotten is more than a day old.
  ghost predicate Remembers(w: World) {
    && w.dropped <= |w.history| && w.s.attempts == w.history[w.dropped..]
    && (forall i :: 0 <= i < w.dropped ==> w.history[i].at < w.clock - DAY)
    && Sorted(w.history)
    && (w.history != [] ==> w.history[|w.history| - 1].at <= w.clock)
  }

  ghost predicate Inv(cfg: Config, w: World) {
    PendingIsLast(w.s) && Remembers(w) && w.s.failures == Streak(w.history) && Spaced(cfg, w.history)
  }

  // The clock never runs backwards between two calls that read it.
  ghost predicate Legal(w: World, e: Event) {
    e.Ask? || e.Peek? ==> w.clock <= e.now
  }

  ghost function Forgotten(w: World, now: int): World {
    var p := Purged(w.s, now);
    World(p, w.history, w.dropped + |w.s.attempts| - |p.attempts|, now)
  }

  ghost function Granted(w: World): World {
    World(Memory(w.s.attempts + [Grant(w.clock, Open)], w.s.failures, Some(|w.s.attempts|)),
          w.history + [Grant(w.clock, Open)], w.dropped, w.clock)
  }

  ghost function Advance(cfg: Config, w: World, e: Event): World {
    match e
    case Peek(now) => Forgotten(w, now)
    case Ask(now) =>
      var v := Forgotten(w, now);
      if Verdict(cfg, v.s, now) == Allowed then Granted(v) else v
    case Success => Decided(w, true)
    case Failure => Decided(w, false)
  }

  ghost function Decided(w: World, ok: bool): World {
    if w.s.pending.None? || w.history == [] then w.(s := AfterClose(w.s, ok))
    else
      var n := |w.history| - 1;
      w.(s := AfterClose(w.s, ok), history := w.history[n := w.history[n].(outcome := if ok then Succeeded else Failed)])
  }

  // The world after `events`, starting from a fresh throttle.
  ghost function Run(cfg: Config, start: int, events: seq<Event>): World {
    if events == [] then World(FRESH, [], 0, start)
    else Advance(cfg, Run(cfg, start, events[..|events| - 1]), events[|events| - 1])
  }

  ghost predicate LegalRun(cfg: Config, start: int, events: seq<Event>) {
    events != [] ==>
      LegalRun(cfg, start, events[..|events| - 1]) &&
      Legal(Run(cfg, start, events[..|events| - 1]), events[|events| - 1])
  }

  lemma SinceHasTail(attempts: seq<Grant>, cutoff: int, k: nat)
    requires Sorted(attempts) && k < |attempts| && attempts[k].at > cutoff
    ensures |Since(attempts, cutoff)| >= |attempts| - k
  {
    if k == 0 {
      if |attempts| > 1 { SinceHasTail(attempts[1..], cutoff, 0); }
    } else {
      SinceHasTail(attempts[1..], cutoff, k - 1);
    }
  }

  lemma {:induction false} KeptIsSuffix(attempts: seq<Grant>, cutoff: int)
    ensures var r := Kept(attempts, cutoff);
            var d := |attempts| - |r|;
            r == attempts[d..] && (r != [] ==> r[0].at >= cutoff) &&
            forall i :: 0 <= i < d ==> attempts[i].at < cutoff
  {
    if attempts != [] && attempts[0].at < cutoff {
      KeptIsSuffix(attempts[1..], cutoff);
      var d := |attempts| - |Kept(attempts, cutoff)|;
      assert attempts[1..][d - 1..] == attempts[d..];
      forall i | 0 <= i < d ensures attempts[i].at < cutoff {
        if i > 0 { assert attempts[i] == attempts[1..][i - 1]; }
      }
    }
  }

  lemma {:induction false} PurgeKeepsPending(s: Memory, now: int)
    requires PendingIsLast(s)
    ensures PendingIsLast(Purged(s, now))
  {
    KeptIsSuffix(s.attempts, now - DAY);
  }

  lemma {:induction false} ForgetMore(history: seq<Grant>, dropped: nat, more: nat, cutoff: int)
    requires dropped <= |history| && more <= |history[dropped..]|
    requires forall i :: 0 <= i < dropped ==> history[i].at < cutoff
    requires forall i :: 0 <= i < more ==> history[dropped..][i].at < cutoff
    ensures history[dropped..][more..] == history[dropped + more..]
    ensures forall i :: 0 <= i < dropped + more ==> history[i].at < cutoff
  {
    forall i | dropped <= i < dropped + more
      ensures history[i].at < cutoff
    {
      assert history[dropped..][i - dropped] == history[i];
    }
  }

  lemma {:induction false} PurgeKeepsMemory(w: World, now: int)
    requires Remembers(w) && w.clock <= now
    ensures Remembers(Forgotten(w, now))
  {
    var kept := Kept(w.s.attempts, now - DAY);
    KeptIsSuffix(w.s.attempts, now - DAY);
    ForgetMore(w.history, w.dropped, |w.s.attempts| - |kept|, now - DAY);
  }

  lemma {:induction false} GrantKeepsDayWindow(cfg: Config, w: World)
    requires Remembers(w) && Windowed(w.history, cfg.maxPerDay, DAY, true)
    requires |w.s.attempts| < cfg.maxPerDay
    ensures Windowed(w.history + [Grant(w.clock, Open)], cfg.maxPerDay, DAY, true)
  {
  }

  lemma {:induction false} GrantKeepsHourWindow(cfg: Config, w: World)
    requires Remembers(w) && Windowed(w.history, cfg.maxPerHour, HOUR, false)
    requires |Since(w.s.attempts, w.clock - HOUR)| < cfg.maxPerHour
    ensures Windowed(w.history + [Grant(w.clock, Open)], cfg.maxPerHour, HOUR, false)
  {
    var n := |w.history|;
    forall i | 0 <= i < n && n - i >= cfg.maxPerHour
      ensures w.clock - w.history[i].at >= HOUR
    {
      if w.history[i].at > w.clock - HOUR {
        assert w.dropped <= i;
        assert w.s.attempts[i - w.dropped] == w.history[i];
        SinceHasTail(w.s.attempts, w.clock - HOUR, i - w.dropped);
      }
    }
  }

  lemma {:induction false} GrantKeepsCooldowns(cfg: Config, w: World)
    requires Remembers(w) && w.s.failures == Streak(w.history) && Cooled(cfg, w.history)
    requires Verdict(cfg, w.s, w.clock) == Allowed
    ensures Cooled(cfg, w.history + [Grant(w.clock, Open)])
  {
    var h, n := w.history + [Grant(w.clock, Open)], |w.history|;
    forall i | 0 < i < |h|
      ensures h[i].at - h[i - 1].at >= Enforced(Owed(cfg, h[..i]))
    {
      assert h[..i] == w.history[..i];
      if i == n {
        assert w.history[..n] == w.history;
        LastIsRemembered(cfg, w);
      }
    }
  }

  lemma {:induction false} LastIsRemembered(cfg: Config, w: World)
    requires Remembers(w) && w.s.failures == Streak(w.history) && w.history != []
    requires Verdict(cfg, w.s, w.clock) == Allowed
    ensures w.clock - w.history[|w.history| - 1].at >= Enforced(Owed(cfg, w.history))
  {
    if w.s.attempts != [] {
      assert w.s.attempts[|w.s.attempts| - 1] == w.history[|w.history| - 1];
    }
  }

  lemma {:induction false} GrantKeepsMemory(w: World)
    requires Remembers(w)
    ensures Remembers(Granted(w)) && PendingIsLast(Granted(w).s)
    ensures Streak(Granted(w).history) == Streak(w.history)
  {
    var h := w.history + [Grant(w.clock, Open)];
    assert h[w.dropped..] == w.history[w.dropped..] + [Grant(w.clock, Open)];
    assert h[..|w.history|] == w.history;
  }

  lemma {:induction false} GrantKeepsInv(cfg: Config, w: World)
    requires Inv(cfg, w) && Verdict(cfg, w.s, w.clock) == Allowed
    ensures Inv(cfg, Granted(w))
  {
    GrantKeepsMemory(w);
    GrantKeepsDayWindow(cfg, w);
    GrantKeepsHourWindow(cfg, w);
    GrantKeepsCooldowns(cfg, w);
  }

  // Recording an outcome touches the last attempt only, so nothing an earlier grant relied on changes.
  lemma {:induction false} ClosingKeepsSpacing(cfg: Config, history: seq<Grant>, outcome: Outcome)
    requires history != [] && Spaced(cfg, history) && Sorted(history)
    ensures var h := history[|history| - 1 := history[|history| - 1].(outcome := outcome)];
            Spaced(cfg, h) && Sorted(h)
  {
    var h := history[|history| - 1 := history[|history| - 1].(outcome := outcome)];
    assert forall i :: 0 <= i < |h| ==> h[i].at == history[i].at;
    forall i | 0 < i < |h|
      ensures h[i].at - h[i - 1].at >= Enforced(Owed(cfg, h[..i]))
    {
      assert h[..i] == history[..i];
    }
  }

  lemma {:induction false} ClosingKeepsMemory(w: World, ok: bool)
    requires Remembers(w) && PendingIsLast(w.s) && w.s.failures == Streak(w.history) && w.s.pending.Some?
    ensures w.history != []
    ensures var v := Decided(w, ok);
            Remembers(v) && PendingIsLast(v.s) && v.s.failures == Streak(v.history)
  {
    var n := |w.history| - 1;
    assert w.history[n] == w.s.attempts[|w.s.attempts| - 1];
    var h := w.history[n := w.history[n].(outcome := if ok then Succeeded else Failed)];
    assert h[..n] == w.history[..n];
    assert h[w.dropped..] == w.s.attempts[|w.s.attempts| - 1 := h[n]];
    assert forall i :: 0 <= i < |h| ==> h[i].at == w.history[i].at;
  }

  lemma {:induction false} ClosingKeepsInv(cfg: Config, w: World, ok: bool)
    requires Inv(cfg, w)
    ensures Inv(cfg, Decided(w, ok))
  {
    if w.s.pending.Some? {
      ClosingKeepsMemory(w, ok);
      ClosingKeepsSpacing(cfg, w.history, if ok then Succeeded else Failed);
    }
  }

  lemma {:induction false} ForgettingKeepsInv(cfg: Config, w: World, now: int)
    requires Inv(cfg, w) && w.clock <= now
    ensures Inv(cfg, Forgotten(w, now))
  {
    PurgeKeepsPending(w.s, now);
    PurgeKeepsMemory(w, now);
  }

  lemma {:induction false} AskKeepsInv(cfg: Config, w: World)
    requires Inv(cfg, w)
    ensures Inv(cfg, if Verdict(cfg, w.s, w.clock) == Allowed then Granted(w) else w)
  {
    if Verdict(cfg, w.s, w.clock) == Allowed { GrantKeepsInv(cfg, w); }
  }

  lemma {:induction false} StepKeepsInv(cfg: Config, w: World, e: Event)
    requires Inv(cfg, w) && Legal(w, e)
    ensures Inv(cfg, Advance(cfg, w, e))
  {
    if e.Ask? || e.Peek? {
      ForgettingKeepsInv(cfg, w, e.now);
      if e.Ask? { AskKeepsInv(cfg, Forgotten(w, e.now)); }
    } else {
      ClosingKeepsInv(cfg, w, e.Success?);
    }
  }

  /** In every run with a clock that never runs backwards, for every configuration: any maxPerDay + 1
    * consecutive grants span more than a day, and any maxPerHour + 1 span at least an hour, although
    * the deque forgets old attempts; each grant waits for the cool-down that the previous one's outcome
    * and failure streak call for, or for more than a day if that is longer; and the pending index names
    * the last attempt, which is open.
    */
  lemma {:induction false} GrantsAreSpaced(cfg: Config, start: int, events: seq<Event>)
    requires LegalRun(cfg, start, events)
    ensures var w := Run(cfg, start, events);
            && Windowed(w.history, cfg.maxPerDay, DAY, true)
            && Windowed(w.history, cfg.maxPerHour, HOUR, false)
            && Cooled(cfg, w.history)
            && PendingIsLast(w.s) && Inv(cfg, w)
  {
    if events != [] {
      var last := |events| - 1;
      GrantsAreSpaced(cfg, start, events[..last]);
      StepKeepsInv(cfg, Run(cfg, start, events[..last]), events[last]);
    }
  }

  // ---- How long a refusal lasts ----

  // The answer at `later` when nothing was called since `s`.
  function Later(cfg: Config, s: Memory, later: int): Decision {
    Verdict(cfg, Purged(s, later), later)
  }

  lemma {:induction false} SinceIsSuffix(attempts: seq<Grant>, cutoff: int)
    requires Sorted(attempts)
    ensures Since(attempts, cutoff) == attempts[|attempts| - |Since(attempts, cutoff)|..]
    ensures forall a :: a in Since(attempts, cutoff) ==> a.at > cutoff
  {
    if attempts != [] {
      SinceIsSuffix(attempts[1..], cutoff);
      if attempts[0].at > cutoff {
        SinceHasTail(attempts, cutoff, 0);
        assert Since(attempts, cutoff) == attempts;
      } else {
        var k := |Since(attempts, cutoff)|;
        assert attempts[1..][|attempts| - 1 - k..] == attempts[|attempts| - k..];
      }
    }
  }

  // A purge keeps whatever is recent enough, and nothing else.
  lemma {:induction false} PurgeAt(attempts: seq<Grant>, cutoff: int, k: nat)
    requires Sorted(attempts) && k < |attempts|
    ensures attempts[k].at >= cutoff ==> |Kept(attempts, cutoff)| >= |attempts| - k
    ensures attempts[k].at < cutoff ==> |Kept(attempts, cutoff)| < |attempts| - k
  {
    KeptIsSuffix(attempts, cutoff);
    var d := |attempts| - |Kept(attempts, cutoff)|;
    if d < |attempts| { assert Kept(attempts, cutoff)[0] == attempts[d]; }
  }

  lemma {:induction false} RemembersSorted(w: World)
    requires Remembers(w)
    ensures Sorted(w.s.attempts)
    ensures w.s.attempts != [] ==> w.s.attempts[|w.s.attempts| - 1].at <= w.clock
  {
    assert forall i :: 0 <= i < |w.s.attempts| ==> w.s.attempts[i] == w.history[w.dropped + i];
  }

  // What the deque holds inherits the windows of the history.
  lemma {:induction false} WindowBounds(w: World, attempts: seq<Grant>, limit: int, width: int, strictly: bool)
    requires Remembers(w) && Windowed(w.history, limit, width, strictly)
    requires |attempts| <= |w.s.attempts| && attempts == w.s.attempts[|w.s.attempts| - |attempts|..]
    requires attempts != [] ==> w.clock - attempts[0].at < if strictly then width + 1 else width
    ensures |attempts| <= limit || attempts == []
  {
    if attempts != [] {
      var n := |w.history| - 1;
      var i := |w.history| - |attempts|;
      assert attempts[0] == w.s.attempts[|w.s.attempts| - |attempts|] == w.history[i];
      assert w.history[n].at - w.history[i].at <= w.clock - attempts[0].at;
    }
  }

  lemma {:induction false} DailyCount(w: World, limit: int, later: int)
    requires Remembers(w) && Windowed(w.history, limit, DAY, true) && w.clock <= later
    requires w.s.attempts != [] && w.s.attempts[0].at >= w.clock - DAY
    ensures |w.s.attempts| <= limit
    ensures later <= w.s.attempts[0].at + DAY ==> Kept(w.s.attempts, later - DAY) == w.s.attempts
    ensures later > w.s.attempts[0].at + DAY ==> |Kept(w.s.attempts, later - DAY)| < |w.s.attempts|
  {
    WindowBounds(w, w.s.attempts, limit, DAY, true);
  }

  lemma {:induction false} DailyRefusal(cfg: Config, w: World, later: int)
    requires Inv(cfg, w) && w.clock <= later
    requires w.s.attempts != [] ==> w.s.attempts[0].at >= w.clock - DAY
    requires Verdict(cfg, w.s, w.clock).Refused? && Verdict(cfg, w.s, w.clock).reason == DailyLimit
    ensures var d := Verdict(cfg, w.s, w.clock);
            if later <= d.retryAt then Later(cfg, w.s, later) == d
            else !(Later(cfg, w.s, later).Refused? && Later(cfg, w.s, later).reason == d.reason)
  {
    DailyCount(w, cfg.maxPerDay, later);
  }

  // The attempts that still count after an hour's worth of waiting, out of those that count now.
  lemma {:induction false} HourlyDrop(a: seq<Grant>, now: seq<Grant>, p: seq<Grant>, then_: seq<Grant>, later: int)
    requires |now| > 0 && |now| <= |a| && now[0] == a[|a| - |now|]
    requires |p| <= |a| && p == a[|a| - |p|..]
    requires |then_| <= |p| && then_ == p[|p| - |then_|..]
    requires forall x :: x in then_ ==> x.at > later - HOUR
    requires later >= now[0].at + HOUR
    ensures |then_| < |now|
  {
    assert forall i :: 0 <= i < |then_| ==> then_[i] == a[|a| - |then_| + i] && then_[i] in then_;
  }

  lemma {:induction false} HourlyStay(a: seq<Grant>, later: int, k: nat)
    requires Sorted(a) && k < |a| && later < a[k].at + HOUR
    ensures |Since(Kept(a, later - DAY), later - HOUR)| >= |a| - k
  {
    var p := Kept(a, later - DAY);
    KeptIsSuffix(a, later - DAY);
    PurgeAt(a, later - DAY, k);
    assert p[k - (|a| - |p|)] == a[k];
    SinceHasTail(p, later - HOUR, k - (|a| - |p|));
  }

  lemma {:induction false} HourlyBound(w: World, limit: int)
    requires Remembers(w) && Windowed(w.history, limit, HOUR, false)
    requires Since(w.s.attempts, w.clock - HOUR) != []
    ensures |Since(w.s.attempts, w.clock - HOUR)| <= limit
  {
    var now := Since(w.s.attempts, w.clock - HOUR);
    RemembersSorted(w);
    SinceIsSuffix(w.s.attempts, w.clock - HOUR);
    assert now[0] in now;
    WindowBounds(w, now, limit, HOUR, false);
  }

  lemma {:induction false} HourlyCount(a: seq<Grant>, clock: int, later: int)
    requires Sorted(a) && clock <= later && Since(a, clock - HOUR) != []
    ensures var now := Since(a, clock - HOUR);
            var then_ := Since(Kept(a, later - DAY), later - HOUR);
            if later < now[0].at + HOUR then |then_| >= |now| else |then_| < |now|
  {
    var now := Since(a, clock - HOUR);
    SinceIsSuffix(a, clock - HOUR);
    if later < now[0].at + HOUR {
      HourlyStay(a, later, |a| - |now|);
    } else {
      var p := Kept(a, later - DAY);
      KeptIsSuffix(a, later - DAY);
      SuffixIsSorted(a, |a| - |p|);
      SinceIsSuffix(p, later - HOUR);
      HourlyDrop(a, now, p, Since(p, later - HOUR), later);
    }
  }

  lemma {:induction false} SuffixIsSorted(a: seq<Grant>, k: nat)
    requires Sorted(a) && k <= |a|
    ensures Sorted(a[k..])
  {
  }

  lemma {:induction false} HourlyRefusal(cfg: Config, w: World, later: int)
    requires Inv(cfg, w) && w.clock <= later
    requires Verdict(cfg, w.s, w.clock).Refused? && Verdict(cfg, w.s, w.clock).reason == HourlyLimit
    ensures var d := Verdict(cfg, w.s, w.clock);
            if later < d.retryAt then Later(cfg, w.s, later).Refused?
            else !(Later(cfg, w.s, later).Refused? && Later(cfg, w.s, later).reason == d.reason)
  {
    RemembersSorted(w);
    HourlyBound(w, cfg.maxPerHour);
    HourlyCount(w.s.attempts, w.clock, later);
  }

  /** A cool-down refusal lasts until its retry time exactly when the cool-down is no longer than a
    * day (and one clock unit): a longer one is forgotten together with the purged attempt.
    */
  lemma {:induction false} CooldownRefusal(cfg: Config, s: Memory, now: int)
    requires Sorted(s.attempts) && (s.attempts != [] ==> s.attempts[|s.attempts| - 1].at >= now - DAY)
    requires Verdict(cfg, s, now).Refused? && Verdict(cfg, s, now).reason.Cooldown?
    ensures var d := Verdict(cfg, s, now);
            (forall later :: now <= later < d.retryAt ==> Later(cfg, s, later) != Allowed)
            <==> d.reason.length <= DAY + 1
    ensures var d := Verdict(cfg, s, now);
            forall later :: now <= later && later >= d.retryAt ==>
              !(Later(cfg, s, later).Refused? && Later(cfg, s, later).reason == d.reason)
  {
    var d := Verdict(cfg, s, now);
    var n := |s.attempts| - 1;
    forall later | now <= later
      ensures s.attempts[n].at >= later - DAY ==>
                (Later(cfg, s, later) == Allowed <==> later >= d.retryAt && !Later(cfg, s, later).Refused?)
      ensures s.attempts[n].at >= later - DAY && later < d.retryAt ==> Later(cfg, s, later) != Allowed
      ensures s.attempts[n].at >= later - DAY && later >= d.retryAt && Later(cfg, s, later).Refused? ==>
                Later(cfg, s, later).reason != d.reason
      ensures s.attempts[n].at < later - DAY ==> Later(cfg, s, later) == Allowed
    {
      PurgeAt(s.attempts, later - DAY, n);
      KeptIsSuffix(s.attempts, later - DAY);
    }
    if d.reason.length > DAY + 1 {
      assert Later(cfg, s, s.attempts[n].at + DAY + 1) == Allowed;
    }
  }

  // What a refusal promises of an answer given later, with no call in between: nothing is granted
  // before its retry time, and strictly after it the same reason is not given. A cool-down longer than a
  // day and one clock unit does not keep the first half.
  predicate Exact(refusal: Decision, answer: Decision, later: int)
    requires refusal.Refused?
  {
    && (later < refusal.retryAt && (refusal.reason.Cooldown? ==> refusal.reason.length <= DAY + 1) ==> answer != Allowed)
    && (later > refusal.retryAt ==> !(answer.Refused? && answer.reason == refusal.reason))
  }

  lemma {:induction false} RefusalLasts(cfg: Config, w: World, later: int)
    requires Inv(cfg, w) && w.clock <= later
    requires w.s.attempts != [] ==> w.s.attempts[0].at >= w.clock - DAY
    requires Verdict(cfg, w.s, w.clock).Refused?
    ensures Exact(Verdict(cfg, w.s, w.clock), Later(cfg, w.s, later), later)
  {
    match Verdict(cfg, w.s, w.clock).reason
    case DailyLimit => DailyRefusal(cfg, w, later);
    case HourlyLimit => HourlyRefusal(cfg, w, later);
    case Cooldown(_) =>
      RemembersSorted(w);
      CooldownRefusal(cfg, w.s, w.clock);
  }

  lemma {:induction false} RefusedAsk(cfg: Config, s: Memory, now: int)
    requires Later(cfg, s, now).Refused?
    ensures AfterAsk(cfg, s, now) == Purged(s, now)
  {
  }

  /** With no call in between, an attempt before the announced retry time is refused again (unless the
    * throttle forgets its reason first, a cool-down longer than a day), and strictly after it the same
    * reason is never given.
    */
  lemma {:induction false} RefusalIsExact(cfg: Config, start: int, events: seq<Event>, now: int, later: int)
    requires LegalRun(cfg, start, events)
    requires Run(cfg, start, events).clock <= now <= later
    requires Later(cfg, Run(cfg, start, events).s, now).Refused?
    ensures var s := Run(cfg, start, events).s;
            Exact(Later(cfg, s, now), Later(cfg, AfterAsk(cfg, s, now), later), later)
  {
    var w := Run(cfg, start, events);
    GrantsAreSpaced(cfg, start, events);
    ForgettingKeepsInv(cfg, w, now);
    KeptIsSuffix(w.s.attempts, now - DAY);
    RefusedAsk(cfg, w.s, now);
    RefusalLasts(cfg, Forgotten(w, now), later);
  }

  // ---- Exactly what is granted, told from the times and outcomes of all attempts ----

  // How many attempts were made at `from` or later.
  function MadeSince(history: seq<Grant>, from: int): nat {
    if history == [] then 0
    else MadeSince(history[..|history| - 1], from) + if history[|history| - 1].at >= from then 1 else 0
  }

  function FailuresIn(history: seq<Grant>): nat {
    if history == [] then 0
    else FailuresIn(history[..|history| - 1]) + if history[|history| - 1].outcome == Failed then 1 else 0
  }

  // From `m` on there was no success, and before it either a success or nothing.
  ghost predicate SinceSuccess(history: seq<Grant>, m: nat) {
    && m <= |history| && (m == 0 || history[m - 1].outcome == Succeeded)
    && (forall i :: m <= i < |history| ==> history[i].outcome != Succeeded)
  }

  // The wait after the last attempt: the n-th failure since the last success calls for the n-th level
  // (the last one when there are no more), everything else for the minimum interval.
  ghost function WaitAfter(cfg: Config, history: seq<Grant>, m: nat): int
    requires history != [] && SinceSuccess(history, m)
  {
    var n := FailuresIn(history[m..]);
    if history[|history| - 1].outcome != Failed || cfg.backoffLevels == [] then cfg.minInterval
    else if 1 <= n <= |cfg.backoffLevels| then cfg.backoffLevels[n - 1]
    else cfg.backoffLevels[|cfg.backoffLevels| - 1]
  }

  lemma {:induction false} StreakCounts(history: seq<Grant>, m: nat)
    requires SinceSuccess(history, m)
    ensures Streak(history) == FailuresIn(history[m..])
  {
    var n := |history| - 1;
    if m < |history| {
      assert SinceSuccess(history[..n], m);
      StreakCounts(history[..n], m);
      assert history[m..][..|history| - m - 1] == history[..n][m..];
    } else {
      assert history[m..] == [];
    }
  }

  lemma {:induction false} SomeFailure(history: seq<Grant>, m: nat)
    requires SinceSuccess(history, m) && history != [] && history[|history| - 1].outcome == Failed
    ensures FailuresIn(history[m..]) >= 1
  {
    assert history[m..][|history| - m - 1] == history[|history| - 1];
  }

  lemma {:induction false} OwedIsWait(cfg: Config, history: seq<Grant>, m: nat)
    requires history != [] && SinceSuccess(history, m)
    ensures Owed(cfg, history) == WaitAfter(cfg, history, m)
  {
    StreakCounts(history, m);
    if history[|history| - 1].outcome == Failed { SomeFailure(history, m); }
  }

  lemma {:induction false} MadeSinceSuffix(history: seq<Grant>, k: nat, from: int)
    requires k <= |history| && forall i :: 0 <= i < k ==> history[i].at < from
    ensures MadeSince(history, from) == MadeSince(history[k..], from)
  {
    if k < |history| {
      var n := |history| - 1;
      assert history[k..][..n - k] == history[..n][k..];
      MadeSinceSuffix(history[..n], k, from);
    } else if history != [] {
      MadeSinceSuffix(history[..|history| - 1], k - 1, from);
      assert history[k..] == [] && history[..|history| - 1][k - 1..] == [];
    }
  }

  lemma {:induction false} MadeSinceAll(history: seq<Grant>, from: int)
    requires forall i :: 0 <= i < |history| ==> history[i].at >= from
    ensures MadeSince(history, from) == |history|
  {
    if history != [] { MadeSinceAll(history[..|history| - 1], from); }
  }

  lemma {:induction false} SinceCounts(attempts: seq<Grant>, cutoff: int)
    ensures |Since(attempts, cutoff)| == MadeSince(attempts, cutoff + 1)
  {
    if attempts != [] {
      SinceCounts(attempts[1..], cutoff);
      MadeSinceFront(attempts, cutoff + 1);
    }
  }

  lemma {:induction false} MadeSinceFront(history: seq<Grant>, from: int)
    requires history != []
    ensures MadeSince(history, from) == MadeSince(history[1..], from) + if history[0].at >= from then 1 else 0
  {
    var n := |history| - 1;
    if n > 0 {
      MadeSinceFront(history[..n], from);
      assert history[1..][..n - 1] == history[..n][1..];
    } else {
      assert history[1..] == [] && history[..n] == [];
    }
  }

  // What the purged deque holds is the end of the history, without what is more than a day old.
  lemma {:induction false} KeptIsTail(w: World, now: int) returns (k: nat)
    requires Remembers(w) && w.clock <= now
    ensures k <= |w.history| && Kept(w.s.attempts, now - DAY) == w.history[k..]
    ensures forall i :: 0 <= i < k ==> w.history[i].at < now - DAY
    ensures k < |w.history| ==> w.history[k].at >= now - DAY
  {
    var kept := Kept(w.s.attempts, now - DAY);
    KeptIsSuffix(w.s.attempts, now - DAY);
    ForgetMore(w.history, w.dropped, |w.s.attempts| - |kept|, now - DAY);
    k := w.dropped + |w.s.attempts| - |kept|;
    if k < |w.history| { assert kept[0] == w.history[k]; }
  }

  lemma {:induction false} TailCounts(history: seq<Grant>, k: nat, now: int)
    requires Sorted(history) && k <= |history| && forall i :: 0 <= i < k ==> history[i].at < now - DAY
    requires k < |history| ==> history[k].at >= now - DAY
    ensures |history[k..]| == MadeSince(history, now - DAY)
    ensures |Since(history[k..], now - HOUR)| == MadeSince(history, now - HOUR + 1)
  {
    MadeSinceSuffix(history, k, now - DAY);
    MadeSinceAll(history[k..], now - DAY);
    MadeSinceSuffix(history, k, now - HOUR + 1);
    SinceCounts(history[k..], now - HOUR);
  }

  // The verdict on a run, in these terms: the reason, and for a cool-down its length and end.
  ghost predicate VerdictIs(cfg: Config, history: seq<Grant>, m: nat, now: int, answer: Decision)
    requires SinceSuccess(history, m)
  {
    if MadeSince(history, now - DAY) >= cfg.maxPerDay then
      if MadeSince(history, now - DAY) == 0 then answer == IndexError
      else answer.Refused? && answer.reason == DailyLimit
    else if MadeSince(history, now - HOUR + 1) >= cfg.maxPerHour then
      if MadeSince(history, now - HOUR + 1) == 0 then answer == IndexError
      else answer.Refused? && answer.reason == HourlyLimit
    else if history == [] || history[|history| - 1].at < now - DAY then answer == Allowed
    else
      var last, wait := history[|history| - 1], WaitAfter(cfg, history, m);
      answer == if now >= last.at + wait then Allowed else Refused(Cooldown(wait), last.at + wait)
  }

  lemma {:induction false} VerdictOfTail(cfg: Config, history: seq<Grant>, k: nat, p: Memory, m: nat, now: int)
    requires SinceSuccess(history, m) && k <= |history| && p.attempts == history[k..] && p.failures == Streak(history)
    requires |p.attempts| == MadeSince(history, now - DAY)
    requires |Since(p.attempts, now - HOUR)| == MadeSince(history, now - HOUR + 1)
    requires history != [] ==> (k == |history| <==> history[|history| - 1].at < now - DAY)
    requires history != [] ==> Owed(cfg, history) == WaitAfter(cfg, history, m)
    ensures VerdictIs(cfg, history, m, now, Verdict(cfg, p, now))
  {
    if p.attempts != [] { assert p.attempts[|p.attempts| - 1] == history[|history| - 1]; }
  }

  lemma {:induction false} VerdictByHistory(cfg: Config, w: World, m: nat, now: int)
    requires Inv(cfg, w) && w.clock <= now && SinceSuccess(w.history, m)
    ensures VerdictIs(cfg, w.history, m, now, Later(cfg, w.s, now))
  {
    var k := KeptIsTail(w, now);
    TailCounts(w.history, k, now);
    if w.history != [] { OwedIsWait(cfg, w.history, m); }
    VerdictOfTail(cfg, w.history, k, Purged(w.s, now), m, now);
  }

  /** After any run, an ask is granted exactly if fewer than maxPerDay attempts were made in the last 24
    * hours and fewer than maxPerHour in the last hour, and the wait after the last attempt (if it is not
    * older than a day) is over; otherwise the refusal gives the first reason of these that holds, and for
    * a cool-down its length and end.
    */
  lemma {:induction false} AnsweredExactlyAs(cfg: Config, start: int, events: seq<Event>, m: nat, now: int, w: World)
    requires LegalRun(cfg, start, events) && w == Run(cfg, start, events)
    requires w.clock <= now && SinceSuccess(w.history, m)
    ensures VerdictIs(cfg, w.history, m, now, Later(cfg, w.s, now))
  {
    GrantsAreSpaced(cfg, start, events);
    VerdictByHistory(cfg, w, m, now);
  }

  lemma {:induction false} HistoryGrows(cfg: Config, w: World, e: Event)
    ensures var v := Advance(cfg, w, e);
            && v.clock == (if e.Ask? || e.Peek? then e.now else w.clock)
            && (if e.Ask? then v.history == w.history || v.history == w.history + [Grant(e.now, Open)]
                else |v.history| == |w.history|)
            && (forall i :: 0 <= i < |w.history| ==> v.history[i].at == w.history[i].at)
  {
  }

  lemma {:induction false} LastIsKept(w: World, now: int)
    requires Remembers(w) && w.clock <= now && w.dropped < |w.history|
    requires w.history[|w.history| - 1].at >= now - DAY
    ensures var kept := Kept(w.s.attempts, now - DAY);
            kept != [] && kept[|kept| - 1] == w.history[|w.history| - 1]
  {
    var a := w.s.attempts;
    assert a[|a| - 1] == w.history[|w.history| - 1];
    RemembersSorted(w);
    PurgeAt(a, now - DAY, |a| - 1);
    KeptIsSuffix(a, now - DAY);
  }

  // A grant is on record in the deque, not only in the history.
  lemma {:induction false} GrantIsRemembered(cfg: Config, w: World, now: int)
    requires w.dropped + |w.s.attempts| <= |w.history|
    ensures Advance(cfg, w, Ask(now)).dropped <= |w.history|
  {
  }

  // The world's memory moves as the object's methods move it.
  lemma {:induction false} AdvanceIsTheObject(cfg: Config, w: World, e: Event)
    ensures Advance(cfg, w, e).s ==
            match e
            case Ask(now) => AfterAsk(cfg, w.s, now)
            case Peek(now) => Purged(w.s, now)
            case Success => AfterClose(w.s, true)
            case Failure => AfterClose(w.s, false)
  {
  }
}
