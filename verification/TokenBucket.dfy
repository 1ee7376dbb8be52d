/** The token bucket that paces broker calls (throttle/bucket.py), over real numbers. */
module TokenBucket {
  import opened Options

  const MIN_BACKOFF := 0.5

  datatype Limits = Limits(rate: real, capacity: real)

  datatype Level = Level(tokens: real, at: real)

  function Min(a: real, b: real): real { if a < b then a else b }

  function Max(a: real, b: real): real { if a > b then a else b }

  function Refilled(l: Limits, b: Level, now: real): real {
    Min(l.capacity, b.tokens + Max(0.0, now - b.at) * l.rate)
  }

  // One pass through the locked section: take a token if there is one.
  function AfterPass(l: Limits, b: Level, now: real): Level {
    var tokens := Refilled(l, b, now);
    Level(if tokens >= 1.0 then tokens - 1.0 else tokens, now)
  }

  // In so many seconds flows in what a bucket with `found` tokens misses to a whole one.
  predicate Fills(l: Limits, seconds: real, found: real) {
    seconds * l.rate == 1.0 - found
  }

  // The extra wait after a pacing violation; `u` is the random number in [0, 1).
  function BackedOff(extra: real, maxBackoff: real, jitter: real, u: real): real {
    Min(maxBackoff, Jittered(Base(extra), jitter, 2.0 * u - 1.0))
  }

  function Base(extra: real): (r: real)
    ensures r > 0.0
  {
    Max(MIN_BACKOFF, if extra > 0.0 then extra * 2.0 else MIN_BACKOFF)
  }

  // `swing` runs from -1 to 1.
  function Jittered(base: real, jitter: real, swing: real): real {
    base + base * jitter * swing
  }

  class TokenBucket {
    const limits: Limits
    const maxBackoff: real
    const jitter: real
    var tokens: real
    var lastRefill: real
    var extraWait: real
    var consecutiveSuccesses: nat
    var acquiredTotal: nat
    var waitMsTotal: real
    var violationsTotal: nat

    function Abs(): Level
      reads this
    {
      Level(tokens, lastRefill)
    }

    function Pacing(): Pace
      reads this
    {
      Pace(extraWait, consecutiveSuccesses)
    }

    ghost predicate Valid()
      reads this
    {
      limits.rate > 0.0 && limits.capacity > 0.0 && 0.0 <= tokens <= limits.capacity
    }

    constructor (limits: Limits, maxBackoff: real, jitter: real, now: real)
      requires limits.rate > 0.0 && limits.capacity > 0.0
      ensures Valid() && this.limits == limits && this.maxBackoff == maxBackoff && this.jitter == jitter
      ensures Abs() == Level(limits.capacity, now) && Pacing() == Pace(0.0, 0) && acquiredTotal == 0
    {
      this.limits, this.maxBackoff, this.jitter := limits, maxBackoff, jitter;
      tokens, lastRefill, extraWait := limits.capacity, now, 0.0;
      consecutiveSuccesses, acquiredTotal, waitMsTotal, violationsTotal := 0, 0, 0.0, 0;
    }

    // The locked section: None when a token was taken, otherwise how long the caller has to sleep.
    method Pass(now: real) returns (wait: Option<real>)
      requires Valid()
      modifies this`tokens, this`lastRefill
      ensures Valid() && Abs() == AfterPass(limits, old(Abs()), now)
      ensures wait.None? <==> Refilled(limits, old(Abs()), now) >= 1.0
      ensures wait.Some? ==> wait.value > 0.0 && wait.value * limits.rate == 1.0 - tokens
    {
      var elapsed := Max(0.0, now - lastRefill);
      NonNegative(elapsed, limits.rate);
      tokens := Min(limits.capacity, tokens + elapsed * limits.rate);
      lastRefill := now;
      if tokens >= 1.0 {
        tokens := tokens - 1.0;
        return None;
      }
      var deficit := 1.0 - tokens;
      Quotient(deficit, limits.rate);
      return Some(deficit / limits.rate);
    }

    /** `acquire` for a caller that is alone: it serves the extra wait once and then sleeps at most
      * once for a refill, however late the sleeps end (`late`).
      */
    method Acquire(start: real, late: nat -> real) returns (waited: real, refillSleeps: nat)
      requires Valid() && limits.capacity >= 1.0 && start >= lastRefill
      requires forall k: nat :: late(k) >= 0.0
      modifies this
      ensures Valid() && Pacing() == AfterHappening(old(Pacing()), Served, maxBackoff, jitter)
      ensures refillSleeps <= 1
      ensures waited >= Max(0.0, old(extraWait)) && (refillSleeps == 0 ==> waited == Max(0.0, old(extraWait)))
      ensures var begun := if old(extraWait) > 0.0 then start + old(extraWait) + late(0) else start;
              var found := Refilled(limits, old(Abs()), begun);
              && (refillSleeps == 1 <==> found < 1.0)
              && (refillSleeps == 1 ==> Fills(limits, waited - Max(0.0, old(extraWait)), found))
      ensures acquiredTotal == old(acquiredTotal) + 1 && waitMsTotal == old(waitMsTotal) + waited * 1000.0
    {
      waited, refillSleeps := 0.0, 0;
      var now := start;
      if extraWait > 0.0 {
        var extra := extraWait;
        extraWait := 0.0;
        now := now + extra + late(0);
        waited := waited + extra;
      }
      var atFirst := waited;
      ghost var begun, found, slept := now, Refilled(limits, Abs(), now), 0.0;
      while true
        invariant Valid() && now >= lastRefill && refillSleeps <= 1
        invariant Pacing() == AfterHappening(old(Pacing()), Served, maxBackoff, jitter)
        invariant acquiredTotal == old(acquiredTotal) && waitMsTotal == old(waitMsTotal)
        invariant refillSleeps == 0 ==> waited == atFirst
        invariant waited >= atFirst
        invariant refillSleeps == 0 ==> now == begun && Abs() == old(Abs())
        invariant refillSleeps == 1 ==> Refilled(limits, Abs(), now) >= 1.0
        invariant refillSleeps == 1 ==> found < 1.0 && Fills(limits, slept, found)
        invariant waited == atFirst + slept
        decreases 1 - refillSleeps
      {
        var wait := Pass(now);
        match wait
        case None =>
          acquiredTotal := acquiredTotal + 1;
          waitMsTotal := waitMsTotal + waited * 1000.0;
          return;
        case Some(s) =>
          var l := late(refillSleeps + 1);
          SleptEnough(limits, Abs(), s, l);
          now := now + s + l;
          waited, slept := waited + s, slept + s;
          refillSleeps := refillSleeps + 1;
      }
    }

    method RegisterPacingViolation(u: real)
      modifies this`extraWait, this`consecutiveSuccesses, this`violationsTotal
      ensures Pacing() == AfterHappening(old(Pacing()), Violation(u), maxBackoff, jitter)
      ensures violationsTotal == old(violationsTotal) + 1
    {
      var doubled := MIN_BACKOFF;
      if extraWait > 0.0 { doubled := extraWait * 2.0; }
      var base := Max(MIN_BACKOFF, doubled);
      var jittered := Jittered(base, jitter, 2.0 * u - 1.0);
      extraWait := Min(maxBackoff, jittered);
      consecutiveSuccesses := 0;
      violationsTotal := violationsTotal + 1;
    }

    method RegisterSuccess()
      modifies this`extraWait, this`consecutiveSuccesses
      ensures Pacing() == AfterHappening(old(Pacing()), Success, maxBackoff, jitter)
    {
      consecutiveSuccesses := consecutiveSuccesses + 1;
      if consecutiveSuccesses >= 5 { extraWait := 0.0; }
    }
  }

  lemma {:induction false} NonNegative(a: real, b: real)
    requires a >= 0.0 && b >= 0.0
    ensures a * b >= 0.0
  {
  }

  lemma {:induction false} Positive(a: real, b: real)
    requires a > 0.0 && b > 0.0
    ensures a * b > 0.0
  {
  }

  lemma {:induction false} Quotient(a: real, b: real)
    requires a > 0.0 && b > 0.0
    ensures a / b > 0.0 && (a / b) * b == a
  {
  }

  lemma {:induction false} SleptEnough(l: Limits, b: Level, wait: real, late: real)
    requires l.rate > 0.0 && l.capacity >= 1.0 && late >= 0.0 && wait > 0.0 && wait * l.rate == 1.0 - b.tokens
    ensures Refilled(l, b, b.at + wait + late) >= 1.0
  {
    NonNegative(late, l.rate);
    assert (wait + late) * l.rate == wait * l.rate + late * l.rate;
  }

  // ---- Whole runs: any number of callers passing through the lock ----

  datatype World = World(level: Level, grants: seq<real>)

  function Advance(l: Limits, w: World, now: real): World {
    World(AfterPass(l, w.level, now), if Refilled(l, w.level, now) >= 1.0 then w.grants + [now] else w.grants)
  }

  function Run(l: Limits, start: real, passes: seq<real>): World {
    if passes == [] then World(Level(l.capacity, start), [])
    else Advance(l, Run(l, start, passes[..|passes| - 1]), passes[|passes| - 1])
  }

  ghost predicate Ordered(start: real, passes: seq<real>) {
    (forall i :: 0 <= i < |passes| ==> start <= passes[i]) &&
    (forall i, j :: 0 <= i <= j < |passes| ==> passes[i] <= passes[j])
  }

  // The most acquisitions that may lie between two instants.
  function Allowance(l: Limits, from: real, to: real): real {
    l.capacity + l.rate * (to - from)
  }

  // From grant `i` on, what was granted and what is left fit into one bucket and the refill since.
  ghost predicate Fits(l: Limits, w: World, i: nat)
    requires i < |w.grants|
  {
    w.level.tokens + (|w.grants| - i) as real <= Allowance(l, w.grants[i], w.level.at)
  }

  ghost predicate RateHolds(l: Limits, grants: seq<real>) {
    forall i, j :: 0 <= i <= j < |grants| ==> (j - i + 1) as real <= Allowance(l, grants[i], grants[j])
  }

  ghost predicate Inv(l: Limits, w: World) {
    && 0.0 <= w.level.tokens <= l.capacity
    && (forall i :: 0 <= i < |w.grants| ==> Fits(l, w, i))
    && RateHolds(l, w.grants)
  }

  lemma {:induction false} Split(rate: real, a: real, b: real, c: real)
    ensures rate * (c - a) == rate * (b - a) + rate * (c - b)
  {
  }

  // Time that passes adds at most what flows in, and a grant takes one token.
  lemma {:induction false} FitsAfterPass(l: Limits, w: World, now: real, i: nat)
    requires l.rate > 0.0 && w.level.at <= now && i < |w.grants| && Fits(l, w, i)
    ensures Fits(l, Advance(l, w, now), i)
  {
    Split(l.rate, w.grants[i], w.level.at, now);
    var inflow := (now - w.level.at) * l.rate;
    NonNegative(now - w.level.at, l.rate);
    assert l.rate * (now - w.level.at) == inflow;
    var v := Advance(l, w, now);
    assert v.grants[i] == w.grants[i];
    assert Refilled(l, w.level, now) <= w.level.tokens + inflow;
    assert v.level.tokens + (|v.grants| - i) as real <= w.level.tokens + (|w.grants| - i) as real + inflow;
  }

  lemma {:induction false} NewGrantFits(l: Limits, w: World, now: real)
    requires Refilled(l, w.level, now) >= 1.0
    ensures Fits(l, Advance(l, w, now), |w.grants|)
  {
    AllowanceAtOnce(l, now, now);
    var v := Advance(l, w, now);
    assert v.grants[|w.grants|] == now && v.level.tokens <= l.capacity - 1.0;
  }

  lemma {:induction false} AllowanceAtOnce(l: Limits, from: real, to: real)
    requires from == to
    ensures Allowance(l, from, to) == l.capacity
  {
  }

  lemma {:induction false} PassKeepsFits(l: Limits, w: World, now: real)
    requires l.rate > 0.0 && w.level.at <= now && forall i :: 0 <= i < |w.grants| ==> Fits(l, w, i)
    ensures var v := Advance(l, w, now);
            forall i :: 0 <= i < |v.grants| ==> Fits(l, v, i)
  {
    var v := Advance(l, w, now);
    forall i | 0 <= i < |v.grants|
      ensures Fits(l, v, i)
    {
      if i < |w.grants| { FitsAfterPass(l, w, now, i); } else { NewGrantFits(l, w, now); }
    }
  }

  lemma {:induction false} GrantHolds(l: Limits, w: World, i: nat)
    requires i < |w.grants| && Fits(l, w, i) && w.level.tokens >= 0.0 && w.level.at == w.grants[|w.grants| - 1]
    ensures (|w.grants| - i) as real <= Allowance(l, w.grants[i], w.grants[|w.grants| - 1])
  {
  }

  lemma {:induction false} PassKeepsLevel(l: Limits, w: World, now: real)
    requires l.rate > 0.0 && 0.0 <= w.level.tokens <= l.capacity && w.level.at <= now
    ensures var v := Advance(l, w, now);
            0.0 <= v.level.tokens <= l.capacity && v.level.at == now
  {
    NonNegative(now - w.level.at, l.rate);
  }

  lemma {:induction false} PassKeepsInv(l: Limits, w: World, now: real)
    requires l.rate > 0.0 && l.capacity > 0.0 && Inv(l, w) && w.level.at <= now
    ensures Inv(l, Advance(l, w, now)) && Advance(l, w, now).level.at == now
  {
    var v := Advance(l, w, now);
    PassKeepsLevel(l, w, now);
    PassKeepsFits(l, w, now);
    forall i, j | 0 <= i <= j < |v.grants|
      ensures (j - i + 1) as real <= Allowance(l, v.grants[i], v.grants[j])
    {
      if j == |w.grants| { GrantHolds(l, v, i); }
    }
  }

  /** Under any interleaving of callers, every stretch from one acquisition to another contains at most
    * `capacity` acquisitions plus what the rate allows in the time between them.
    */
  lemma {:induction false} RateIsBounded(l: Limits, start: real, passes: seq<real>)
    requires l.rate > 0.0 && l.capacity > 0.0 && Ordered(start, passes)
    ensures var w := Run(l, start, passes);
            Inv(l, w) && w.level.at == (if passes == [] then start else passes[|passes| - 1])
    ensures RateHolds(l, Run(l, start, passes).grants)
  {
    if passes != [] {
      RateIsBounded(l, start, passes[..|passes| - 1]);
      PassKeepsInv(l, Run(l, start, passes[..|passes| - 1]), passes[|passes| - 1]);
    }
  }

  // ---- Nobody is refused without reason ----

  // The bucket was full when grant `i` was made, and holds what the refill since then left of it.
  ghost predicate FullAt(l: Limits, w: World, i: nat)
    requires i < |w.grants|
  {
    w.level.tokens == Allowance(l, w.grants[i], w.level.at) - (|w.grants| - i) as real
  }

  ghost predicate Accounted(l: Limits, w: World) {
    w.level.tokens == l.capacity || exists i :: 0 <= i < |w.grants| && FullAt(l, w, i)
  }

  // What flows in between two instants.
  function Flow(l: Limits, from: real, to: real): real {
    l.rate * (to - from)
  }

  lemma {:induction false} AllowanceGrows(l: Limits, from: real, at: real, to: real)
    ensures Allowance(l, from, to) == Allowance(l, from, at) + Flow(l, at, to)
  {
    Split(l.rate, from, at, to);
  }

  lemma {:induction false} Inflow(l: Limits, b: Level, now: real)
    requires l.rate > 0.0 && b.at <= now
    ensures Refilled(l, b, now) == Min(l.capacity, b.tokens + Flow(l, b.at, now)) && Flow(l, b.at, now) >= 0.0
  {
    NonNegative(now - b.at, l.rate);
  }

  // What a pass at `now` finds in the bucket, if it was full when grant `i` was made.
  lemma {:induction false} FoundSince(l: Limits, w: World, now: real, i: nat)
    requires l.rate > 0.0 && w.level.at <= now && i < |w.grants| && FullAt(l, w, i)
    ensures Refilled(l, w.level, now) == Min(l.capacity, Allowance(l, w.grants[i], now) - (|w.grants| - i) as real)
  {
    AllowanceGrows(l, w.grants[i], w.level.at, now);
    Inflow(l, w.level, now);
  }

  lemma {:induction false} GrantAccounted(l: Limits, w: World, now: real)
    requires Refilled(l, w.level, now) >= 1.0 && Refilled(l, w.level, now) == l.capacity
    ensures FullAt(l, Advance(l, w, now), |w.grants|)
  {
    AllowanceAtOnce(l, now, now);
    assert Advance(l, w, now).grants[|w.grants|] == now;
  }

  lemma {:induction false} PassStaysFullAt(l: Limits, w: World, now: real, i: nat)
    requires i < |w.grants|
    requires Refilled(l, w.level, now) == Allowance(l, w.grants[i], now) - (|w.grants| - i) as real
    ensures FullAt(l, Advance(l, w, now), i)
  {
    assert Advance(l, w, now).grants[i] == w.grants[i];
  }

  lemma {:induction false} PassAccounted(l: Limits, w: World, now: real)
    requires l.rate > 0.0 && w.level.at <= now && Accounted(l, w)
    ensures Accounted(l, Advance(l, w, now))
  {
    Inflow(l, w.level, now);
    if Refilled(l, w.level, now) == l.capacity {
      if l.capacity >= 1.0 { GrantAccounted(l, w, now); }
    } else {
      var i :| 0 <= i < |w.grants| && FullAt(l, w, i);
      FoundSince(l, w, now, i);
      PassStaysFullAt(l, w, now, i);
    }
  }

  lemma {:induction false} RunAccounted(l: Limits, start: real, passes: seq<real>)
    requires l.rate > 0.0 && l.capacity > 0.0 && Ordered(start, passes)
    ensures Accounted(l, Run(l, start, passes))
  {
    if passes != [] {
      RunAccounted(l, start, passes[..|passes| - 1]);
      RateIsBounded(l, start, passes[..|passes| - 1]);
      PassAccounted(l, Run(l, start, passes[..|passes| - 1]), passes[|passes| - 1]);
    }
  }

  // A grant at `now` would be one too many for the time since grant `i`.
  ghost predicate TooMany(l: Limits, grants: seq<real>, now: real, i: nat)
    requires i < |grants|
  {
    (|grants| - i + 1) as real > Allowance(l, grants[i], now)
  }

  lemma {:induction false} TooManyMeansEmpty(l: Limits, w: World, now: real, i: nat)
    requires l.rate > 0.0 && w.level.at <= now && i < |w.grants| && Fits(l, w, i) && TooMany(l, w.grants, now, i)
    ensures Refilled(l, w.level, now) < 1.0
  {
    AllowanceGrows(l, w.grants[i], w.level.at, now);
    Inflow(l, w.level, now);
  }

  lemma {:induction false} EmptyMeansTooMany(l: Limits, w: World, now: real) returns (i: nat)
    requires l.rate > 0.0 && l.capacity >= 1.0 && w.level.at <= now && Accounted(l, w)
    requires Refilled(l, w.level, now) < 1.0
    ensures i < |w.grants| && TooMany(l, w.grants, now, i)
  {
    Inflow(l, w.level, now);
    i :| 0 <= i < |w.grants| && FullAt(l, w, i);
    FoundSince(l, w, now, i);
  }

  /** Under any interleaving of callers, a pass takes no token exactly if one more acquisition would be too
    * many: if for some earlier one there would be more since than `capacity` and what the rate allows.
    */
  lemma {:induction false} RefusedExactlyWhen(l: Limits, start: real, passes: seq<real>, now: real, w: World)
    requires l.rate > 0.0 && l.capacity >= 1.0 && Ordered(start, passes) && w == Run(l, start, passes)
    requires w.level.at <= now
    ensures Advance(l, w, now).grants == w.grants <==>
            exists i :: 0 <= i < |w.grants| && TooMany(l, w.grants, now, i)
    ensures Advance(l, w, now).grants == w.grants || Advance(l, w, now).grants == w.grants + [now]
  {
    RateIsBounded(l, start, passes);
    RunAccounted(l, start, passes);
    if Refilled(l, w.level, now) < 1.0 {
      var _ := EmptyMeansTooMany(l, w, now);
    }
    if i :| 0 <= i < |w.grants| && TooMany(l, w.grants, now, i) {
      TooManyMeansEmpty(l, w, now, i);
    }
    assert |w.grants + [now]| != |w.grants|;
  }

  /** Waiting helps exactly when the bucket can hold a whole token: with less capacity nobody ever
    * gets through.
    */
  lemma {:induction false} SomebodyGetsThroughExactlyWhen(l: Limits, b: Level)
    requires l.rate > 0.0 && 0.0 <= b.tokens <= l.capacity
    ensures (exists now :: now >= b.at && Refilled(l, b, now) >= 1.0) <==> l.capacity >= 1.0
  {
    if l.capacity >= 1.0 {
      Quotient(1.0, l.rate);
      var now := b.at + 1.0 / l.rate;
      assert (now - b.at) * l.rate == 1.0;
      assert Refilled(l, b, now) >= 1.0;
    }
  }

  // ---- Back-off ----

  /** A back-off never leaves [0, maxBackoff], whatever the random number, exactly when the jitter is
    * at most the whole base.
    */
  lemma {:induction false} BackoffStaysInRangeExactlyWhen(extra: real, maxBackoff: real, jitter: real)
    requires 0.0 <= extra <= maxBackoff
    ensures (forall u :: 0.0 <= u < 1.0 ==> 0.0 <= BackedOff(extra, maxBackoff, jitter, u) <= maxBackoff)
            <==> -1.0 <= jitter <= 1.0
  {
    if -1.0 <= jitter <= 1.0 {
      forall u | 0.0 <= u < 1.0
        ensures 0.0 <= BackedOff(extra, maxBackoff, jitter, u) <= maxBackoff
      {
        JitterWithinBase(Base(extra), jitter, 2.0 * u - 1.0);
      }
    } else {
      var u := NearOne(jitter);
      NearOneOutweighs(jitter);
      JitterBeyondBase(Base(extra), jitter, u);
      assert BackedOff(extra, maxBackoff, jitter, u) < 0.0;
    }
  }

  lemma {:induction false} Bounded(x: real, y: real)
    requires -1.0 <= x <= 1.0 && -1.0 <= y <= 1.0
    ensures x * y >= -1.0
  {
    if x >= 0.0 { NonNegative(x, y + 1.0); assert x * (y + 1.0) == x * y + x; }
    else { NonNegative(-x, 1.0 - y); assert -x * (1.0 - y) == x * y - x; }
  }

  lemma {:induction false} JitterWithinBase(base: real, jitter: real, v: real)
    requires base > 0.0 && -1.0 <= jitter <= 1.0 && -1.0 <= v <= 1.0
    ensures Jittered(base, jitter, v) >= 0.0
  {
    Bounded(jitter, v);
    NonNegative(base, 1.0 + jitter * v);
    assert base * (1.0 + jitter * v) == base + base * jitter * v;
  }

  lemma {:induction false} JitterBeyondBase(base: real, jitter: real, u: real)
    requires base > 0.0 && 1.0 + jitter * (2.0 * u - 1.0) < 0.0
    ensures Jittered(base, jitter, 2.0 * u - 1.0) < 0.0
  {
    var v := 2.0 * u - 1.0;
    Scaled(base, 1.0 + jitter * v);
    assert base * (1.0 + jitter * v) == base + base * jitter * v;
  }

  lemma {:induction false} Scaled(base: real, factor: real)
    requires base > 0.0 && factor < 0.0
    ensures base * factor < 0.0
  {
  }

  // A random number close enough to one for a jitter below -1 to outweigh the base.
  function NearOne(jitter: real): real {
    if jitter < -1.0 then (1.0 / -jitter + 3.0) / 4.0 else 0.0
  }

  lemma {:induction false} NearOneOutweighs(jitter: real)
    requires jitter < -1.0 || jitter > 1.0
    ensures var u := NearOne(jitter);
            0.0 <= u < 1.0 && 1.0 + jitter * (2.0 * u - 1.0) < 0.0
  {
    if jitter < -1.0 {
      var q := 1.0 / -jitter;
      assert q * -jitter == 1.0;
      Quotient(1.0, -jitter);
      Positive(q, -jitter - 1.0);
      assert q * (-jitter - 1.0) == 1.0 - q;
      var u := NearOne(jitter);
      assert 2.0 * u - 1.0 == (q + 1.0) / 2.0;
      assert jitter * (2.0 * u - 1.0) == (jitter * q + jitter) / 2.0;
    }
  }

  // ---- Runs of violations, successes and served waits ----

  datatype Happening = Violation(u: real) | Success | Served

  // The extra wait and the successes in a row.
  datatype Pace = Pace(extra: real, successes: nat)

  function AfterHappening(p: Pace, h: Happening, maxBackoff: real, jitter: real): Pace {
    match h
    case Violation(u) => Pace(BackedOff(p.extra, maxBackoff, jitter, u), 0)
    case Success => Pace(if p.successes + 1 >= 5 then 0.0 else p.extra, p.successes + 1)
    case Served => Pace(Min(0.0, p.extra), p.successes)
  }

  function PaceAfter(happenings: seq<Happening>, maxBackoff: real, jitter: real): Pace {
    if happenings == [] then Pace(0.0, 0)
    else
      AfterHappening(PaceAfter(happenings[..|happenings| - 1], maxBackoff, jitter), happenings[|happenings| - 1],
                     maxBackoff, jitter)
  }

  ghost predicate Random(happenings: seq<Happening>) {
    forall i :: 0 <= i < |happenings| && happenings[i].Violation? ==> 0.0 <= happenings[i].u < 1.0
  }

  ghost predicate InRange(happenings: seq<Happening>, maxBackoff: real, jitter: real) {
    0.0 <= PaceAfter(happenings, maxBackoff, jitter).extra <= maxBackoff
  }

  lemma {:induction false} PaceInRange(happenings: seq<Happening>, maxBackoff: real, jitter: real)
    requires Random(happenings) && maxBackoff >= 0.0 && -1.0 <= jitter <= 1.0
    ensures InRange(happenings, maxBackoff, jitter)
  {
    if happenings != [] {
      var front, last := happenings[..|happenings| - 1], happenings[|happenings| - 1];
      PaceInRange(front, maxBackoff, jitter);
      if last.Violation? {
        JitterWithinBase(Base(PaceAfter(front, maxBackoff, jitter).extra), jitter, 2.0 * last.u - 1.0);
      }
    }
  }

  lemma {:induction false} OneViolation(u: real, maxBackoff: real, jitter: real)
    ensures PaceAfter([Violation(u)], maxBackoff, jitter).extra == BackedOff(0.0, maxBackoff, jitter, u)
  {
    assert [Violation(u)][..0] == [];
  }

  /** The extra wait never leaves [0, maxBackoff], whatever violations, successes and acquires follow one
    * another and whatever the random numbers, exactly when that range is not empty and the jitter is at
    * most the whole base.
    */
  lemma {:induction false} ExtraWaitStaysInRangeExactlyWhen(maxBackoff: real, jitter: real)
    ensures (forall happenings :: Random(happenings) ==> InRange(happenings, maxBackoff, jitter))
            <==> maxBackoff >= 0.0 && -1.0 <= jitter <= 1.0
  {
    if maxBackoff >= 0.0 && -1.0 <= jitter <= 1.0 {
      forall happenings | Random(happenings)
        ensures InRange(happenings, maxBackoff, jitter)
      {
        PaceInRange(happenings, maxBackoff, jitter);
      }
    } else if maxBackoff < 0.0 {
      assert Random([]) && !InRange([], maxBackoff, jitter);
    } else {
      var u := NearOne(jitter);
      NearOneOutweighs(jitter);
      JitterBeyondBase(Base(0.0), jitter, u);
      OneViolation(u, maxBackoff, jitter);
      assert Random([Violation(u)]) && !InRange([Violation(u)], maxBackoff, jitter);
    }
  }

  // ---- Successes in a row ----

  function Successes(n: nat): seq<Happening> {
    if n == 0 then [] else Successes(n - 1) + [Success]
  }

  // After a violation it takes exactly five successes in a row to forget it.
  lemma {:induction false} FiveSuccessesForget(before: seq<Happening>, u: real, n: nat, maxBackoff: real, jitter: real)
    ensures PaceAfter(before + [Violation(u)] + Successes(n), maxBackoff, jitter) ==
            Pace(if n >= 5 then 0.0 else BackedOff(PaceAfter(before, maxBackoff, jitter).extra, maxBackoff, jitter, u), n)
  {
    var violated := before + [Violation(u)];
    if n == 0 {
      assert violated + Successes(n) == violated && violated[..|before|] == before;
    } else {
      FiveSuccessesForget(before, u, n - 1, maxBackoff, jitter);
      var all := violated + Successes(n);
      assert all == violated + Successes(n - 1) + [Success];
      assert all[..|all| - 1] == violated + Successes(n - 1);
    }
  }

  // ---- Violations in a row ----

  function Violations(us: seq<real>): seq<Happening> {
    if us == [] then [] else Violations(us[..|us| - 1]) + [Violation(us[|us| - 1])]
  }

  ghost predicate AllRandom(us: seq<real>) {
    forall i :: 0 <= i < |us| ==> 0.0 <= us[i] < 1.0
  }

  function Again(scale: real, x: real): real {
    2.0 * scale * x
  }

  // Half a second, doubled n - 1 times and scaled n times.
  function Doubled(scale: real, n: nat): real {
    if n == 0 then 0.0 else if n == 1 then MIN_BACKOFF * scale else Again(scale, Doubled(scale, n - 1))
  }

  lemma {:induction false} AgainIsPositive(scale: real, x: real)
    requires scale >= 0.0 && x >= 0.0
    ensures Again(scale, x) >= 0.0
  {
    NonNegative(2.0 * scale, x);
  }

  lemma {:induction false} AgainIsLarger(scale: real, x: real)
    requires scale >= 0.5 && x >= 0.0
    ensures Again(scale, x) >= x
  {
    NonNegative(2.0 * scale - 1.0, x);
    assert (2.0 * scale - 1.0) * x == Again(scale, x) - x;
  }

  lemma {:induction false} AgainIsSmaller(scale: real, x: real)
    requires scale <= 0.5 && x >= 0.0
    ensures Again(scale, x) <= x
  {
    NonNegative(1.0 - 2.0 * scale, x);
    assert (1.0 - 2.0 * scale) * x == x - Again(scale, x);
  }

  lemma {:induction false} DoubledIsPositive(scale: real, n: nat)
    requires scale >= 0.0
    ensures Doubled(scale, n) >= 0.0
  {
    if n > 1 {
      DoubledIsPositive(scale, n - 1);
      AgainIsPositive(scale, Doubled(scale, n - 1));
    }
  }

  lemma {:induction false} DoubledIsLarge(scale: real, n: nat)
    requires scale >= 1.0 && n > 0
    ensures Doubled(scale, n) >= MIN_BACKOFF
  {
    if n > 1 {
      DoubledIsLarge(scale, n - 1);
      AgainIsLarger(scale, Doubled(scale, n - 1));
    }
  }

  lemma {:induction false} DoubledIsSmall(scale: real, n: nat)
    requires 0.0 <= scale <= 0.5 && n > 0
    ensures Doubled(scale, n) <= Doubled(scale, 1)
  {
    if n > 1 {
      DoubledIsSmall(scale, n - 1);
      DoubledIsPositive(scale, n - 1);
      AgainIsSmaller(scale, Doubled(scale, n - 1));
    }
  }

  lemma {:induction false} Grows(factor: real, x: real, y: real)
    requires factor >= 0.0 && x <= y
    ensures factor * x <= factor * y
  {
    NonNegative(factor, y - x);
  }

  // The jittered base lies between the base scaled down and the base scaled up.
  lemma {:induction false} JitterBounds(base: real, jitter: real, swing: real)
    requires base > 0.0 && 0.0 <= jitter && -1.0 <= swing <= 1.0
    ensures (1.0 - jitter) * base <= Jittered(base, jitter, swing) <= (1.0 + jitter) * base
  {
    NonNegative(base, jitter);
    var x := base * jitter;
    NonNegative(x, 1.0 - swing);
    NonNegative(x, 1.0 + swing);
    assert (1.0 - jitter) * base == base - x && (1.0 + jitter) * base == base + x;
  }

  // From one violation to the next.
  lemma {:induction false} BoundsOneMore(extra: real, maxBackoff: real, jitter: real, u: real, n: nat)
    requires 0.0 <= jitter <= 1.0 && maxBackoff >= 0.0 && 0.0 <= u < 1.0 && n > 0
    requires n == 1 ==> extra == 0.0
    requires n > 1 ==>
               Min(maxBackoff, Doubled(1.0 - jitter, n - 1)) <= extra <= Min(maxBackoff, Doubled(1.0 + jitter, n - 1))
    ensures var after := BackedOff(extra, maxBackoff, jitter, u);
            Min(maxBackoff, Doubled(1.0 - jitter, n)) <= after <= Min(maxBackoff, Doubled(1.0 + jitter, n))
  {
    JitterBounds(Base(extra), jitter, 2.0 * u - 1.0);
    if n > 1 {
      DoubledIsPositive(1.0 - jitter, n - 1);
      UpperOneMore(extra, jitter, n);
      LowerOneMore(extra, maxBackoff, jitter, n);
    }
  }

  lemma {:induction false} UpperOneMore(extra: real, jitter: real, n: nat)
    requires 0.0 <= jitter && n > 1 && extra <= Doubled(1.0 + jitter, n - 1)
    ensures (1.0 + jitter) * Base(extra) <= Doubled(1.0 + jitter, n)
  {
    DoubledIsLarge(1.0 + jitter, n - 1);
    AgainAbove(1.0 + jitter, Doubled(1.0 + jitter, n - 1), Base(extra));
  }

  lemma {:induction false} AgainAbove(scale: real, x: real, base: real)
    requires scale >= 0.0 && base <= 2.0 * x
    ensures scale * base <= Again(scale, x)
  {
    Grows(scale, base, 2.0 * x);
    assert scale * (2.0 * x) == Again(scale, x);
  }

  lemma {:induction false} LowerOneMore(extra: real, maxBackoff: real, jitter: real, n: nat)
    requires 0.0 <= jitter <= 1.0 && maxBackoff >= 0.0 && n > 1
    requires extra >= Min(maxBackoff, Doubled(1.0 - jitter, n - 1))
    ensures Min(maxBackoff, Doubled(1.0 - jitter, n)) <= (1.0 - jitter) * Base(extra)
  {
    LowerBound(Base(extra), maxBackoff, 1.0 - jitter, n);
  }

  lemma {:induction false} LowerBound(base: real, maxBackoff: real, scale: real, n: nat)
    requires 0.0 <= scale && maxBackoff >= 0.0 && n > 1
    requires base >= MIN_BACKOFF && base >= 2.0 * Min(maxBackoff, Doubled(scale, n - 1))
    ensures Min(maxBackoff, Doubled(scale, n)) <= scale * base
  {
    DoubledIsPositive(scale, n - 1);
    if scale <= 0.5 {
      DoubledIsSmall(scale, n);
      Grows(scale, MIN_BACKOFF, base);
    } else {
      LowerAboveHalf(base, maxBackoff, scale, Doubled(scale, n - 1));
    }
  }

  // A scale above one half does not let the doubled wait fall below the cap again.
  lemma {:induction false} LowerAboveHalf(base: real, maxBackoff: real, scale: real, d: real)
    requires 0.5 <= scale && maxBackoff >= 0.0 && d >= 0.0 && base >= 2.0 * Min(maxBackoff, d)
    ensures Min(maxBackoff, Again(scale, d)) <= scale * base
  {
    if maxBackoff < d {
      AgainIsLarger(scale, maxBackoff);
      AgainBelow(scale, maxBackoff, base);
    } else {
      AgainBelow(scale, d, base);
    }
  }

  lemma {:induction false} AgainBelow(scale: real, x: real, base: real)
    requires scale >= 0.0 && 2.0 * x <= base
    ensures Again(scale, x) <= scale * base
  {
    Grows(scale, 2.0 * x, base);
    assert scale * (2.0 * x) == Again(scale, x);
  }

  /** The n-th violation in a row asks for half a second, doubled n - 1 times, capped; jitter takes off
    * or adds at most its share at every one of the n times.
    */
  lemma {:induction false} BackoffIsBounded(us: seq<real>, maxBackoff: real, jitter: real)
    requires AllRandom(us) && us != [] && 0.0 <= jitter <= 1.0 && maxBackoff >= 0.0
    ensures var extra := PaceAfter(Violations(us), maxBackoff, jitter).extra;
            Min(maxBackoff, Doubled(1.0 - jitter, |us|)) <= extra <= Min(maxBackoff, Doubled(1.0 + jitter, |us|))
  {
    var front := us[..|us| - 1];
    var all := Violations(us);
    assert all[..|all| - 1] == Violations(front);
    if front != [] { BackoffIsBounded(front, maxBackoff, jitter); }
    BoundsOneMore(PaceAfter(Violations(front), maxBackoff, jitter).extra, maxBackoff, jitter, us[|us| - 1], |us|);
  }

  function Power2(n: nat): real {
    if n == 0 then 1.0 else 2.0 * Power2(n - 1)
  }

  lemma {:induction false} DoubledIsPower(n: nat)
    requires n > 0
    ensures Doubled(1.0, n) == MIN_BACKOFF * Power2(n - 1)
  {
    if n > 1 { DoubledIsPower(n - 1); }
  }

  // Without jitter that is exact.
  lemma {:induction false} BackoffDoubles(us: seq<real>, maxBackoff: real)
    requires AllRandom(us) && us != [] && maxBackoff >= 0.0
    ensures PaceAfter(Violations(us), maxBackoff, 0.0).extra == Min(maxBackoff, MIN_BACKOFF * Power2(|us| - 1))
  {
    BackoffIsBounded(us, maxBackoff, 0.0);
    DoubledIsPower(|us|);
  }
}
