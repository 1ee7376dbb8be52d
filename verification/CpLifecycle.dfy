/**
  * One tickle cycle of the CP gateway session with its reauthentication loop
  * (cp/lifecycle.py:302-361, 387-410, 480-489, 527-545).
  */
module CpLifecycle {
  import opened Options
  import T = LoginTrigger

  type AuthStatus = T.AuthStatus

  // What the tickle call answered: a body, 401 or 403, or nothing usable.
  datatype Tickle = Body(session: string, authenticated: bool) | Unauthorized | Unreachable

  // How one reauthentication attempt went: the call failed, the check after it failed, or the check
  // said whether the session is authenticated.
  datatype Attempt = CallFailed | CheckFailed | Checked(authenticated: bool)

  function Pow2(n: nat): (p: nat)
    ensures p >= 1
  {
    if n == 0 then 1 else 2 * Pow2(n - 1)
  }

  // Only a positive time is slept.
  function Sleep(seconds: real): (s: real)
    ensures s >= 0.0
  {
    if seconds <= 0.0 then 0.0 else seconds
  }

  function Nap(attempt: Attempt, backoff: real, k: nat): real {
    Sleep(if attempt.CallFailed? then backoff * Pow2(k) as real else backoff)
  }

  // The time slept in the first n attempts.
  function Naps(replies: nat -> Attempt, backoff: real, n: nat): real {
    if n == 0 then 0.0 else Naps(replies, backoff, n - 1) + Nap(replies(n - 1), backoff, n - 1)
  }

  // The most that a loop of `retries` attempts may sleep.
  function Longest(backoff: real, retries: int): real {
    backoff * (Pow2(if retries < 0 then 0 else retries) - 1) as real
  }

  predicate Succeeds(attempt: Attempt) {
    attempt == Checked(true)
  }

  ghost predicate AllFail(replies: nat -> Attempt, n: int) {
    forall k: nat :: k < n ==> !Succeeds(replies(k))
  }

  class AuthLifecycle {
    const reauthMaxRetries: int
    const reauthBackoff: real
    const hasTrigger: bool
    var status: AuthStatus
    var cpReachable: bool
    var sessionId: string
    var sessionStartedAt: Option<real>
    var lastTickleAt: Option<real>
    var lastReauthAt: Option<real>
    var reauthFailures: int
    var accountsInitialized: bool
    // With which status the auto-login trigger was asked, and what the loop did outside.
    ghost var asks: seq<AuthStatus>
    ghost var reauthCalls: nat
    ghost var slept: real

    constructor (reauthMaxRetries: int, reauthBackoff: real, hasTrigger: bool)
      ensures this.reauthMaxRetries == reauthMaxRetries && this.reauthBackoff == reauthBackoff
      ensures this.hasTrigger == hasTrigger && status == T.OK && asks == [] && reauthCalls == 0 && slept == 0.0
    {
      this.reauthMaxRetries, this.reauthBackoff, this.hasTrigger := reauthMaxRetries, reauthBackoff, hasTrigger;
      status, cpReachable, sessionId, sessionStartedAt := T.OK, true, "", None;
      lastTickleAt, lastReauthAt, reauthFailures, accountsInitialized := None, None, 0, false;
      asks, reauthCalls, slept := [], 0, 0.0;
    }

    method MaybeInvokeAutoLogin()
      modifies this`asks
      ensures asks == old(asks) + if hasTrigger then [status] else []
    {
      if hasTrigger {
        asks := asks + [status];
      }
    }

    method MarkSessionOk(now: real)
      modifies this`status, this`sessionStartedAt, this`reauthFailures
      ensures status == T.OK && reauthFailures == 0
      ensures sessionStartedAt ==
              if old(status) != T.OK || old(sessionStartedAt).None? then Some(now) else old(sessionStartedAt)
    {
      if status != T.OK || sessionStartedAt.None? {
        sessionStartedAt := Some(now);
      }
      status := T.OK;
      reauthFailures := 0;
    }

    method MaybeInitAccounts(initOk: bool)
      modifies this`accountsInitialized
      ensures accountsInitialized == (old(accountsInitialized) || initOk)
    {
      if accountsInitialized { return; }
      if !initOk { return; }
      accountsInitialized := true;
    }

    // The attempt-th turn of the loop: one call, a sleep, and a check if the call went through.
    method AttemptReauth(reply: Attempt, attempt: int, now: real) returns (done: bool)
      requires attempt >= 1
      modifies this`status, this`sessionStartedAt, this`reauthFailures, this`lastReauthAt,
               this`reauthCalls, this`slept
      ensures done <==> Succeeds(reply)
      ensures status == if done then T.OK else old(status)
      ensures reauthFailures == if done then 0 else attempt
      ensures reauthCalls == old(reauthCalls) + 1
      ensures slept == old(slept) + Nap(reply, reauthBackoff, attempt - 1)
    {
      lastReauthAt := Some(now);
      reauthCalls := reauthCalls + 1;
      if reply.CallFailed? {
        reauthFailures := attempt;
        slept := slept + Sleep(reauthBackoff * Pow2(attempt - 1) as real);
        return false;
      }
      slept := slept + Sleep(reauthBackoff);
      if reply.CheckFailed? {
        reauthFailures := attempt;
        return false;
      }
      if reply.authenticated {
        MarkSessionOk(now);
        return true;
      }
      reauthFailures := attempt;
      done := false;
    }

    // The session is lost exactly if every one of the attempts failed.
    method HandleAuthLoss(replies: nat -> Attempt, now: real)
      modifies this`status, this`sessionStartedAt, this`reauthFailures, this`lastReauthAt,
               this`asks, this`reauthCalls, this`slept
      ensures status == if AllFail(replies, reauthMaxRetries) then T.AUTH_LOST else T.OK
      ensures asks == old(asks) + if hasTrigger && status == T.AUTH_LOST then [T.AUTH_LOST] else []
      ensures var calls := reauthCalls - old(reauthCalls);
              && 0 <= calls && (calls <= reauthMaxRetries || calls == 0)
              && (status == T.AUTH_LOST && reauthMaxRetries > 0 ==> calls == reauthMaxRetries)
              && (status == T.OK ==> calls > 0 && Succeeds(replies(calls - 1)) && AllFail(replies, calls - 1))
              && slept == old(slept) + Naps(replies, reauthBackoff, calls)
              && (calls > 0 ==> reauthFailures == if status == T.OK then 0 else calls)
              && (calls == 0 ==> reauthFailures == old(reauthFailures))
      ensures reauthBackoff >= 0.0 ==> slept <= old(slept) + Longest(reauthBackoff, reauthMaxRetries)
    {
      status := T.REAUTH_PENDING;
      ghost var calls0, slept0 := reauthCalls, slept;
      var attempt := 1;
      while attempt <= reauthMaxRetries
        invariant 1 <= attempt && (attempt <= reauthMaxRetries + 1 || attempt == 1)
        invariant AllFail(replies, attempt - 1) && status == T.REAUTH_PENDING && asks == old(asks)
        invariant reauthCalls == calls0 + attempt - 1
        invariant slept == slept0 + Naps(replies, reauthBackoff, attempt - 1)
        invariant reauthFailures == if attempt == 1 then old(reauthFailures) else attempt - 1
        decreases reauthMaxRetries - attempt
      {
        var done := AttemptReauth(replies(attempt - 1), attempt, now);
        attempt := attempt + 1;
        if reauthBackoff >= 0.0 { NapsAreWithin(replies, reauthBackoff, attempt - 1, reauthMaxRetries); }
        if done { return; }
      }
      if reauthBackoff >= 0.0 { NapsAreWithin(replies, reauthBackoff, attempt - 1, reauthMaxRetries); }
      status := T.AUTH_LOST;
      MaybeInvokeAutoLogin();
    }

    method TickOnce(sso: bool, tickle: Tickle, replies: nat -> Attempt, initOk: bool, now: real)
      returns (r: AuthStatus)
      modifies this
      ensures r == status && status == StatusOf(sso, tickle, replies, reauthMaxRetries)
      ensures asks == old(asks) + if hasTrigger then AsksOf(sso, tickle, replies, reauthMaxRetries) else []
      ensures var calls := reauthCalls - old(reauthCalls);
              0 <= calls && (calls <= reauthMaxRetries || calls == 0) &&
              slept == old(slept) + Naps(replies, reauthBackoff, calls)
      ensures reauthBackoff >= 0.0 ==> slept <= old(slept) + Longest(reauthBackoff, reauthMaxRetries)
      ensures cpReachable <==> sso || tickle != Unreachable
    {
      if reauthBackoff >= 0.0 { NapsAreWithin(replies, reauthBackoff, 0, reauthMaxRetries); }
      if tickle.Unauthorized? {
        cpReachable := true;
        lastTickleAt := Some(now);
        if sso {
          MarkSessionOk(now);
          MaybeInitAccounts(initOk);
          return status;
        }
        HandleAuthLoss(replies, now);
        MaybeInvokeAutoLogin();
        return status;
      }
      if tickle.Unreachable? {
        if !sso {
          cpReachable := false;
          status := T.CP_DOWN;
          MaybeInvokeAutoLogin();
          return status;
        }
        cpReachable := true;
        MarkSessionOk(now);
        MaybeInitAccounts(initOk);
        return status;
      }
      cpReachable := true;
      lastTickleAt := Some(now);
      if tickle.session != "" {
        sessionId := tickle.session;
      }
      if sso || tickle.authenticated {
        MarkSessionOk(now);
        MaybeInitAccounts(initOk);
        return status;
      }
      HandleAuthLoss(replies, now);
      r := status;
    }
  }

  // ---- What a tick comes to ----

  ghost predicate Recovers(tickle: Tickle, replies: nat -> Attempt, retries: int) {
    !tickle.Unreachable? && !AllFail(replies, retries)
  }

  ghost function StatusOf(sso: bool, tickle: Tickle, replies: nat -> Attempt, retries: int): AuthStatus {
    if sso || (tickle.Body? && tickle.authenticated) || Recovers(tickle, replies, retries) then T.OK
    else if tickle.Unreachable? then T.CP_DOWN
    else T.AUTH_LOST
  }

  // The trigger is asked twice when a 401 meets a failed loop, and once in vain when the loop succeeded.
  ghost function AsksOf(sso: bool, tickle: Tickle, replies: nat -> Attempt, retries: int): seq<AuthStatus> {
    if sso || (tickle.Body? && tickle.authenticated) then []
    else if tickle.Unreachable? then [T.CP_DOWN]
    else if AllFail(replies, retries) then (if tickle.Unauthorized? then [T.AUTH_LOST, T.AUTH_LOST] else [T.AUTH_LOST])
    else if tickle.Unauthorized? then [T.OK]
    else []
  }

  // One of the loop's attempts ends with an authenticated session.
  ghost predicate SomeAttemptRecovers(replies: nat -> Attempt, retries: int) {
    exists k: nat :: k < retries && replies(k) == Checked(true)
  }

  /** How a tick ends, told from the replies: OK if the SSO call or the tickle says so, or if an attempt
    * recovers the session after the gateway answered; otherwise CP_DOWN if it did not, and AUTH_LOST if
    * it did.
    */
  lemma {:induction false} StatusFromReplies(sso: bool, tickle: Tickle, replies: nat -> Attempt, retries: int,
                                             status: AuthStatus)
    requires status == StatusOf(sso, tickle, replies, retries)
    ensures status == T.OK <==>
            sso || (tickle.Body? && tickle.authenticated) || (tickle != Unreachable && SomeAttemptRecovers(replies, retries))
    ensures status == T.CP_DOWN <==> !sso && tickle == Unreachable
    ensures status == T.AUTH_LOST <==>
            !sso && tickle != Unreachable && !(tickle.Body? && tickle.authenticated) && !SomeAttemptRecovers(replies, retries)
  {
    assert SomeAttemptRecovers(replies, retries) <==> !AllFail(replies, retries) by {
      if !AllFail(replies, retries) {
        var k: nat :| k < retries && Succeeds(replies(k));
        assert replies(k) == Checked(true);
      }
    }
  }

  // The trigger is only asked with the status the tick ends in, and twice exactly on a 401 or 403 whose
  // loop fails.
  lemma {:induction false} AsksFromReplies(sso: bool, tickle: Tickle, replies: nat -> Attempt, retries: int,
                                           asks: seq<AuthStatus>)
    requires asks == AsksOf(sso, tickle, replies, retries)
    ensures forall a :: a in asks ==> a == StatusOf(sso, tickle, replies, retries)
    ensures |asks| == 2 <==> tickle == Unauthorized && StatusOf(sso, tickle, replies, retries) == T.AUTH_LOST
    ensures asks == [] <==> sso || (tickle.Body? && StatusOf(sso, tickle, replies, retries) == T.OK)
    ensures |asks| <= 2
  {
  }

  // The loop sleeps at most backoff * (2^n - 1) in n attempts, and that long exactly if no attempt
  // after the first got further than its call.
  lemma {:induction false} NapsAreBounded(replies: nat -> Attempt, backoff: real, n: nat)
    requires backoff >= 0.0
    ensures Naps(replies, backoff, n) <= backoff * (Pow2(n) - 1) as real
    ensures backoff > 0.0 ==>
            (Naps(replies, backoff, n) == backoff * (Pow2(n) - 1) as real <==>
             forall k: nat :: 0 < k < n ==> replies(k).CallFailed?)
  {
    NapsAreInBudget(replies, backoff, n);
    BudgetIs(backoff, n);
  }

  // The time slept if every call fails.
  function Budget(backoff: real, n: nat): real {
    if n == 0 then 0.0 else Budget(backoff, n - 1) + backoff * Pow2(n - 1) as real
  }

  lemma {:induction false} BudgetIs(backoff: real, n: nat)
    ensures Budget(backoff, n) == backoff * (Pow2(n) - 1) as real
  {
    if n > 0 {
      BudgetIs(backoff, n - 1);
      Distribute(backoff, Pow2(n - 1) as real);
      assert (Pow2(n) - 1) as real == (Pow2(n - 1) as real - 1.0) + Pow2(n - 1) as real;
    }
  }

  lemma Distribute(b: real, p: real)
    ensures b * (p - 1.0) + b * p == b * ((p - 1.0) + p)
  {
  }

  lemma {:induction false} NapsAreInBudget(replies: nat -> Attempt, backoff: real, n: nat)
    requires backoff >= 0.0
    ensures Naps(replies, backoff, n) <= Budget(backoff, n)
    ensures backoff > 0.0 ==>
            (Naps(replies, backoff, n) == Budget(backoff, n) <==>
             forall k: nat :: 0 < k < n ==> replies(k).CallFailed?)
  {
    if n > 0 {
      NapsAreInBudget(replies, backoff, n - 1);
      NapIsBounded(replies(n - 1), backoff, n - 1);
    }
  }

  lemma {:induction false} BudgetGrows(backoff: real, m: nat, n: nat)
    requires backoff >= 0.0 && m <= n
    ensures Budget(backoff, m) <= Budget(backoff, n)
  {
    if m < n {
      BudgetGrows(backoff, m, n - 1);
      Times(backoff, Pow2(n - 1) as real);
    }
  }

  // Fewer attempts sleep no longer than all of them may.
  lemma {:induction false} NapsAreWithin(replies: nat -> Attempt, backoff: real, calls: nat, retries: int)
    requires backoff >= 0.0 && (calls <= retries || calls == 0)
    ensures Naps(replies, backoff, calls) <= Longest(backoff, retries)
  {
    var n := if retries < 0 then 0 else retries;
    NapsAreInBudget(replies, backoff, calls);
    BudgetGrows(backoff, calls, n);
    BudgetIs(backoff, n);
  }

  lemma NapIsBounded(attempt: Attempt, backoff: real, k: nat)
    requires backoff >= 0.0
    ensures Nap(attempt, backoff, k) <= backoff * Pow2(k) as real
    ensures backoff > 0.0 ==>
            (Nap(attempt, backoff, k) == backoff * Pow2(k) as real <==> attempt.CallFailed? || k == 0)
  {
    var p := Pow2(k) as real;
    assert k > 0 ==> Pow2(k) >= 2;
    Times(backoff, p);
  }

  lemma Times(b: real, p: real)
    requires b >= 0.0 && p >= 1.0
    ensures b * p >= b
    ensures b > 0.0 && p >= 2.0 ==> b * p > b
  {
  }
}
