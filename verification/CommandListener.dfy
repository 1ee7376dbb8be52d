/**
  * The command topic of the TWS operators (scripts/tws_command_listener.py:120-280): a trigger hands
  * out a one-time nonce, a confirmation with that nonce recreates the container.
  */
module CommandListener {
  import opened Options
  import opened Strings

  datatype Config = Config(confirmTtl: real, cooldown: real, healthWait: real, pollInterval: real)

  datatype Command = Trigger | Confirm(nonce: string) | Ignored

  datatype Push = CooldownActive(remaining: int) | Requested(nonce: string) | Rejected | Started
                | RecreateFailed | BackToOk | StillDown

  // ---- Commands ----

  // Which characters str.strip() removes.
  ghost predicate Spaces(isSpace: char -> bool) {
    && isSpace(' ')
    && (forall k :: 0 <= k < |"confirm-recreate-live"| ==> !isSpace("confirm-recreate-live"[k]))
  }

  function Parse(isSpace: char -> bool, message: string): Command {
    var command := Strip(isSpace, message);
    if command == "recreate-live" then Trigger
    else if "confirm " <= command then Confirm(Strip(isSpace, command[|"confirm "|..]))
    else Ignored
  }

  // The button's text "confirm <nonce>" arrives as that nonce, exactly if the nonce is not empty
  // and has no white space at its ends.
  lemma {:induction false} ConfirmRoundTrip(isSpace: char -> bool, nonce: string)
    requires Spaces(isSpace)
    ensures Parse(isSpace, "confirm " + nonce) == Confirm(nonce) <==> nonce != "" && Strip(isSpace, nonce) == nonce
  {
    var text := "confirm " + nonce;
    assert !isSpace("confirm-recreate-live"[0]);
    assert text[0] == "confirm-recreate-live"[0];
    assert StripLeft(isSpace, text) == text;
    var command := Strip(isSpace, text);
    if nonce == "" {
      NoNonce(isSpace);
    } else if Strip(isSpace, nonce) == nonce {
      StripLeftStarts(isSpace, nonce);
      StripRightStarts(isSpace, StripLeft(isSpace, nonce));
      assert text[|text| - 1] == nonce[|nonce| - 1];
      assert command == text && text[8..] == nonce;
    } else if Parse(isSpace, text) == Confirm(nonce) {
      StripTwice(isSpace, command[8..]);
    }
  }

  // Which texts are a trigger or a confirmation: the words themselves, with white space around them.
  lemma {:induction false} PaddingIsIgnored(isSpace: char -> bool, before: string, after: string, nonce: string)
    requires Spaces(isSpace) && AllSpace(isSpace, before) && AllSpace(isSpace, after)
    requires nonce != "" && Strip(isSpace, nonce) == nonce
    ensures Parse(isSpace, before + "recreate-live" + after) == Trigger
    ensures Parse(isSpace, before + ("confirm " + nonce) + after) == Confirm(nonce)
  {
    var word := "recreate-live";
    assert "confirm-recreate-live"[8] == word[0] && "confirm-recreate-live"[20] == word[12];
    StripsPadding(isSpace, before, word, after);
    var text := "confirm " + nonce;
    assert "confirm-recreate-live"[0] == text[0];
    StripLeftStarts(isSpace, nonce);
    StripRightStarts(isSpace, StripLeft(isSpace, nonce));
    assert text[|text| - 1] == nonce[|nonce| - 1];
    StripsPadding(isSpace, before, text, after);
    assert text[8..] == nonce && text[7] == ' ' && word[7] == 'e';
  }

  lemma NoNonce(isSpace: char -> bool)
    requires Spaces(isSpace)
    ensures Strip(isSpace, "confirm " + "") == "confirm"
  {
    var text := "confirm " + "";
    assert !isSpace("confirm-recreate-live"[0]) && !isSpace("confirm-recreate-live"[6]);
    assert text[0] == 'c' && text[7] == ' ';
    assert StripLeft(isSpace, text) == text;
    assert text[..7] == "confirm";
    assert "confirm-recreate-live"[6] == "confirm"[6];
    assert StripRight(isSpace, text) == StripRight(isSpace, "confirm");
  }

  // ---- The state machine ----

  datatype State = State(nonce: Option<string>, expires: Option<real>, coolDownUntil: Option<real>)

  // What happened so far: nonces handed out and containers recreated.
  datatype Entry = Issued(nonce: string, at: real) | Recreated(nonce: string, at: real)

  predicate CoolingDown(s: State, now: real) {
    s.coolDownUntil.Some? && now < s.coolDownUntil.value
  }

  predicate Accepts(s: State, nonce: string, now: real) {
    s.nonce == Some(nonce) && s.expires.Some? && now < s.expires.value
  }

  function Next(c: Config, s: State, command: Command, now: real, newNonce: string): State {
    match command
    case Trigger => if CoolingDown(s, now) then s else State(Some(newNonce), Some(now + c.confirmTtl), s.coolDownUntil)
    case Confirm(nonce) => if Accepts(s, nonce, now) then State(None, None, Some(now + c.cooldown)) else s
    case Ignored => s
  }

  function Logged(s: State, command: Command, now: real, newNonce: string): seq<Entry> {
    match command
    case Trigger => if CoolingDown(s, now) then [] else [Issued(newNonce, now)]
    case Confirm(nonce) => if Accepts(s, nonce, now) then [Recreated(nonce, now)] else []
    case Ignored => []
  }

  // How often the health of the container is asked for.
  function Polls(wait: real, interval: real): (n: nat)
    ensures n >= 1
  {
    if interval <= 0.0 then 1
    else
      var n := -(-(wait / interval)).Floor;
      if n < 1 then 1 else n
  }

  lemma PollsCoverTheWait(wait: real, interval: real)
    requires interval > 0.0
    ensures Polls(wait, interval) as real * interval >= wait
    ensures Polls(wait, interval) > 1 ==> (Polls(wait, interval) - 1) as real * interval < wait
  {
    var q, p := wait / interval, Polls(wait, interval);
    assert q * interval == wait;
    assert q <= p as real;
    ScaleUp(q, p as real, interval, wait);
    if p > 1 {
      assert (p - 1) as real < q;
      ScaleStrictly((p - 1) as real, q, interval, wait);
    }
  }

  lemma Scale(x: real, y: real, k: real)
    requires x <= y && k > 0.0
    ensures x * k <= y * k
  {
  }

  lemma ScaleUp(x: real, y: real, k: real, product: real)
    requires x <= y && k > 0.0 && x * k == product
    ensures product <= y * k
  {
  }

  lemma ScaleStrictly(x: real, y: real, k: real, product: real)
    requires x < y && k > 0.0 && y * k == product
    ensures x * k < product
  {
  }

  class CommandListener {
    const config: Config
    const isSpace: char -> bool
    var nonce: Option<string>
    var nonceExpires: Option<real>
    var cooldownUntil: Option<real>
    var pushes: seq<Push>
    ghost var log: seq<Entry>

    constructor (config: Config, isSpace: char -> bool)
      ensures this.config == config && this.isSpace == isSpace
      ensures Abs() == State(None, None, None) && pushes == [] && log == []
    {
      this.config, this.isSpace := config, isSpace;
      nonce, nonceExpires, cooldownUntil, pushes, log := None, None, None, [], [];
    }

    ghost function Abs(): State
      reads this
    {
      State(nonce, nonceExpires, cooldownUntil)
    }

    // `newNonce` is the next random nonce, `recreated` the outcome of the script, `health(i)` what
    // the i-th inspection of the container says.
    method HandleMessage(message: string, now: real, newNonce: string, recreated: bool, health: nat -> string)
      modifies this
      ensures Abs() == Next(config, old(Abs()), Parse(isSpace, message), now, newNonce)
      ensures log == old(log) + Logged(old(Abs()), Parse(isSpace, message), now, newNonce)
      ensures pushes == old(pushes)
                        + Answer(config, old(Abs()), Parse(isSpace, message), now, newNonce, recreated, health)
    {
      var command := Strip(isSpace, message);
      if command == "recreate-live" {
        OnTrigger(now, newNonce);
      } else if "confirm " <= command {
        OnConfirm(Strip(isSpace, command[|"confirm "|..]), now, recreated, health);
      }
    }

    method OnTrigger(now: real, newNonce: string)
      modifies this
      ensures Abs() == Next(config, old(Abs()), Trigger, now, newNonce)
      ensures log == old(log) + Logged(old(Abs()), Trigger, now, newNonce)
      ensures pushes == old(pushes) + if CoolingDown(old(Abs()), now)
                                      then [CooldownActive((old(cooldownUntil).value - now).Floor)]
                                      else [Requested(newNonce)]
    {
      if cooldownUntil.Some? && now < cooldownUntil.value {
        var remaining := (cooldownUntil.value - now).Floor;
        pushes := pushes + [CooldownActive(remaining)];
        return;
      }
      nonce := Some(newNonce);
      nonceExpires := Some(now + config.confirmTtl);
      pushes := pushes + [Requested(newNonce)];
      log := log + [Issued(newNonce, now)];
    }

    method OnConfirm(given: string, now: real, recreated: bool, health: nat -> string)
      modifies this
      ensures Abs() == Next(config, old(Abs()), Confirm(given), now, "")
      ensures log == old(log) + Logged(old(Abs()), Confirm(given), now, "")
      ensures pushes == old(pushes) + if Accepts(old(Abs()), given, now) then Outcome(config, recreated, health)
                                      else [Rejected]
    {
      var valid := nonce.Some? && nonce.value == given && nonceExpires.Some? && now < nonceExpires.value;
      if !valid {
        pushes := pushes + [Rejected];
        return;
      }
      nonce, nonceExpires := None, None;
      log := log + [Recreated(given, now)];
      DoRecreate(now, recreated, health);
    }

    method DoRecreate(now: real, recreated: bool, health: nat -> string)
      modifies this`cooldownUntil, this`pushes
      ensures cooldownUntil == Some(now + config.cooldown)
      ensures pushes == old(pushes) + Outcome(config, recreated, health)
    {
      cooldownUntil := Some(now + config.cooldown);
      pushes := pushes + [Started];
      if !recreated {
        pushes := pushes + [RecreateFailed];
        return;
      }
      var ok, _ := PollHealth(health);
      pushes := pushes + [if ok then BackToOk else StillDown];
    }

    // Asks until the answer is "healthy", sleeping between two questions but not after the last.
    method PollHealth(health: nat -> string) returns (ok: bool, slept: real)
      ensures ok <==> TurnsHealthy(config, health)
      ensures slept >= 0.0 && (slept > 0.0 ==> slept < config.healthWait)
      ensures !ok && config.pollInterval > 0.0 ==> slept + config.pollInterval >= config.healthWait
    {
      var interval := config.pollInterval;
      var polls := Polls(config.healthWait, interval);
      if interval > 0.0 { PollsCoverTheWait(config.healthWait, interval); }
      slept := 0.0;
      for i := 0 to polls
        invariant forall j :: 0 <= j < i ==> health(j) != "healthy"
        invariant slept == Naps(interval, i, polls)
      {
        NapsBounded(interval, i, polls);
        if health(i) == "healthy" {
          return true, slept;
        }
        if i < polls - 1 {
          slept := slept + interval;
        }
      }
      NapsBounded(interval, polls, polls);
      ok := false;
    }
  }

  // The time slept before the i-th of `polls` questions, or after all of them.
  function Naps(interval: real, i: nat, polls: nat): real {
    if i == 0 then 0.0 else if i < polls then Naps(interval, i - 1, polls) + interval else Naps(interval, i - 1, polls)
  }

  lemma {:induction false} NapsBounded(interval: real, i: nat, polls: nat)
    requires 1 <= polls && i <= polls && (polls == 1 || interval > 0.0)
    ensures Naps(interval, i, polls) == (if i < polls then i else polls - 1) as real * interval
    ensures 0.0 <= Naps(interval, i, polls) <= (polls - 1) as real * interval
  {
    if i > 0 {
      NapsBounded(interval, i - 1, polls);
      if interval > 0.0 {
        Scale(0.0, (if i < polls then i else polls - 1) as real, interval);
        Scale((if i < polls then i else polls - 1) as real, (polls - 1) as real, interval);
      }
    } else if interval > 0.0 {
      Scale(0.0, (polls - 1) as real, interval);
    }
  }

  ghost predicate TurnsHealthy(c: Config, health: nat -> string) {
    exists i: nat :: i < Polls(c.healthWait, c.pollInterval) && health(i) == "healthy"
  }

  ghost function Outcome(c: Config, recreated: bool, health: nat -> string): seq<Push> {
    [Started] + if !recreated then [RecreateFailed] else if TurnsHealthy(c, health) then [BackToOk] else [StillDown]
  }

  // The pushes that answer a command.
  ghost function Answer(c: Config, s: State, command: Command, now: real, newNonce: string, recreated: bool,
                        health: nat -> string): seq<Push>
  {
    match command
    case Trigger =>
      if CoolingDown(s, now) then [CooldownActive((s.coolDownUntil.value - now).Floor)] else [Requested(newNonce)]
    case Confirm(nonce) => if Accepts(s, nonce, now) then Outcome(c, recreated, health) else [Rejected]
    case Ignored => []
  }

  // ---- Whole runs, decided by their history alone ----

  datatype Message = Message(command: Command, at: real, newNonce: string)
  datatype World = World(s: State, log: seq<Entry>, clock: real)

  ghost function Advance(c: Config, w: World, m: Message): World {
    World(Next(c, w.s, m.command, m.at, m.newNonce), w.log + Logged(w.s, m.command, m.at, m.newNonce), m.at)
  }

  ghost function Run(c: Config, w: World, messages: seq<Message>): World {
    if messages == [] then w
    else Advance(c, Run(c, w, messages[..|messages| - 1]), messages[|messages| - 1])
  }

  function LastAt(clock: real, messages: seq<Message>): real {
    if messages == [] then clock else messages[|messages| - 1].at
  }

  ghost predicate InOrder(clock: real, messages: seq<Message>) {
    messages != [] ==>
      && InOrder(clock, messages[..|messages| - 1])
      && LastAt(clock, messages[..|messages| - 1]) <= messages[|messages| - 1].at
  }

  ghost function Fresh(clock: real): World {
    World(State(None, None, None), [], clock)
  }

  // What the log says of an open nonce: it is the very last thing that happened.
  ghost predicate Open(c: Config, log: seq<Entry>, nonce: string, now: real) {
    log != [] && var last := log[|log| - 1]; last.Issued? && last.nonce == nonce && now < last.at + c.confirmTtl
  }

  ghost predicate RecentlyRecreated(c: Config, log: seq<Entry>, now: real) {
    exists k :: 0 <= k < |log| && log[k].Recreated? && now < log[k].at + c.cooldown
  }

  function LastRecreate(log: seq<Entry>): Option<real> {
    if log == [] then None
    else if log[|log| - 1].Recreated? then Some(log[|log| - 1].at)
    else LastRecreate(log[..|log| - 1])
  }

  ghost predicate Ordered(log: seq<Entry>, clock: real) {
    && (forall i, j :: 0 <= i < j < |log| ==> log[i].at <= log[j].at)
    && (forall i :: 0 <= i < |log| ==> log[i].at <= clock)
  }

  // The three fields are read off the log.
  ghost predicate Remembers(c: Config, s: State, log: seq<Entry>) {
    && s.nonce == (if log != [] && log[|log| - 1].Issued? then Some(log[|log| - 1].nonce) else None)
    && s.expires == (if log != [] && log[|log| - 1].Issued? then Some(log[|log| - 1].at + c.confirmTtl) else None)
    && s.coolDownUntil ==
       match LastRecreate(log) { case None => None case Some(at) => Some(at + c.cooldown) }
  }

  lemma {:induction false} LastRecreateIsLast(c: Config, log: seq<Entry>, clock: real, now: real)
    requires Ordered(log, clock)
    ensures RecentlyRecreated(c, log, now) <==> LastRecreate(log).Some? && now < LastRecreate(log).value + c.cooldown
  {
    if log != [] {
      var front := log[..|log| - 1];
      if log[|log| - 1].Recreated? {
      } else {
        LastRecreateIsLast(c, front, clock, now);
        if RecentlyRecreated(c, log, now) {
          var k :| 0 <= k < |log| && log[k].Recreated? && now < log[k].at + c.cooldown;
          assert front[k] == log[k];
        }
        if RecentlyRecreated(c, front, now) {
          var k :| 0 <= k < |front| && front[k].Recreated? && now < front[k].at + c.cooldown;
          assert log[k] == front[k];
        }
      }
    }
  }

  lemma StepRemembers(c: Config, w: World, m: Message)
    requires Remembers(c, w.s, w.log) && Ordered(w.log, w.clock) && w.clock <= m.at
    ensures Remembers(c, Advance(c, w, m).s, Advance(c, w, m).log)
    ensures Ordered(Advance(c, w, m).log, m.at)
  {
    var v := Advance(c, w, m);
    if v.log != w.log { assert v.log[..|v.log| - 1] == w.log; }
  }

  lemma {:induction false} RunRemembers(c: Config, clock: real, messages: seq<Message>)
    requires InOrder(clock, messages)
    ensures var w := Run(c, Fresh(clock), messages);
            && Remembers(c, w.s, w.log) && Ordered(w.log, w.clock)
            && w.clock == LastAt(clock, messages)
  {
    if messages != [] {
      RunRemembers(c, clock, messages[..|messages| - 1]);
      StepRemembers(c, Run(c, Fresh(clock), messages[..|messages| - 1]), messages[|messages| - 1]);
    }
  }

  // After any run, a trigger hands out a nonce exactly if no recreate is younger than the cool-down,
  // and a confirmation recreates exactly if the last thing that happened was the issue of its nonce,
  // less than the TTL ago.
  lemma {:induction false} DecidedByHistory(c: Config, clock: real, messages: seq<Message>, m: Message)
    requires InOrder(clock, messages + [m])
    ensures var log := Run(c, Fresh(clock), messages).log;
            Run(c, Fresh(clock), messages + [m]).log == log +
            match m.command {
              case Trigger => if RecentlyRecreated(c, log, m.at) then [] else [Issued(m.newNonce, m.at)]
              case Confirm(nonce) => if Open(c, log, nonce, m.at) then [Recreated(nonce, m.at)] else []
              case Ignored => []
            }
  {
    assert (messages + [m])[..|messages|] == messages;
    RunRemembers(c, clock, messages);
    var w := Run(c, Fresh(clock), messages);
    LastRecreateIsLast(c, w.log, w.clock, m.at);
  }

  // What every log looks like.
  ghost predicate Authorised(c: Config, log: seq<Entry>, j: nat)
    requires j < |log|
  {
    log[j].Recreated? ==>
      && j > 0 && log[j - 1].Issued? && log[j - 1].nonce == log[j].nonce
      && log[j - 1].at <= log[j].at < log[j - 1].at + c.confirmTtl
  }

  ghost predicate Rested(c: Config, log: seq<Entry>, i: nat, j: nat)
    requires i < |log| && j < |log|
  {
    log[i].Recreated? && log[j].Issued? ==> log[i].at + c.cooldown <= log[j].at
  }

  ghost predicate Sound(c: Config, log: seq<Entry>) {
    && (forall j :: 0 <= j < |log| ==> Authorised(c, log, j))
    && (forall i, j :: 0 <= i < j < |log| ==> Rested(c, log, i, j))
  }

  lemma StepSound(c: Config, w: World, m: Message)
    requires Remembers(c, w.s, w.log) && Ordered(w.log, w.clock) && w.clock <= m.at && Sound(c, w.log)
    ensures Sound(c, Advance(c, w, m).log)
  {
    var log, after := w.log, Advance(c, w, m).log;
    LastRecreateIsLast(c, log, w.clock, m.at);
    forall j | 0 <= j < |after|
      ensures Authorised(c, after, j)
    {
      if j < |log| { assert Authorised(c, log, j); }
    }
    forall i, j | 0 <= i < j < |after|
      ensures Rested(c, after, i, j)
    {
      if j < |log| { assert Rested(c, log, i, j); }
    }
  }

  lemma {:induction false} RunSound(c: Config, clock: real, messages: seq<Message>)
    requires InOrder(clock, messages)
    ensures Sound(c, Run(c, Fresh(clock), messages).log)
  {
    if messages != [] {
      RunSound(c, clock, messages[..|messages| - 1]);
      RunRemembers(c, clock, messages[..|messages| - 1]);
      StepSound(c, Run(c, Fresh(clock), messages[..|messages| - 1]), messages[|messages| - 1]);
    }
  }

  // Every recreate directly follows the issue of its own nonce, within the TTL: so no issued nonce
  // is used twice.
  lemma {:induction false} RecreatesAreAuthorised(c: Config, clock: real, messages: seq<Message>, j: nat)
    requires InOrder(clock, messages)
    requires var log := Run(c, Fresh(clock), messages).log; j < |log| && log[j].Recreated?
    ensures var log := Run(c, Fresh(clock), messages).log;
            && j > 0 && log[j - 1].Issued? && log[j - 1].nonce == log[j].nonce
            && log[j - 1].at <= log[j].at < log[j - 1].at + c.confirmTtl
  {
    RunSound(c, clock, messages);
    assert Authorised(c, Run(c, Fresh(clock), messages).log, j);
  }

  // Two recreates are at least the cool-down apart, although a confirmation never looks at it.
  lemma {:induction false} RecreatesAreSpaced(c: Config, clock: real, messages: seq<Message>, i: nat, j: nat)
    requires InOrder(clock, messages)
    requires var log := Run(c, Fresh(clock), messages).log;
             i < j < |log| && log[i].Recreated? && log[j].Recreated?
    ensures var log := Run(c, Fresh(clock), messages).log; log[i].at + c.cooldown <= log[j].at
  {
    var log := Run(c, Fresh(clock), messages).log;
    RunSound(c, clock, messages);
    assert Authorised(c, log, j);
    assert i != j - 1;
    assert Rested(c, log, i, j - 1);
  }
}
