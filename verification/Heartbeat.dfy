/** Keeping a silent event stream warm with comments (streams/heartbeat.py:62-134). */
module Heartbeat {
  import opened Options

  // One turn of the loop, with what happens outside: the interval passes in silence or the source
  // yields, and the client goes away at the yield that follows or not; the source fails; or the
  // stream is cancelled while it waits.
  datatype Turn = Silence(closes: bool) | Arrival(closes: bool) | Fails | Cancelled

  /** An async generator that yields `items`. `pulling` says that a __anext__ is under way, and
    * `detaches` counts the runs of its cleanup.
    */
  class Source<T> {
    const items: seq<T>
    var taken: nat
    var pulling: bool
    var finished: bool
    var detaches: nat

    constructor (items: seq<T>)
      ensures this.items == items && taken == 0 && !pulling && !finished && detaches == 0
    {
      this.items, taken, pulling, finished, detaches := items, 0, false, false, 0;
    }

    // Asking a generator again before it answered is an error in Python.
    method BeginPull()
      requires !pulling && !finished
      modifies this`pulling
      ensures pulling
    {
      pulling := true;
    }

    // The pending __anext__ ends; None stands for the sentinel.
    method EndPull() returns (item: Option<T>)
      requires pulling && !finished && taken <= |items|
      modifies this`pulling, this`taken, this`finished, this`detaches
      ensures !pulling && finished == (old(taken) == |items|)
      ensures item == (if old(taken) < |items| then Some(items[old(taken)]) else None)
      ensures taken == (if finished then old(taken) else old(taken) + 1)
      ensures detaches == (if finished then old(detaches) + 1 else old(detaches))
    {
      pulling := false;
      if taken == |items| {
        finished, detaches := true, detaches + 1;
        return None;
      }
      item := Some(items[taken]);
      taken := taken + 1;
    }

    // An exception ends the generator, also the CancelledError of a cancelled pull.
    method Break()
      requires pulling && !finished
      modifies this`pulling, this`finished, this`detaches
      ensures !pulling && finished && detaches == old(detaches) + 1
    {
      pulling, finished, detaches := false, true, detaches + 1;
    }

    method Close()
      requires !pulling
      modifies this`finished, this`detaches
      ensures finished && detaches == (if old(finished) then old(detaches) else old(detaches) + 1)
    {
      if !finished {
        finished, detaches := true, detaches + 1;
      }
    }
  }

  // What the client is sent; once the turns are used up, the stream is cancelled in its wait.
  function Sent<T>(render: T -> string, comment: string, items: seq<T>, turns: seq<Turn>): seq<string>
    decreases |turns|
  {
    if turns == [] then []
    else
      match turns[0]
      case Silence(closes) => [comment] + if closes then [] else Sent(render, comment, items, turns[1..])
      case Arrival(closes) =>
        if items == [] then []
        else [render(items[0])] + if closes then [] else Sent(render, comment, items[1..], turns[1..])
      case _ => []
  }

  // One turn with a pull under way: what is sent, whether the pull still stands and whether it ended.
  method TakeTurn<T>(source: Source<T>, render: T -> string, comment: string, turn: Turn)
    returns (chunk: Option<string>, pending: bool, ended: bool)
    requires source.pulling && !source.finished && source.taken <= |source.items|
    modifies source
    ensures var arrives := turn.Arrival? && old(source.taken) < |source.items|;
            && chunk == (if turn.Silence? then Some(comment)
                         else if arrives then Some(render(source.items[old(source.taken)]))
                         else None)
            && source.taken == (if arrives then old(source.taken) + 1 else old(source.taken))
            && (ended <==> chunk.None? || turn.closes)
            && (source.pulling <==> turn.Silence? || turn.Cancelled?)
            && (source.finished <==> turn.Fails? || (turn.Arrival? && !arrives))
    ensures source.detaches == (if source.finished then old(source.detaches) + 1 else old(source.detaches))
    ensures source.pulling ==> pending
    ensures pending ==> source.pulling || source.finished
  {
    chunk, pending := None, true;
    match turn {
      case Silence(closes) =>
        chunk, ended := Some(comment), closes;
      case Arrival(closes) =>
        var item := source.EndPull();
        pending := false;
        if item.None? {
          ended := true;
        } else {
          chunk, ended := Some(render(item.value)), closes;
        }
      case Fails =>
        source.Break();
        ended := true;
      case Cancelled =>
        ended := true;
    }
  }

  // The loop pulls only while no pull is under way, and however it ends the source is detached
  // exactly once.
  method StreamWithHeartbeat<T>(source: Source<T>, render: T -> string, comment: string, turns: seq<Turn>)
    returns (out: seq<string>)
    requires source.taken == 0 && !source.pulling && !source.finished && source.detaches == 0
    modifies source
    ensures out == Sent(render, comment, source.items, turns)
    ensures !source.pulling && source.finished && source.detaches == 1
  {
    out := [];
    var pending, ended := false, false;
    var i := 0;
    // What is still to be sent.
    ghost var rest := Sent(render, comment, source.items, turns);
    ghost var all := rest;
    assert source.items[0..] == source.items && turns[0..] == turns;
    while !ended
      invariant 0 <= i <= |turns| && source.taken <= |source.items|
      invariant !ended ==> !source.finished && source.detaches == 0 && pending == source.pulling
      invariant out + rest == all
      invariant !ended ==> rest == Sent(render, comment, source.items[source.taken..], turns[i..])
      invariant ended ==> rest == []
      invariant source.detaches == (if source.finished then 1 else 0)
      invariant source.pulling ==> pending && !source.finished
      decreases !ended, |turns| - i
    {
      if !pending {
        source.BeginPull();
        pending := true;
      }
      if i == |turns| {
        ended := true;
      } else {
        SentTurn(render, comment, source.items, source.taken, turns, i);
        var chunk;
        chunk, pending, ended := TakeTurn(source, render, comment, turns[i]);
        i := i + 1;
        if chunk.Some? {
          out := out + [chunk.value];
          rest := rest[1..];
        }
      }
    }
    if pending && source.pulling {
      source.Break();
    }
    source.Close();
  }

  lemma SentTurn<T>(render: T -> string, comment: string, items: seq<T>, taken: nat, turns: seq<Turn>, i: nat)
    requires i < |turns| && taken <= |items|
    ensures var rest := Sent(render, comment, items[taken..], turns[i..]);
            match turns[i]
            case Silence(closes) =>
              && rest != [] && rest[0] == comment
              && rest[1..] == (if closes then [] else Sent(render, comment, items[taken..], turns[i + 1..]))
            case Arrival(closes) =>
              if taken == |items| then rest == []
              else
                && rest != [] && rest[0] == render(items[taken])
                && rest[1..] == (if closes then [] else Sent(render, comment, items[taken + 1..], turns[i + 1..]))
            case _ => rest == []
  {
    assert turns[i..][1..] == turns[i + 1..];
    if taken < |items| { assert items[taken..][1..] == items[taken + 1..]; }
  }

  // ---- What the comments do not change ----

  function Erase(chunks: seq<string>): seq<string> {
    if chunks == [] then []
    else (if chunks[0] != "" && chunks[0][0] == ':' then [] else [chunks[0]]) + Erase(chunks[1..])
  }

  // How many silences pass before the stream ends.
  function Silences<T>(items: seq<T>, turns: seq<Turn>): nat
    decreases |turns|
  {
    if turns == [] then 0
    else
      match turns[0]
      case Silence(closes) => 1 + if closes then 0 else Silences(items, turns[1..])
      case Arrival(closes) => if items == [] || closes then 0 else Silences(items[1..], turns[1..])
      case _ => 0
  }

  // Every silence is broken by one comment.
  lemma {:induction false} EverySilenceIsBroken<T>(render: T -> string, comment: string, items: seq<T>, turns: seq<Turn>)
    ensures |Sent(render, comment, items, turns)| == |Delivered(items, turns)| + Silences(items, turns)
    decreases |turns|
  {
    if turns != [] {
      match turns[0]
      case Silence(closes) => if !closes { EverySilenceIsBroken(render, comment, items, turns[1..]); }
      case Arrival(closes) =>
        if items != [] {
          DeliveredOneMore(items, turns);
          if !closes { EverySilenceIsBroken(render, comment, items[1..], turns[1..]); }
        }
      case _ =>
    }
  }

  function Rendered<T>(render: T -> string, items: seq<T>): seq<string> {
    if items == [] then [] else [render(items[0])] + Rendered(render, items[1..])
  }

  // How many items the turns let through.
  function Arrivals(turns: seq<Turn>): nat {
    if turns == [] then 0
    else
      match turns[0]
      case Silence(closes) => if closes then 0 else Arrivals(turns[1..])
      case Arrival(closes) => 1 + if closes then 0 else Arrivals(turns[1..])
      case _ => 0
  }

  function Delivered<T>(items: seq<T>, turns: seq<Turn>): seq<T> {
    if |items| <= Arrivals(turns) then items else items[..Arrivals(turns)]
  }

  // For every pattern of silences: without its comments the output is the rendered source, up to
  // where the stream ended.
  lemma {:induction false} ErasingLeavesTheSource<T>(render: T -> string, comment: string, items: seq<T>,
                                                     turns: seq<Turn>)
    requires comment != "" && comment[0] == ':'
    requires forall x :: x in items ==> render(x) == "" || render(x)[0] != ':'
    ensures Erase(Sent(render, comment, items, turns)) == Rendered(render, Delivered(items, turns))
    decreases |turns|
  {
    if turns != [] {
      match turns[0]
      case Silence(closes) =>
        if !closes {
          ErasingLeavesTheSource(render, comment, items, turns[1..]);
          var rest := Sent(render, comment, items, turns[1..]);
          assert ([comment] + rest)[1..] == rest;
        }
      case Arrival(closes) =>
        if items != [] {
          var rest := if closes then [] else Sent(render, comment, items[1..], turns[1..]);
          if !closes {
            ErasingLeavesTheSource(render, comment, items[1..], turns[1..]);
          }
          assert ([render(items[0])] + rest)[1..] == rest;
          DeliveredOneMore(items, turns);
        }
      case _ =>
    }
  }

  lemma DeliveredOneMore<T>(items: seq<T>, turns: seq<Turn>)
    requires items != [] && turns != [] && turns[0].Arrival?
    ensures Delivered(items, turns)
            == [items[0]] + if turns[0].closes then [] else Delivered(items[1..], turns[1..])
  {
    var more := if turns[0].closes then 0 else Arrivals(turns[1..]);
    if |items| > more + 1 { assert items[..more + 1] == [items[0]] + items[1..][..more]; }
  }
}
