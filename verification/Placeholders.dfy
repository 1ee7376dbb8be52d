/** Numbered placeholders, and first-occurrence numbering of lists of strings (cp/normalize.py). */
module Placeholders {
  import opened Decimals

  // ---- Three-digit numbers ----

  // Zero-padded to at least three digits.
  function Padded(n: nat): string {
    var d := Decimal(n);
    if |d| == 1 then "00" + d else if |d| == 2 then "0" + d else d
  }

  function Placeholder(kind: string, n: nat): (r: string)
    ensures r != ""
  {
    "<" + kind + "_" + Padded(n) + ">"
  }

  lemma {:induction false} ReadZero(s: string)
    ensures Read("0" + s) == Read(s)
  {
    if s == "" {
      assert ("0" + s)[..0] == "";
    } else {
      ReadZero(s[..|s| - 1]);
      assert ("0" + s)[..|s|] == "0" + s[..|s| - 1];
    }
  }

  lemma {:induction false} ReadPadded(n: nat)
    ensures Read(Padded(n)) == n
  {
    var d := Decimal(n);
    ReadDecimal(n);
    ReadZero(d);
    ReadZero("0" + d);
    assert "00" + d == "0" + ("0" + d);
  }

  lemma {:induction false} PlaceholdersDiffer(kind: string, m: nat, n: nat)
    ensures Placeholder(kind, m) == Placeholder(kind, n) <==> m == n
  {
    if Placeholder(kind, m) == Placeholder(kind, n) {
      var k := |kind| + 2;
      var a, b := Placeholder(kind, m), Placeholder(kind, n);
      assert a[k..|a| - 1] == Padded(m) && b[k..|b| - 1] == Padded(n);
      ReadPadded(m);
      ReadPadded(n);
    }
  }

  // ---- First occurrences ----

  // `known`, followed by the first occurrences of what is new in `xs`.
  function Absorb(known: seq<string>, xs: seq<string>): seq<string>
    decreases |xs|
  {
    if xs == [] then known
    else Absorb(if xs[0] in known then known else known + [xs[0]], xs[1..])
  }

  function Position(xs: seq<string>, x: string): (i: nat)
    ensures i <= |xs| && (x in xs ==> i < |xs| && xs[i] == x)
  {
    if xs == [] || xs[0] == x then 0 else 1 + Position(xs[1..], x)
  }

  ghost predicate NoRepeats(xs: seq<string>) {
    forall i, j :: 0 <= i < j < |xs| ==> xs[i] != xs[j]
  }

  function Each(f: string -> string, xs: seq<string>): (r: seq<string>)
    ensures |r| == |xs| && forall i :: 0 <= i < |xs| ==> r[i] == f(xs[i])
  {
    if xs == [] then [] else [f(xs[0])] + Each(f, xs[1..])
  }

  ghost predicate InjectiveOn(f: string -> string, xs: seq<string>) {
    forall x, y :: x in xs && y in xs && f(x) == f(y) ==> x == y
  }

  lemma {:induction false} AbsorbConcat(known: seq<string>, xs: seq<string>, ys: seq<string>)
    ensures Absorb(known, xs + ys) == Absorb(Absorb(known, xs), ys)
    decreases |xs|
  {
    if xs == [] {
      assert xs + ys == ys;
    } else {
      assert (xs + ys)[1..] == xs[1..] + ys;
      AbsorbConcat(if xs[0] in known then known else known + [xs[0]], xs[1..], ys);
    }
  }

  lemma {:induction false} AbsorbFacts(known: seq<string>, xs: seq<string>)
    ensures known <= Absorb(known, xs)
    ensures forall x :: x in Absorb(known, xs) <==> x in known || x in xs
    ensures NoRepeats(known) ==> NoRepeats(Absorb(known, xs))
    decreases |xs|
  {
    if xs != [] {
      AbsorbFacts(if xs[0] in known then known else known + [xs[0]], xs[1..]);
      assert xs == [xs[0]] + xs[1..];
    }
  }

  lemma {:induction false} PositionInPrefix(xs: seq<string>, ys: seq<string>, x: string)
    requires xs <= ys && x in xs
    ensures Position(xs, x) == Position(ys, x)
  {
    if xs[0] != x { PositionInPrefix(xs[1..], ys[1..], x); }
  }

  lemma {:induction false} PositionEach(f: string -> string, xs: seq<string>, x: string)
    requires InjectiveOn(f, xs + [x]) && x in xs
    ensures Position(Each(f, xs), f(x)) == Position(xs, x)
  {
    if xs[0] != x {
      assert xs[0] in xs + [x] && x in xs + [x];
      PositionEach(f, xs[1..], x);
    }
  }

  // Numbering by first occurrence does not depend on what the strings are called.
  lemma {:induction false} AbsorbEach(f: string -> string, known: seq<string>, xs: seq<string>)
    requires InjectiveOn(f, known + xs)
    ensures Absorb(Each(f, known), Each(f, xs)) == Each(f, Absorb(known, xs))
    decreases |xs|
  {
    if xs != [] {
      var x := xs[0];
      var more := if x in known then known else known + [x];
      EachMember(f, known, x, xs);
      assert Each(f, known + [x]) == Each(f, known) + [f(x)];
      assert Each(f, xs)[1..] == Each(f, xs[1..]);
      AbsorbEach(f, more, xs[1..]);
    }
  }

  lemma {:induction false} EachMember(f: string -> string, known: seq<string>, x: string, xs: seq<string>)
    requires InjectiveOn(f, known + xs) && x in xs
    ensures f(x) in Each(f, known) <==> x in known
  {
    if x in known {
      var i :| 0 <= i < |known| && known[i] == x;
      assert Each(f, known)[i] == f(x);
    }
    if f(x) in Each(f, known) {
      var i :| 0 <= i < |known| && Each(f, known)[i] == f(x);
      assert known[i] in known + xs && x in known + xs;
    }
  }
}
