/** Sequences that keep their newest elements: replay rings and drop-oldest queues. */
module BoundedQueue {
  function Newest<T>(s: seq<T>, cap: nat): (r: seq<T>)
    ensures |r| <= cap && |r| <= |s|
  {
    if |s| <= cap then s else s[|s| - cap..]
  }

  lemma {:induction false} NewestOfConcat<X>(a: seq<X>, b: seq<X>, cap: nat)
    requires |b| >= cap
    ensures Newest(a + b, cap) == Newest(b, cap)
  {
  }

  lemma {:induction false} NewestAppend<X>(log: seq<X>, e: X, cap: nat)
    requires cap > 0
    ensures Newest(Newest(log, cap) + [e], cap) == Newest(log + [e], cap)
  {
  }

  ghost predicate IsSuffix<X>(queue: seq<X>, log: seq<X>) {
    |queue| <= |log| && queue == log[|log| - |queue|..]
  }

  lemma {:induction false} SuffixOfSuffix<X>(a: seq<X>, b: seq<X>, c: seq<X>)
    requires IsSuffix(a, b) && IsSuffix(b, c)
    ensures IsSuffix(a, c)
  {
  }

  lemma {:induction false} SuffixAppend<X>(queue: seq<X>, log: seq<X>, e: X)
    requires IsSuffix(queue, log)
    ensures IsSuffix(queue + [e], log + [e])
  {
  }
}
