/** The duplicate filter of the order stream (streams/orders.py): an ordered dictionary of bounded
  * size, compared with the complete list of frames that ever passed through it.
  */
module RecentOrders {
  import opened BoundedQueue
  import opened Options

  datatype Value = Null | Text(text: string) | Number(n: int) | Many(items: seq<map<string, Value>>)

  type Payload = map<string, Value>

  // What the filter remembers of a frame: the order id and the payload without its time stamp.
  datatype Entry = Entry(id: Value, key: Payload)

  function IdOf(p: Payload): Value {
    if "order_id" in p then p["order_id"] else Null
  }

  function KeyOf(p: Payload): Payload {
    p - {"last_event_at"}
  }

  function EntryOf(p: Payload): Entry {
    Entry(IdOf(p), KeyOf(p))
  }

  // ---- The ordered dictionary, oldest entry first ----

  function Without(cache: seq<Entry>, id: Value): (r: seq<Entry>)
    ensures |r| <= |cache|
  {
    if cache == [] then []
    else (if cache[0].id == id then [] else [cache[0]]) + Without(cache[1..], id)
  }

  function Get(cache: seq<Entry>, id: Value): Option<Payload> {
    if cache == [] then None
    else if cache[0].id == id then Some(cache[0].key)
    else Get(cache[1..], id)
  }

  // One frame passes: its entry becomes the newest, and the oldest ones make room for it.
  function Touch(cache: seq<Entry>, p: Payload, cap: nat): seq<Entry> {
    Newest(Without(cache, IdOf(p)) + [EntryOf(p)], cap)
  }

  predicate IsDuplicate(cache: seq<Entry>, p: Payload) {
    Get(cache, IdOf(p)) == Some(KeyOf(p))
  }

  function CacheAfter(frames: seq<Payload>, cap: nat): seq<Entry> {
    if frames == [] then []
    else Touch(CacheAfter(frames[..|frames| - 1], cap), frames[|frames| - 1], cap)
  }

  // ---- The same thing read off the complete list of frames ----

  function Ids(frames: seq<Payload>): set<Value> {
    if frames == [] then {} else {IdOf(frames[0])} + Ids(frames[1..])
  }

  // The last frame of every order, in the order in which those last frames came.
  function LastFrames(frames: seq<Payload>): seq<Entry> {
    if frames == [] then []
    else (if IdOf(frames[0]) in Ids(frames[1..]) then [] else [EntryOf(frames[0])]) + LastFrames(frames[1..])
  }

  ghost predicate IsLastOfId(frames: seq<Payload>, j: nat, p: Payload) {
    j < |frames| && IdOf(frames[j]) == IdOf(p) && IdOf(p) !in Ids(frames[j + 1..])
  }

  // ---- The fields that decide ----

  // The two frames say the same: every field but the time stamp is there in both or in neither, with
  // the same value.
  ghost predicate SaysTheSame(p: Payload, q: Payload) {
    forall k :: k != "last_event_at" ==> (k in p <==> k in q) && (k in p ==> p[k] == q[k])
  }

  // The two frames carry the same order id; one without any counts as one whose id is null.
  ghost predicate SameOrder(p: Payload, q: Payload) {
    if "order_id" in p && "order_id" in q then p["order_id"] == q["order_id"]
    else ("order_id" in p ==> p["order_id"] == Null) && ("order_id" in q ==> q["order_id"] == Null)
  }

  // Frame `j` is the previous frame of the order that `p` belongs to.
  ghost predicate IsPrevious(frames: seq<Payload>, j: nat, p: Payload) {
    j < |frames| && SameOrder(frames[j], p) && forall i :: j < i < |frames| ==> !SameOrder(frames[i], p)
  }

  lemma {:induction false} KeysTellFields(p: Payload, q: Payload)
    ensures KeyOf(p) == KeyOf(q) <==> SaysTheSame(p, q)
  {
    if KeyOf(p) == KeyOf(q) {
      forall k | k != "last_event_at"
        ensures (k in p <==> k in q) && (k in p ==> p[k] == q[k])
      {
        assert k in p <==> k in KeyOf(p);
        assert k in q <==> k in KeyOf(q);
        if k in p { assert KeyOf(p)[k] == p[k] && KeyOf(q)[k] == q[k]; }
      }
    }
  }

  lemma {:induction false} IdsTellOrders(p: Payload, q: Payload)
    ensures IdOf(p) == IdOf(q) <==> SameOrder(p, q)
  {
  }

  lemma {:induction false} InIds(frames: seq<Payload>, p: Payload)
    ensures IdOf(p) in Ids(frames) <==> exists i :: 0 <= i < |frames| && SameOrder(frames[i], p)
  {
    if frames != [] {
      var rest := frames[1..];
      InIds(rest, p);
      IdsTellOrders(frames[0], p);
      if i :| 0 <= i < |rest| && SameOrder(rest[i], p) { assert SameOrder(frames[i + 1], p); }
      if i :| 0 <= i < |frames| && SameOrder(frames[i], p) {
        if i > 0 { assert SameOrder(rest[i - 1], p); }
      }
    }
  }

  lemma {:induction false} PreviousByFields(frames: seq<Payload>, j: nat, p: Payload)
    ensures IsPrevious(frames, j, p) <==> IsLastOfId(frames, j, p)
  {
    if j < |frames| {
      var later := frames[j + 1..];
      IdsTellOrders(frames[j], p);
      InIds(later, p);
      if i :| 0 <= i < |later| && SameOrder(later[i], p) { assert SameOrder(frames[j + 1 + i], p); }
      if i :| j < i < |frames| && SameOrder(frames[i], p) { assert SameOrder(later[i - j - 1], p); }
    }
  }

  lemma {:induction false} IdsAppend(frames: seq<Payload>, p: Payload)
    ensures Ids(frames + [p]) == Ids(frames) + {IdOf(p)}
  {
    if frames == [] {
      assert (frames + [p])[1..] == [];
    } else {
      assert (frames + [p])[1..] == frames[1..] + [p];
      IdsAppend(frames[1..], p);
    }
  }

  lemma {:induction false} WithoutConcat(a: seq<Entry>, b: seq<Entry>, id: Value)
    ensures Without(a + b, id) == Without(a, id) + Without(b, id)
  {
    if a == [] {
      assert a + b == b;
    } else {
      assert (a + b)[1..] == a[1..] + b;
      WithoutConcat(a[1..], b, id);
    }
  }

  lemma {:induction false} WithoutHead(frame: Payload, rest: seq<Payload>, p: Payload, head: seq<Entry>)
    requires head == if IdOf(frame) in Ids(rest) then [] else [EntryOf(frame)]
    ensures Without(head, IdOf(p)) == if IdOf(frame) in Ids(rest) + {IdOf(p)} then [] else [EntryOf(frame)]
  {
    if head != [] { assert head[1..] == []; }
  }

  lemma {:induction false} LastFramesAppend(frames: seq<Payload>, p: Payload)
    ensures LastFrames(frames + [p]) == Without(LastFrames(frames), IdOf(p)) + [EntryOf(p)]
  {
    if frames == [] {
      assert (frames + [p])[1..] == [];
    } else {
      var rest := frames[1..];
      var head := if IdOf(frames[0]) in Ids(rest) then [] else [EntryOf(frames[0])];
      assert (frames + [p])[1..] == rest + [p];
      LastFramesAppend(rest, p);
      IdsAppend(rest, p);
      WithoutConcat(head, LastFrames(rest), IdOf(p));
      WithoutHead(frames[0], rest, p, head);
    }
  }

  ghost predicate DistinctIds(cache: seq<Entry>) {
    forall i, j :: 0 <= i < j < |cache| ==> cache[i].id != cache[j].id
  }

  lemma {:induction false} LastFramesKnown(frames: seq<Payload>)
    ensures forall e :: e in LastFrames(frames) ==> e.id in Ids(frames)
  {
    if frames != [] { LastFramesKnown(frames[1..]); }
  }

  lemma {:induction false} ConsDistinct(e: Entry, cache: seq<Entry>)
    requires DistinctIds(cache) && forall x :: x in cache ==> x.id != e.id
    ensures DistinctIds([e] + cache)
  {
  }

  lemma {:induction false} LastFramesFacts(frames: seq<Payload>)
    ensures DistinctIds(LastFrames(frames)) && |LastFrames(frames)| == |Ids(frames)|
  {
    if frames != [] {
      LastFramesFacts(frames[1..]);
      LastFramesKnown(frames[1..]);
      if IdOf(frames[0]) in Ids(frames[1..]) {
        assert LastFrames(frames) == LastFrames(frames[1..]);
        assert Ids(frames) == Ids(frames[1..]);
      } else {
        ConsDistinct(EntryOf(frames[0]), LastFrames(frames[1..]));
      }
    }
  }

  lemma {:induction false} WithoutAbsent(cache: seq<Entry>, id: Value)
    requires forall i :: 0 <= i < |cache| ==> cache[i].id != id
    ensures Without(cache, id) == cache
  {
    if cache != [] { WithoutAbsent(cache[1..], id); }
  }

  lemma {:induction false} TailDistinct(cache: seq<Entry>, k: nat)
    requires DistinctIds(cache) && k <= |cache|
    ensures DistinctIds(cache[k..])
  {
  }

  lemma {:induction false} WithoutPresent(cache: seq<Entry>, k: nat)
    requires DistinctIds(cache) && k < |cache|
    ensures |Without(cache, cache[k].id)| == |cache| - 1
  {
    TailDistinct(cache, 1);
    if k == 0 {
      WithoutAbsent(cache[1..], cache[0].id);
    } else {
      WithoutPresent(cache[1..], k - 1);
    }
  }

  lemma {:induction false} WithoutShrinks(cache: seq<Entry>, id: Value)
    requires DistinctIds(cache)
    ensures Without(cache, id) == cache || |Without(cache, id)| == |cache| - 1
  {
    if k :| 0 <= k < |cache| && cache[k].id == id { WithoutPresent(cache, k); } else { WithoutAbsent(cache, id); }
  }

  // Forgetting the oldest entries first does not change what touching an entry leaves behind.
  lemma {:induction false} TouchNewest(all: seq<Entry>, p: Payload, cap: nat)
    requires DistinctIds(all) && cap > 0
    ensures Touch(Newest(all, cap), p, cap) == Touch(all, p, cap)
  {
    if |all| > cap {
      var d := |all| - cap;
      var id, e := IdOf(p), [EntryOf(p)];
      assert all == all[..d] + all[d..];
      WithoutConcat(all[..d], all[d..], id);
      TailDistinct(all, d);
      WithoutShrinks(all[d..], id);
      NewestOfConcat(Without(all[..d], id), Without(all[d..], id) + e, cap);
      assert Without(all[..d], id) + Without(all[d..], id) + e == Without(all[..d], id) + (Without(all[d..], id) + e);
    }
  }

  lemma {:induction false} CacheOneMore(front: seq<Payload>, p: Payload, cap: nat)
    requires cap > 0
    ensures Touch(Newest(LastFrames(front), cap), p, cap) == Newest(LastFrames(front + [p]), cap)
  {
    LastFramesFacts(front);
    TouchNewest(LastFrames(front), p, cap);
    LastFramesAppend(front, p);
  }

  lemma {:induction false} CacheIsNewest(frames: seq<Payload>, cap: nat)
    requires cap > 0
    ensures CacheAfter(frames, cap) == Newest(LastFrames(frames), cap)
  {
    if frames != [] {
      var n := |frames| - 1;
      CacheIsNewest(frames[..n], cap);
      CacheOneMore(frames[..n], frames[n], cap);
      assert frames == frames[..n] + [frames[n]];
    }
  }

  /** After any frames, the filter holds exactly the last frames of the `cap` most recently published
    * orders, in the order of their last frames.
    */
  lemma {:induction false} CacheHoldsTheMostRecent(frames: seq<Payload>, cap: nat)
    requires cap > 0
    ensures CacheAfter(frames, cap) == Newest(LastFrames(frames), cap)
    ensures |CacheAfter(frames, cap)| == if |Ids(frames)| < cap then |Ids(frames)| else cap
  {
    CacheIsNewest(frames, cap);
    LastFramesFacts(frames);
  }

  // The last frame of an order sits as far from the end as orders were published after it.
  lemma {:induction false} PlaceOfPrevious(frames: seq<Payload>, j: nat, p: Payload)
    requires IsLastOfId(frames, j, p)
    ensures var later := LastFrames(frames[j + 1..]);
            var all := LastFrames(frames);
            |all| > |later| && all[|all| - |later| - 1] == EntryOf(frames[j])
  {
    if j > 0 {
      assert frames[1..][j..] == frames[j + 1..];
      PlaceOfPrevious(frames[1..], j - 1, p);
    }
  }

  lemma {:induction false} GetAt(cache: seq<Entry>, k: nat)
    requires DistinctIds(cache) && k < |cache|
    ensures Get(cache, cache[k].id) == Some(cache[k].key)
  {
    if k > 0 { GetAt(cache[1..], k - 1); }
  }

  lemma {:induction false} GetFinds(cache: seq<Entry>, id: Value)
    requires Get(cache, id).Some?
    ensures exists k :: 0 <= k < |cache| && cache[k].id == id
  {
    if cache[0].id != id {
      GetFinds(cache[1..], id);
      var k :| 0 <= k < |cache[1..]| && cache[1..][k].id == id;
      assert cache[k + 1].id == id;
    }
  }

  lemma {:induction false} PreviousExists(frames: seq<Payload>, p: Payload)
    requires IdOf(p) in Ids(frames)
    ensures exists j: nat :: IsLastOfId(frames, j, p)
  {
    if IdOf(p) in Ids(frames[1..]) {
      PreviousExists(frames[1..], p);
      var j: nat :| IsLastOfId(frames[1..], j, p);
      assert frames[1..][j + 1..] == frames[j + 2..];
      assert IsLastOfId(frames, j + 1, p);
    } else {
      assert IsLastOfId(frames, 0, p);
    }
  }

  lemma {:induction false} NewestGets(all: seq<Entry>, k: nat, cap: nat)
    requires DistinctIds(all) && k < |all|
    ensures Get(Newest(all, cap), all[k].id) == if |all| - k <= cap then Some(all[k].key) else None
  {
    var cache := Newest(all, cap);
    var d := |all| - |cache|;
    TailDistinct(all, d);
    assert cache == all[d..];
    if k >= d {
      assert cache[k - d] == all[k];
      GetAt(cache, k - d);
    } else if Get(cache, all[k].id).Some? {
      GetFinds(cache, all[k].id);
    }
  }

  lemma {:induction false} SuppressedBecause(frames: seq<Payload>, j: nat, p: Payload, cap: nat)
    requires cap > 0 && IsLastOfId(frames, j, p)
    ensures IsDuplicate(CacheAfter(frames, cap), p) <==>
            KeyOf(frames[j]) == KeyOf(p) && |Ids(frames[j + 1..])| < cap
  {
    CacheHoldsTheMostRecent(frames, cap);
    LastFramesFacts(frames);
    LastFramesFacts(frames[j + 1..]);
    PlaceOfPrevious(frames, j, p);
    NewestGets(LastFrames(frames), |LastFrames(frames)| - |Ids(frames[j + 1..])| - 1, cap);
  }

  lemma {:induction false} SuppressedById(frames: seq<Payload>, p: Payload, cap: nat)
    requires cap > 0
    ensures IsDuplicate(CacheAfter(frames, cap), p) <==>
            exists j: nat :: IsLastOfId(frames, j, p) && KeyOf(frames[j]) == KeyOf(p) && |Ids(frames[j + 1..])| < cap
  {
    if j: nat :| IsLastOfId(frames, j, p) {
      SuppressedBecause(frames, j, p, cap);
      forall i: nat | IsLastOfId(frames, i, p) && i != j
        ensures false
      {
        PreviousIsUnique(frames, i, j, p);
      }
    } else {
      if IdOf(p) in Ids(frames) { PreviousExists(frames, p); }
      var cache := CacheAfter(frames, cap);
      CacheHoldsTheMostRecent(frames, cap);
      LastFramesKnown(frames);
      if Get(cache, IdOf(p)).Some? { GetFinds(cache, IdOf(p)); }
    }
  }

  // Why a frame is suppressed, told from the fields of the frames.
  ghost predicate OldNews(frames: seq<Payload>, p: Payload, cap: nat) {
    exists j: nat :: IsPrevious(frames, j, p) && SaysTheSame(frames[j], p) && |Ids(frames[j + 1..])| < cap
  }

  /** A frame is suppressed exactly when the previous frame of its order said the same (time stamp
    * aside) and fewer than `cap` other orders were published since.
    */
  lemma {:induction false} SuppressedExactlyWhen(frames: seq<Payload>, p: Payload, cap: nat)
    requires cap > 0
    ensures IsDuplicate(CacheAfter(frames, cap), p) <==> OldNews(frames, p, cap)
  {
    SuppressedById(frames, p, cap);
    forall j: nat
      ensures IsPrevious(frames, j, p) <==> IsLastOfId(frames, j, p)
      ensures j < |frames| ==> (KeyOf(frames[j]) == KeyOf(p) <==> SaysTheSame(frames[j], p))
    {
      PreviousByFields(frames, j, p);
      if j < |frames| { KeysTellFields(frames[j], p); }
    }
  }

  lemma {:induction false} IdsContain(frames: seq<Payload>, k: nat)
    requires k < |frames|
    ensures IdOf(frames[k]) in Ids(frames)
  {
    if k > 0 { IdsContain(frames[1..], k - 1); }
  }

  lemma {:induction false} PreviousIsUnique(frames: seq<Payload>, i: nat, j: nat, p: Payload)
    requires IsLastOfId(frames, i, p) && IsLastOfId(frames, j, p)
    ensures i == j
  {
    if i < j { IdsContain(frames[i + 1..], j - i - 1); }
    if j < i { IdsContain(frames[j + 1..], i - j - 1); }
  }

  /** As long as fewer than `cap` orders are in play, the bounded filter decides like one that forgets
    * nothing: `LastFrames` is that unbounded memory.
    */
  lemma {:induction false} LikeAnUnboundedMemory(frames: seq<Payload>, p: Payload, cap: nat)
    requires cap > 0 && |Ids(frames)| <= cap
    ensures IsDuplicate(CacheAfter(frames, cap), p) <==> Get(LastFrames(frames), IdOf(p)) == Some(KeyOf(p))
  {
    CacheHoldsTheMostRecent(frames, cap);
    LastFramesFacts(frames);
  }
}
