/** The header index: a tree of block headers, ancestor walks and median-time-past. */
module Headers {
  import opened Options
  import opened Sorting

  /** A 32-byte hash, read as a number. */
  type Hash = nat

  datatype Header = Header(hash: Hash, prev: Hash, height: nat, version: bv32, time: nat)

  type Index = map<Hash, Header>

  /** The header filed under `h` carries that hash and, above height 0, has its parent one height below. */
  ghost predicate Linked(idx: Index, h: Hash)
    requires h in idx
  {
    && idx[h].hash == h
    && if idx[h].height == 0 then idx[h].prev !in idx
       else idx[h].prev in idx && idx[idx[h].prev].height == idx[h].height - 1
  }

  /** The index is closed under parents. */
  ghost predicate Closed(idx: Index)
  {
    forall h {:trigger Linked(idx, h)} :: h in idx ==> Linked(idx, h)
  }

  /** `b` is a header of the index. */
  predicate Filed(idx: Index, b: Header)
  {
    b.hash in idx && idx[b.hash] == b
  }

  /** The index after more headers have arrived; what was filed stays. */
  ghost predicate Extends(idx: Index, idx': Index)
  {
    forall h :: h in idx ==> h in idx' && idx'[h] == idx[h]
  }

  // ----- Ancestors

  function AncestorOf(idx: Index, cur: Header, target: nat): (r: Option<Header>)
    ensures r.Some? && cur.height >= target ==> r.value.height <= target
    decreases cur.height
  {
    if cur.height <= target then Some(cur)
    else if cur.prev in idx && idx[cur.prev].height < cur.height then AncestorOf(idx, idx[cur.prev], target)
    else None
  }

  function Ancestor(idx: Index, from: Hash, target: nat): Option<Header>
  {
    if from !in idx || idx[from].height < target then None else AncestorOf(idx, idx[from], target)
  }

  /** Walk the parent links down to `target`; a missing header on the way gives nothing. */
  method GetAncestor(idx: Index, from: Hash, target: nat) returns (r: Option<Header>)
    ensures r == Ancestor(idx, from, target)
  {
    if from !in idx {
      return None;
    }
    var current := idx[from];
    if current.height < target {
      return None;
    }
    while current.height > target
      invariant AncestorOf(idx, current, target) == AncestorOf(idx, idx[from], target)
      decreases current.height
    {
      if current.prev in idx && idx[current.prev].height < current.height {
        current := idx[current.prev];
      } else {
        return None;
      }
    }
    return Some(current);
  }

  /** In a closed index the walk always arrives, at the right height. */
  lemma {:induction false} AncestorExists(idx: Index, cur: Header, target: nat)
    requires Closed(idx) && Filed(idx, cur) && target <= cur.height
    ensures AncestorOf(idx, cur, target).Some?
    ensures var a := AncestorOf(idx, cur, target).value;
            Filed(idx, a) && a.height == target
    decreases cur.height
  {
    assert Linked(idx, cur.hash);
    if cur.height > target {
      assert Linked(idx, cur.prev);
      AncestorExists(idx, idx[cur.prev], target);
    }
  }

  /** Walking in two legs is walking at once. */
  lemma {:induction false} AncestorTransitive(idx: Index, cur: Header, mid: nat, target: nat)
    requires Closed(idx) && Filed(idx, cur) && target <= mid <= cur.height
    ensures AncestorOf(idx, cur, mid).Some?
    ensures AncestorOf(idx, AncestorOf(idx, cur, mid).value, target) == AncestorOf(idx, cur, target)
    decreases cur.height
  {
    assert Linked(idx, cur.hash);
    if cur.height > mid {
      assert Linked(idx, cur.prev);
      AncestorTransitive(idx, idx[cur.prev], mid, target);
    }
  }

  lemma {:induction false} AncestorStable(idx: Index, idx': Index, cur: Header, target: nat)
    requires Closed(idx) && Extends(idx, idx') && Filed(idx, cur) && target <= cur.height
    ensures AncestorOf(idx', cur, target) == AncestorOf(idx, cur, target)
    decreases cur.height
  {
    assert Linked(idx, cur.hash);
    if cur.height > target {
      assert Linked(idx, cur.prev);
      AncestorStable(idx, idx', idx[cur.prev], target);
    }
  }

  // ----- Median-time-past

  const MEDIAN_SPAN: nat := 11

  /** Times of up to `k` blocks, newest first. */
  function Window(idx: Index, tip: Hash, k: nat): (w: seq<nat>)
    ensures |w| <= k
    decreases k, tip
  {
    if k == 0 || tip !in idx then [] else [idx[tip].time] + Window(idx, idx[tip].prev, k - 1)
  }

  function MedianTimePast(idx: Index, tip: Hash): Option<nat>
  {
    var w := Window(idx, tip, MEDIAN_SPAN);
    if |w| == 0 then None else Some(Median(w))
  }

  method CollectTimes(idx: Index, tip: Hash, span: nat) returns (times: seq<nat>)
    ensures times == Window(idx, tip, span)
  {
    times := [];
    var current := tip;
    var i := 0;
    while i < span
      invariant 0 <= i <= span
      invariant times + Window(idx, current, span - i) == Window(idx, tip, span)
    {
      if current !in idx {
        break;
      }
      times := times + [idx[current].time];
      current := idx[current].prev;
      i := i + 1;
    }
  }

  method GetMedianTimePast(idx: Index, tip: Hash) returns (r: Option<nat>)
    ensures r == MedianTimePast(idx, tip)
  {
    var times := CollectTimes(idx, tip, MEDIAN_SPAN);
    if |times| == 0 {
      return None;
    }
    times := Sort(times);
    return Some(times[|times| / 2]);
  }

  /** Median-time-past of a block that is in the index. */
  function Mtp(idx: Index, h: Hash): nat
    requires h in idx
  {
    Median(Window(idx, h, MEDIAN_SPAN))
  }

  /** The block filed under `h` is later than its parent's median-time-past. */
  ghost predicate LaterThanParent(idx: Index, h: Hash)
    requires h in idx && idx[h].prev in idx
  {
    idx[h].time > Mtp(idx, idx[h].prev)
  }

  /** On the way down from `cur` every block is later than its parent's median-time-past. */
  ghost predicate BranchAdvances(idx: Index, cur: Header)
    decreases cur.height
  {
    cur.hash in idx && cur.prev in idx && idx[cur.hash].prev == cur.prev && idx[cur.prev].height < cur.height ==>
      LaterThanParent(idx, cur.hash) && BranchAdvances(idx, idx[cur.prev])
  }

  /** A longer window keeps the shorter one and adds at most one older block. */
  lemma {:induction false} WindowGrows(idx: Index, tip: Hash, k: nat)
    ensures var a, b := Window(idx, tip, k), Window(idx, tip, k + 1);
            if |a| < k then b == a else |b| == k || (|b| == k + 1 && b[..k] == a)
    ensures |Window(idx, tip, k + 1)| == k ==> Window(idx, tip, k + 1) == Window(idx, tip, k)
    decreases k
  {
    if k > 0 && tip in idx {
      WindowGrows(idx, idx[tip].prev, k - 1);
    }
  }

  /** Replacing the oldest time of a full window, or growing a short one, by a time above the median
      does not lower the median. */
  lemma {:induction false} MedianAdvances(older: seq<nat>, kept: seq<nat>, x: nat, k: nat)
    requires |older| > 0 && x > Median(older) && |kept| <= k
    requires older == kept || (|older| == k + 1 && |kept| == k && k % 2 == 0 && older[..k] == kept)
    ensures Median([x] + kept) >= Median(older)
  {
    var v := Median(older);
    MedianReaches(older, v);
    MedianReaches([x] + kept, v);
    assert ([x] + kept)[1..] == kept;
    if older != kept {
      assert older == kept + [older[k]];
      CountSnoc(kept, older[k], v);
    }
  }

  /** From a parent to its child median-time-past never decreases. */
  lemma {:induction false} MtpStep(idx: Index, h: Hash)
    requires h in idx && idx[h].prev in idx && LaterThanParent(idx, h)
    ensures Mtp(idx, h) >= Mtp(idx, idx[h].prev)
  {
    var parent := idx[h].prev;
    var older, kept := Window(idx, parent, MEDIAN_SPAN), Window(idx, parent, MEDIAN_SPAN - 1);
    WindowGrows(idx, parent, MEDIAN_SPAN - 1);
    MedianAdvances(older, kept, idx[h].time, MEDIAN_SPAN - 1);
    assert Window(idx, h, MEDIAN_SPAN) == [idx[h].time] + kept;
  }

  /** Along a branch whose blocks keep the time rule median-time-past never decreases. */
  lemma {:induction false} MtpMonotone(idx: Index, cur: Header, target: nat)
    requires Closed(idx) && BranchAdvances(idx, cur) && Filed(idx, cur) && target <= cur.height
    ensures AncestorOf(idx, cur, target).Some? && AncestorOf(idx, cur, target).value.hash in idx
    ensures Mtp(idx, AncestorOf(idx, cur, target).value.hash) <= Mtp(idx, cur.hash)
    decreases cur.height
  {
    assert Linked(idx, cur.hash);
    if cur.height > target {
      assert Linked(idx, cur.prev);
      MtpMonotone(idx, idx[cur.prev], target);
      MtpStep(idx, cur.hash);
    }
  }

  lemma {:induction false} AncestorAdvances(idx: Index, cur: Header, target: nat)
    requires Closed(idx) && BranchAdvances(idx, cur) && Filed(idx, cur) && target <= cur.height
    ensures AncestorOf(idx, cur, target).Some? && BranchAdvances(idx, AncestorOf(idx, cur, target).value)
    decreases cur.height
  {
    assert Linked(idx, cur.hash);
    if cur.height > target {
      assert Linked(idx, cur.prev);
      AncestorAdvances(idx, idx[cur.prev], target);
    }
  }

  lemma {:induction false} WindowStable(idx: Index, idx': Index, tip: Hash, k: nat)
    requires Closed(idx) && Closed(idx') && Extends(idx, idx') && tip in idx
    ensures Window(idx', tip, k) == Window(idx, tip, k)
    decreases k
  {
    assert Linked(idx, tip) && Linked(idx', tip);
    if k > 0 && idx[tip].height > 0 {
      WindowStable(idx, idx', idx[tip].prev, k - 1);
    }
  }

  /** Headers that arrive later do not change the median-time-past of a filed block. */
  lemma {:induction false} MtpStable(idx: Index, idx': Index, h: Hash)
    requires Closed(idx) && Closed(idx') && Extends(idx, idx') && h in idx
    ensures Mtp(idx', h) == Mtp(idx, h)
  {
    WindowStable(idx, idx', h, MEDIAN_SPAN);
  }
}
