/** Sorting of numbers, as the library sort the node relies on. */
module Sorting {

  ghost predicate Ordered(s: seq<nat>)
  {
    forall i, j :: 0 <= i <= j < |s| ==> s[i] <= s[j]
  }

  function Insert(x: nat, s: seq<nat>): (r: seq<nat>)
    ensures |r| == |s| + 1
  {
    if |s| == 0 then [x]
    else if x <= s[0] then [x] + s
    else [s[0]] + Insert(x, s[1..])
  }

  /** The ascending rearrangement of `s`. */
  function Sort(s: seq<nat>): (r: seq<nat>)
    ensures |r| == |s|
  {
    if |s| == 0 then [] else Insert(s[0], Sort(s[1..]))
  }

  lemma {:induction false} InsertContents(x: nat, s: seq<nat>)
    ensures multiset(Insert(x, s)) == multiset{x} + multiset(s)
  {
    if |s| > 0 && x > s[0] {
      InsertContents(x, s[1..]);
      assert s == [s[0]] + s[1..];
    }
  }

  lemma {:induction false} InsertOrdered(x: nat, s: seq<nat>)
    requires Ordered(s)
    ensures Ordered(Insert(x, s))
  {
    if |s| > 0 && x > s[0] {
      var rest := Insert(x, s[1..]);
      InsertOrdered(x, s[1..]);
      InsertContents(x, s[1..]);
      forall i | 0 <= i < |rest|
        ensures s[0] <= rest[i]
      {
        assert rest[i] in multiset(rest);
      }
    }
  }

  /** Sorting gives an ascending list of the same elements. */
  lemma {:induction false} SortSorts(s: seq<nat>)
    ensures Ordered(Sort(s)) && multiset(Sort(s)) == multiset(s)
  {
    if |s| > 0 {
      SortSorts(s[1..]);
      InsertOrdered(s[0], Sort(s[1..]));
      InsertContents(s[0], Sort(s[1..]));
      assert s == [s[0]] + s[1..];
    }
  }

  lemma {:induction false} SortedAlready(s: seq<nat>)
    requires Ordered(s)
    ensures Sort(s) == s
  {
    if |s| > 0 {
      SortedAlready(s[1..]);
      assert s == [s[0]] + s[1..];
    }
  }

  function CountGe(s: seq<nat>, v: nat): nat
  {
    if |s| == 0 then 0 else (if s[0] >= v then 1 else 0) + CountGe(s[1..], v)
  }

  lemma {:induction false} CountInsert(x: nat, s: seq<nat>, v: nat)
    ensures CountGe(Insert(x, s), v) == CountGe([x] + s, v)
  {
    assert ([x] + s)[1..] == s;
    if |s| > 0 && x > s[0] {
      CountInsert(x, s[1..], v);
      assert ([x] + s[1..])[1..] == s[1..];
      assert Insert(x, s)[1..] == Insert(x, s[1..]);
    }
  }

  lemma {:induction false} CountSort(s: seq<nat>, v: nat)
    ensures CountGe(Sort(s), v) == CountGe(s, v)
  {
    if |s| > 0 {
      CountSort(s[1..], v);
      CountInsert(s[0], Sort(s[1..]), v);
      assert ([s[0]] + Sort(s[1..]))[1..] == Sort(s[1..]);
    }
  }

  /** In an ascending list, position `k` reaches `v` exactly when enough elements do. */
  lemma {:induction false} RankOrdered(s: seq<nat>, k: nat, v: nat)
    requires Ordered(s) && k < |s|
    ensures s[k] >= v <==> CountGe(s, v) >= |s| - k
  {
    CountBound(s[1..], v);
    if s[0] >= v {
      AllGe(s, v);
    } else if k > 0 {
      RankOrdered(s[1..], k - 1, v);
    }
  }

  lemma {:induction false} CountBound(s: seq<nat>, v: nat)
    ensures CountGe(s, v) <= |s|
  {
    if |s| > 0 {
      CountBound(s[1..], v);
    }
  }

  lemma {:induction false} AllGe(s: seq<nat>, v: nat)
    requires forall i :: 0 <= i < |s| ==> s[i] >= v
    ensures CountGe(s, v) == |s|
  {
    if |s| > 0 {
      AllGe(s[1..], v);
    }
  }

  lemma {:induction false} CountSnoc(s: seq<nat>, x: nat, v: nat)
    ensures CountGe(s + [x], v) == CountGe(s, v) + (if x >= v then 1 else 0)
  {
    if |s| == 0 {
      assert s + [x] == [x];
    } else {
      CountSnoc(s[1..], x, v);
      assert (s + [x])[1..] == s[1..] + [x];
    }
  }

  /** The element in the middle, rounding up, of the ascending order. */
  function Median(s: seq<nat>): nat
    requires |s| > 0
  {
    Sort(s)[|s| / 2]
  }

  lemma {:induction false} MedianReaches(s: seq<nat>, v: nat)
    requires |s| > 0
    ensures Median(s) >= v <==> CountGe(s, v) >= |s| - |s| / 2
  {
    SortSorts(s);
    RankOrdered(Sort(s), |s| / 2, v);
    CountSort(s, v);
  }
}
