/** Merkle trees over an arbitrary pair hash: the level-by-level construction, the streaming
    construction that reports mutated trees, and proof branches. */
module Merkle {
  import opened Options
  import opened Powers

  // ----- The tree, level by level

  /** The level above `s`: neighbours are paired, an odd last node is paired with itself. */
  function Next<H>(f: (H, H) -> H, s: seq<H>): (t: seq<H>)
    ensures |t| == (|s| + 1) / 2
  {
    if |s| == 0 then []
    else if |s| == 1 then [f(s[0], s[0])]
    else [f(s[0], s[1])] + Next(f, s[2..])
  }

  lemma {:induction false} NextPair<H>(f: (H, H) -> H, s: seq<H>, i: nat)
    requires 2 * i + 1 < |s|
    ensures Next(f, s)[i] == f(s[2 * i], s[2 * i + 1])
  {
    if i > 0 {
      NextPair(f, s[2..], i - 1);
    }
  }

  lemma {:induction false} NextLast<H>(f: (H, H) -> H, s: seq<H>, i: nat)
    requires 2 * i + 1 == |s|
    ensures Next(f, s)[i] == f(s[2 * i], s[2 * i])
  {
    if i > 0 {
      NextLast(f, s[2..], i - 1);
    }
  }

  /** The right child of node `i`: its neighbour, or the node itself at an odd end. */
  function Right<H>(s: seq<H>, i: nat): H
    requires 2 * i < |s|
  {
    if 2 * i + 1 < |s| then s[2 * i + 1] else s[2 * i]
  }

  lemma {:induction false} NextAt<H>(f: (H, H) -> H, s: seq<H>, i: nat)
    requires 2 * i < |s|
    ensures Next(f, s)[i] == f(s[2 * i], Right(s, i))
  {
    if 2 * i + 1 < |s| {
      NextPair(f, s, i);
    } else {
      NextLast(f, s, i);
    }
  }

  function Root<H>(f: (H, H) -> H, s: seq<H>): H
    requires |s| > 0
    decreases |s|
  {
    if |s| == 1 then s[0] else Root(f, Next(f, s))
  }

  /** The `k`-th level above the leaves. */
  function Level<H>(f: (H, H) -> H, s: seq<H>, k: nat): (t: seq<H>)
    ensures |s| > 0 ==> |t| > 0
  {
    if k == 0 then s else Next(f, Level(f, s, k - 1))
  }

  function Depth<H>(f: (H, H) -> H, s: seq<H>): nat
    requires |s| > 0
    decreases |s|
  {
    if |s| == 1 then 0 else 1 + Depth(f, Next(f, s))
  }

  /** Two siblings of level `l`, both present in that level, are equal. */
  ghost predicate EqualPair<H>(f: (H, H) -> H, s: seq<H>, l: nat, i: nat)
  {
    && 2 * i + 1 < |Level(f, s, l)|
    && Level(f, s, l)[2 * i] == Level(f, s, l)[2 * i + 1]
  }

  /** Some level holds two equal real siblings. */
  ghost predicate Mutated<H(!new)>(f: (H, H) -> H, s: seq<H>)
  {
    exists l: nat, i: nat :: EqualPair(f, s, l, i)
  }

  ghost predicate Injective<H(!new)>(f: (H, H) -> H)
  {
    forall a, b, c, d :: f(a, b) == f(c, d) ==> a == c && b == d
  }

  lemma {:induction false} LevelOfNext<H>(f: (H, H) -> H, s: seq<H>, k: nat)
    ensures Level(f, Next(f, s), k) == Level(f, s, k + 1)
  {
    if k > 0 {
      LevelOfNext(f, s, k - 1);
    }
  }

  // ----- Uniqueness of the committed list

  /** Among unflagged lists of one depth, an injective pair hash makes the root determine the list. */
  lemma {:induction false} RootDeterminesLeaves<H(!new)>(f: (H, H) -> H, s: seq<H>, t: seq<H>)
    requires |s| > 0 && |t| > 0 && Injective(f)
    requires Depth(f, s) == Depth(f, t) && Root(f, s) == Root(f, t)
    requires !Mutated(f, s) && !Mutated(f, t)
    ensures s == t
    decreases |s|
  {
    if |s| == 1 {
      assert |t| == 1;
    } else {
      UnflaggedAbove(f, s);
      UnflaggedAbove(f, t);
      RootDeterminesLeaves(f, Next(f, s), Next(f, t));
      SamePairs(f, s, t);
    }
  }

  lemma {:induction false} UnflaggedAbove<H(!new)>(f: (H, H) -> H, s: seq<H>)
    requires !Mutated(f, s)
    ensures !Mutated(f, Next(f, s))
  {
    forall l: nat, i: nat
      ensures !EqualPair(f, Next(f, s), l, i)
    {
      LevelOfNext(f, s, l);
      assert !EqualPair(f, s, l + 1, i);
    }
  }

  /** Lists with the same next level agree on every pair, and on the length unless one is flagged. */
  lemma {:induction false} SamePairs<H(!new)>(f: (H, H) -> H, s: seq<H>, t: seq<H>)
    requires Injective(f) && Next(f, s) == Next(f, t)
    requires !Mutated(f, s) && !Mutated(f, t)
    ensures s == t
  {
    var n := |Next(f, s)|;
    forall i | 0 <= i < n
      ensures s[2 * i] == t[2 * i] && Right(s, i) == Right(t, i)
    {
      NextAt(f, s, i);
      NextAt(f, t, i);
    }
    if n > 0 {
      assert !EqualPair(f, s, 0, n - 1);
      assert !EqualPair(f, t, 0, n - 1);
      assert |s| == |t|;
    }
    forall k | 0 <= k < |s|
      ensures s[k] == t[k]
    {
      var i := k / 2;
      assert k == 2 * i || (k == 2 * i + 1 && s[k] == Right(s, i) && t[k] == Right(t, i));
    }
  }

  // ----- The ambiguity the flag is there for

  /** `n` is an odd multiple, other than one, of `2^k`. */
  predicate OddBlocks(n: nat, k: nat)
  {
    if k == 0 then n % 2 == 1 && n > 1 else n % 2 == 0 && OddBlocks(n / 2, k - 1)
  }

  lemma {:induction false} BlockFits(n: nat, k: nat)
    requires OddBlocks(n, k)
    ensures Pow2(k) <= n
  {
    if k > 0 {
      BlockFits(n / 2, k - 1);
    }
  }

  /** `s` with its last complete block of `2^k` leaves repeated. */
  function Repeated<H>(s: seq<H>, k: nat): (t: seq<H>)
    requires Pow2(k) <= |s|
  {
    s + s[|s| - Pow2(k)..]
  }

  /** Repeating the odd last block of any level leaves depth and root alone and is always flagged. */
  lemma {:induction false} RepetitionIsFlagged<H(!new)>(f: (H, H) -> H, s: seq<H>, k: nat)
    requires OddBlocks(|s|, k)
    ensures Pow2(k) <= |s| && |Repeated(s, k)| > |s|
    ensures Root(f, Repeated(s, k)) == Root(f, s)
    ensures Depth(f, Repeated(s, k)) == Depth(f, s)
    ensures Mutated(f, Repeated(s, k))
    decreases k
  {
    BlockFits(|s|, k);
    var t := Repeated(s, k);
    if k == 0 {
      LastLeafRepeated(f, s);
    } else {
      var s' := Next(f, s);
      RepetitionIsFlagged(f, s', k - 1);
      NextOfRepeated(f, s, k);
      FlaggedAbove(f, t);
    }
  }

  lemma {:induction false} LastLeafRepeated<H(!new)>(f: (H, H) -> H, s: seq<H>)
    requires |s| % 2 == 1
    ensures Next(f, Repeated(s, 0)) == Next(f, s)
    ensures Mutated(f, Repeated(s, 0))
  {
    var t := Repeated(s, 0);
    assert t[|s|] == s[|s| - 1];
    forall i | 0 <= i < (|s| + 1) / 2
      ensures Next(f, t)[i] == Next(f, s)[i]
    {
      NextAt(f, s, i);
      NextAt(f, t, i);
    }
    assert EqualPair(f, t, 0, (|s| - 1) / 2);
  }

  lemma {:induction false} FlaggedAbove<H(!new)>(f: (H, H) -> H, t: seq<H>)
    requires Mutated(f, Next(f, t))
    ensures Mutated(f, t)
  {
    var l: nat, i: nat :| EqualPair(f, Next(f, t), l, i);
    LevelOfNext(f, t, l);
    assert EqualPair(f, t, l + 1, i);
  }

  lemma {:induction false} NextOfRepeated<H>(f: (H, H) -> H, s: seq<H>, k: nat)
    requires k > 0 && |s| % 2 == 0 && |s| >= Pow2(k)
    ensures Pow2(k - 1) <= |Next(f, s)|
    ensures Next(f, Repeated(s, k)) == Repeated(Next(f, s), k - 1)
  {
    var t := Repeated(s, k);
    var b := Pow2(k - 1);
    assert |t| == |s| + 2 * b;
    forall i | 0 <= i < |t| / 2
      ensures Next(f, t)[i] == Repeated(Next(f, s), k - 1)[i]
    {
      NextPair(f, t, i);
      var j := if i < |s| / 2 then i else i - b;
      NextPair(f, s, j);
      assert t[2 * i] == s[2 * j] && t[2 * i + 1] == s[2 * j + 1];
    }
  }

  // ----- The plain construction

  method PairUp<H>(f: (H, H) -> H, level: seq<H>) returns (next: seq<H>)
    ensures next == Next(f, level)
  {
    var padded := level;
    if |padded| % 2 != 0 {
      padded := padded + [padded[|padded| - 1]];
    }
    next := [];
    var i := 0;
    while i < |padded|
      invariant 0 <= i <= |padded| && i % 2 == 0
      invariant next == Next(f, level)[..i / 2]
    {
      NextAt(f, level, i / 2);
      next := next + [f(padded[i], padded[i + 1])];
      i := i + 2;
    }
  }

  /** The plain root; an empty list gives the all-zero node. */
  method ComputeRoot<H>(f: (H, H) -> H, zero: H, leaves: seq<H>) returns (r: H)
    ensures r == if |leaves| == 0 then zero else Root(f, leaves)
  {
    if |leaves| == 0 {
      return zero;
    }
    var level := leaves;
    while |level| > 1
      invariant |level| > 0 && Root(f, level) == Root(f, leaves)
    {
      level := PairUp(f, level);
    }
    r := level[0];
  }

  // ----- Branches

  /** Hash a leaf upwards along its siblings, as a proof verifier does. */
  function Fold<H>(f: (H, H) -> H, h: H, index: nat, siblings: seq<H>): H
    decreases |siblings|
  {
    if |siblings| == 0 then h
    else Fold(f, if index % 2 == 0 then f(h, siblings[0]) else f(siblings[0], h), index / 2, siblings[1..])
  }

  /** Folding one step at the end of a branch. */
  lemma {:induction false} FoldSnoc<H>(f: (H, H) -> H, h: H, index: nat, path: seq<H>, last: H)
    ensures Fold(f, h, index, path + [last]) ==
            var top := Fold(f, h, index, path);
            if Shr(index, |path|) % 2 == 0 then f(top, last) else f(last, top)
    decreases |path|
  {
    if |path| > 0 {
      var h' := if index % 2 == 0 then f(h, path[0]) else f(path[0], h);
      FoldSnoc(f, h', index / 2, path[1..], last);
      assert (path + [last])[1..] == path[1..] + [last];
      ShrHalf(index, |path| - 1);
    }
  }

  lemma {:induction false} ShrHalf(c: nat, l: nat)
    ensures Shr(c / 2, l) == Shr(c, l + 1)
  {
    if l > 0 {
      ShrHalf(c, l - 1);
    }
  }

  /** The level extended so that its last node has a sibling. */
  function Padded<H>(level: seq<H>): (p: seq<H>)
    requires |level| > 0
  {
    if |level| % 2 != 0 then level + [level[|level| - 1]] else level
  }

  function Sibling(idx: nat): nat
  {
    if idx % 2 == 0 then idx + 1 else idx - 1
  }

  /** What the branch of leaf `index` has established when `level` is reached. */
  ghost predicate BranchSoFar<H>(f: (H, H) -> H, leaves: seq<H>, index: nat, level: seq<H>, branch: seq<H>)
    requires |leaves| > 0
  {
    && |level| > 0 && Root(f, level) == Root(f, leaves)
    && |branch| + Depth(f, level) == Depth(f, leaves)
    && (index < |leaves| ==>
          Shr(index, |branch|) < |level| && Fold(f, leaves[index], index, branch) == level[Shr(index, |branch|)])
  }

  lemma {:induction false} BranchStep<H>(f: (H, H) -> H, leaves: seq<H>, index: nat, level: seq<H>, branch: seq<H>)
    requires |leaves| > 0 && index < |leaves| && |level| > 1
    requires BranchSoFar(f, leaves, index, level, branch)
    ensures Sibling(Shr(index, |branch|)) < |Padded(level)|
    ensures BranchSoFar(f, leaves, index, Next(f, level), branch + [Padded(level)[Sibling(Shr(index, |branch|))]])
  {
    var idx := Shr(index, |branch|);
    var sibling := SiblingHash(f, level, idx);
    FoldSnoc(f, leaves[index], index, branch, sibling);
    assert |branch + [sibling]| == |branch| + 1;
  }

  /** A node one level up is the hash of the node below and its padded sibling. */
  lemma {:induction false} SiblingHash<H>(f: (H, H) -> H, level: seq<H>, idx: nat) returns (sibling: H)
    requires idx < |level|
    ensures Sibling(idx) < |Padded(level)| && sibling == Padded(level)[Sibling(idx)]
    ensures Next(f, level)[idx / 2] == if idx % 2 == 0 then f(level[idx], sibling) else f(sibling, level[idx])
  {
    sibling := Padded(level)[Sibling(idx)];
    NextAt(f, level, idx / 2);
  }

  /** The root and the sibling path of one leaf; folding the leaf along the path gives the root. */
  method Branch<H>(f: (H, H) -> H, zero: H, leaves: seq<H>, index: nat) returns (root: H, branch: seq<H>)
    requires |leaves| > 1 ==> index < |leaves|
    ensures |leaves| == 0 ==> root == zero && branch == []
    ensures |leaves| > 0 ==> root == Root(f, leaves) && |branch| == Depth(f, leaves)
    ensures index < |leaves| ==> Fold(f, leaves[index], index, branch) == root
  {
    if |leaves| == 0 {
      return zero, [];
    }
    branch := [];
    var level := leaves;
    var idx := index;
    while |level| > 1
      invariant idx == Shr(index, |branch|)
      invariant BranchSoFar(f, leaves, index, level, branch)
      invariant |level| > 1 ==> index < |leaves|
      decreases |level|
    {
      BranchStep(f, leaves, index, level, branch);
      branch := branch + [Padded(level)[Sibling(idx)]];
      level := PairUp(f, level);
      idx := idx / 2;
    }
    root := level[0];
  }

  /** A branch binds its leaf: equal folds of equally long paths have equal leaves and siblings. */
  lemma {:induction false} BranchBinds<H(!new)>(f: (H, H) -> H, x: H, y: H, index: nat, p: seq<H>, q: seq<H>)
    requires Injective(f) && |p| == |q|
    requires Fold(f, x, index, p) == Fold(f, y, index, q)
    ensures x == y && p == q
    decreases |p|
  {
    if |p| > 0 {
      var x' := if index % 2 == 0 then f(x, p[0]) else f(p[0], x);
      var y' := if index % 2 == 0 then f(y, q[0]) else f(q[0], y);
      BranchBinds(f, x', y', index / 2, p[1..], q[1..]);
      assert p == [p[0]] + p[1..] && q == [q[0]] + q[1..];
    }
  }

  // ----- The streaming construction

  lemma {:induction false} LevelLength<H>(f: (H, H) -> H, s: seq<H>, c: nat, k: nat)
    requires c <= |s|
    ensures Shr(c, k) <= |Level(f, s, k)|
  {
    if k > 0 {
      LevelLength(f, s, c, k - 1);
    }
  }

  lemma {:induction false} LevelBound<H>(f: (H, H) -> H, s: seq<H>, top: nat, k: nat)
    requires 0 < |s| <= Pow2(top) && k <= top
    ensures 1 <= |Level(f, s, k)| <= Pow2(top - k)
  {
    if k > 0 {
      LevelBound(f, s, top, k - 1);
    }
  }

  /** The counter `next` follows `count`, and the increment has carried through every level below `level`. */
  ghost predicate Carrying(count: nat, next: nat, level: nat)
  {
    && next == count + 1
    && Shr(next, level) == Shr(count, level) + 1
    && forall l: nat :: l < level ==> Shr(next, l) == Shr(count, l) + 1 && Shr(next, l) % 2 == 0
  }

  /** Above a level where the increment stopped carrying, both counters look the same. */
  lemma {:induction false} CarryStops(count: nat, next: nat, l: nat, j: nat)
    requires Shr(next, l) == Shr(count, l) + 1 && Shr(count, l) % 2 == 0
    requires l < j
    ensures Shr(next, j) == Shr(count, j)
    decreases j
  {
    if j > l + 1 {
      CarryStops(count, next, l, j - 1);
    }
  }

  /** The counter's set bits hold the roots of the complete subtrees read so far. */
  ghost predicate Filled<H>(f: (H, H) -> H, s: seq<H>, inner: seq<H>, count: nat)
  {
    && |inner| == 32
    && forall l: nat :: l < 32 && Bit(count, l) ==> Holds(f, s, l, Shr(count, l) - 1, inner[l])
  }

  /** Node `j` of level `l` is `h`. */
  ghost predicate Holds<H>(f: (H, H) -> H, s: seq<H>, l: nat, j: int, h: H)
  {
    0 <= j < |Level(f, s, l)| && Level(f, s, l)[j] == h
  }

  /** Pair `i` of level `l` lies inside the complete subtrees of the first `count` leaves. */
  predicate Inside(count: nat, l: nat, i: nat)
  {
    2 * i + 2 <= Shr(count, l)
  }

  /** Some equal pair lies inside the first `count` leaves. */
  ghost predicate Seen(eq: (nat, nat) -> bool, count: nat)
  {
    exists l: nat, i: nat :: eq(l, i) && Inside(count, l, i)
  }

  /** Some equal pair was met while the counter moved to `next` and carried up to `level`. */
  ghost predicate SeenCarry(eq: (nat, nat) -> bool, count: nat, next: nat, level: nat)
  {
    exists l: nat, i: nat :: eq(l, i) && (Inside(count, l, i) || (l < level && Inside(next, l, i)))
  }

  /** Some equal pair was met when every level below `level` is closed, out of `count` leaves. */
  ghost predicate SeenClosed(eq: (nat, nat) -> bool, count: nat, level: nat)
  {
    exists l: nat, i: nat :: eq(l, i) && (l < level || Inside(count, l, i))
  }

  ghost function Equal<H>(f: (H, H) -> H, s: seq<H>): (nat, nat) -> bool
  {
    (l: nat, i: nat) => EqualPair(f, s, l, i)
  }

  /** One carry compares exactly one new pair of siblings. */
  lemma {:induction false} CarryMore(eq: (nat, nat) -> bool, count: nat, next: nat, level: nat, i0: nat)
    requires Carrying(count, next, level) && Shr(next, level) == 2 * i0 + 2
    ensures SeenCarry(eq, count, next, level + 1) <==> SeenCarry(eq, count, next, level) || eq(level, i0)
  {
    assert Inside(next, level, i0);
    if SeenCarry(eq, count, next, level + 1) && !SeenCarry(eq, count, next, level) {
      var l: nat, i: nat :| eq(l, i) && (Inside(count, l, i) || (l < level + 1 && Inside(next, l, i)));
      assert l == level && i == i0;
    }
  }

  lemma {:induction false} CarryDone(eq: (nat, nat) -> bool, count: nat, next: nat, level: nat)
    requires Carrying(count, next, level) && Shr(next, level) % 2 == 1
    ensures SeenCarry(eq, count, next, level) <==> Seen(eq, next)
  {
    forall l: nat, i: nat
      ensures (Inside(count, l, i) || (l < level && Inside(next, l, i))) <==> Inside(next, l, i)
    {
      if l > level {
        CarryStops(count, next, level, l);
      }
    }
  }

  /** Storing the carried subtree restores the counter's invariant. */
  lemma {:induction false} FilledNext<H>(f: (H, H) -> H, s: seq<H>, inner: seq<H>, count: nat, next: nat, level: nat,
                                         h: H)
    requires Filled(f, s, inner, count) && level < 32
    requires Carrying(count, next, level) && Shr(next, level) % 2 == 1
    requires Holds(f, s, level, Shr(count, level), h)
    ensures Filled(f, s, inner[level := h], next)
  {
    forall l: nat | l < 32 && Bit(next, l)
      ensures Holds(f, s, l, Shr(next, l) - 1, inner[level := h][l])
    {
      if l > level {
        CarryStops(count, next, level, l);
        assert Bit(count, l);
      }
    }
  }

  /** Hashing two held siblings gives their held parent. */
  lemma {:induction false} HoldsParent<H>(f: (H, H) -> H, s: seq<H>, l: nat, i: nat, a: H, b: H)
    requires Holds(f, s, l, 2 * i, a) && Holds(f, s, l, 2 * i + 1, b)
    ensures Holds(f, s, l + 1, i, f(a, b))
    ensures Equal(f, s)(l, i) <==> a == b
  {
    LevelUp(f, s, l);
    NextPair(f, Level(f, s, l), i);
  }

  lemma {:induction false} LevelUp<H>(f: (H, H) -> H, s: seq<H>, l: nat)
    ensures Level(f, s, l + 1) == Next(f, Level(f, s, l))
  {}

  lemma {:induction false} LevelFits(c: nat, level: nat)
    requires c <= Pow2(31) && Shr(c, level) >= 1
    ensures level <= 31
  {
    ShrPositive(c, level);
    if level > 31 {
      Pow2Mono(32, level);
      assert false;
    }
  }

  /** The carried leaf: where the counter stands, which node is in hand, and which pairs were met. */
  ghost predicate Carried<H>(f: (H, H) -> H, s: seq<H>, count: nat, next: nat, level: nat, h: H, mutated: bool)
  {
    && level < 32 && Carrying(count, next, level)
    && Holds(f, s, level, Shr(count, level), h)
    && (mutated <==> SeenCarry(Equal(f, s), count, next, level))
  }

  lemma {:induction false} CarryBegins<H>(f: (H, H) -> H, s: seq<H>, count: nat, mutated: bool)
    requires count < |s| && (mutated <==> Seen(Equal(f, s), count))
    ensures Carried(f, s, count, count + 1, 0, s[count], mutated)
  {}

  lemma {:induction false} CarryStep<H>(f: (H, H) -> H, s: seq<H>, inner: seq<H>, count: nat, next: nat, level: nat,
                                        h: H, mutated: bool)
    requires next <= Pow2(31) && Filled(f, s, inner, count)
    requires Carried(f, s, count, next, level, h, mutated) && !Bit(next, level)
    ensures Carried(f, s, count, next, level + 1, f(inner[level], h), mutated || inner[level] == h)
  {
    var i := CarryNode(f, s, inner, count, next, level, h);
    CarryMore(Equal(f, s), count, next, level, i);
    LevelFits(next, level + 1);
  }

  lemma {:induction false} CarryNode<H>(f: (H, H) -> H, s: seq<H>, inner: seq<H>, count: nat, next: nat, level: nat,
                                        h: H)
    returns (i: nat)
    requires Filled(f, s, inner, count) && level < 32
    requires Carrying(count, next, level) && Shr(next, level) % 2 == 0 && Holds(f, s, level, Shr(count, level), h)
    ensures Shr(next, level) == 2 * i + 2 && Shr(next, level + 1) == i + 1 && Carrying(count, next, level + 1)
    ensures Holds(f, s, level + 1, Shr(count, level + 1), f(inner[level], h))
    ensures Equal(f, s)(level, i) <==> inner[level] == h
  {
    i := CarryIndex(count, next, level);
    assert Holds(f, s, level, 2 * i, inner[level]);
    HoldsParent(f, s, level, i, inner[level], h);
  }

  /** The pair a carry closes. */
  lemma {:induction false} CarryIndex(count: nat, next: nat, level: nat) returns (i: nat)
    requires Carrying(count, next, level) && Shr(next, level) % 2 == 0
    ensures Shr(next, level) == 2 * i + 2 && Shr(count, level) == 2 * i + 1 && Shr(count, level + 1) == i
    ensures Shr(next, level + 1) == i + 1
    ensures Bit(count, level) && Carrying(count, next, level + 1)
  {
    i := Shr(next, level) / 2 - 1;
  }

  lemma {:induction false} CarryEnds<H>(f: (H, H) -> H, s: seq<H>, inner: seq<H>, count: nat, next: nat, level: nat,
                                        h: H, mutated: bool)
    requires Filled(f, s, inner, count)
    requires Carried(f, s, count, next, level, h, mutated) && Bit(next, level)
    ensures Filled(f, s, inner[level := h], next)
    ensures mutated <==> Seen(Equal(f, s), next)
  {
    CarryDone(Equal(f, s), count, next, level);
    FilledNext(f, s, inner, count, next, level, h);
  }

  /** Read leaf number `count`, collapsing complete subtrees. */
  method Absorb<H(==)>(f: (H, H) -> H, leaves: seq<H>, count: nat, inner: array<H>, before: bool)
    returns (mutated: bool)
    requires count < |leaves| <= Pow2(31)
    requires inner.Length == 32 && Filled(f, leaves, inner[..], count)
    requires before <==> Seen(Equal(f, leaves), count)
    modifies inner
    ensures Filled(f, leaves, inner[..], count + 1)
    ensures mutated <==> Seen(Equal(f, leaves), count + 1)
  {
    mutated := before;
    var h := leaves[count];
    var next := count + 1;
    var level := 0;
    CarryBegins(f, leaves, count, mutated);
    ghost var read := inner[..];
    while !Bit(next, level)
      invariant Carried(f, leaves, count, next, level, h, mutated)
      invariant inner[..] == read
      decreases 32 - level
    {
      CarryStep(f, leaves, read, count, next, level, h, mutated);
      if inner[level] == h {
        mutated := true;
      }
      h := f(inner[level], h);
      level := level + 1;
    }
    CarryEnds(f, leaves, read, count, next, level, h, mutated);
    inner[level] := h;
    assert inner[..] == read[level := h];
  }

  // ----- Closing the partial subtrees

  /** A level whose pairs were all complete adds nothing when it is closed. */
  lemma {:induction false} CloseComplete(eq: (nat, nat) -> bool, count: nat, level: nat, m: nat)
    requires forall i: nat :: eq(level, i) ==> 2 * i + 1 < m
    requires Shr(count, level) == m || (m % 2 == 1 && Shr(count, level) == m - 1)
    ensures SeenClosed(eq, count, level + 1) <==> SeenClosed(eq, count, level)
  {
    forall i: nat | eq(level, i)
      ensures Inside(count, level, i)
    {}
  }

  /** Closing a level whose last node was padded below compares exactly the last pair. */
  lemma {:induction false} ClosePadded(eq: (nat, nat) -> bool, count: nat, level: nat, i0: nat)
    requires forall i: nat :: eq(level, i) ==> 2 * i + 1 < 2 * i0 + 2
    requires Shr(count, level) == 2 * i0 + 1
    ensures SeenClosed(eq, count, level + 1) <==> SeenClosed(eq, count, level) || eq(level, i0)
  {
    forall i: nat | eq(level, i) && i != i0
      ensures Inside(count, level, i)
    {}
  }

  lemma {:induction false} EqualInRange<H>(f: (H, H) -> H, s: seq<H>, l: nat, m: nat)
    requires |Level(f, s, l)| == m
    ensures forall i: nat :: Equal(f, s)(l, i) ==> 2 * i + 1 < m
  {}

  lemma {:induction false} LevelHalves<H>(f: (H, H) -> H, s: seq<H>, l: nat)
    ensures |Level(f, s, l + 1)| == (|Level(f, s, l)| + 1) / 2
  {}

  lemma {:induction false} HoldsPadded<H>(f: (H, H) -> H, s: seq<H>, l: nat, i: nat, h: H)
    requires |Level(f, s, l)| == 2 * i + 1 && Holds(f, s, l, 2 * i, h)
    ensures Holds(f, s, l + 1, i, f(h, h))
  {
    LevelUp(f, s, l);
    NextLast(f, Level(f, s, l), i);
  }

  /** The closing phase has reached `level`, which has `m` nodes. */
  ghost predicate AtLevel<H>(f: (H, H) -> H, s: seq<H>, top: nat, level: nat, m: nat, count: nat)
    requires |s| > 0
  {
    level <= top && m >= 1 && |Level(f, s, level)| == m && Scaled(count, m, level) &&
    Root(f, Level(f, s, level)) == Root(f, s)
  }

  /** Its last node is in hand and exactly the pairs met so far decided the flag. */
  ghost predicate Closing<H>(f: (H, H) -> H, s: seq<H>, level: nat, m: nat, h: H, mutated: bool)
  {
    Holds(f, s, level, m - 1, h) && (mutated <==> SeenClosed(Equal(f, s), |s|, level))
  }

  /** `count` is `m << level`. */
  predicate Scaled(count: nat, m: nat, level: nat)
  {
    if level == 0 then count == m else count % 2 == 0 && Scaled(count / 2, m, level - 1)
  }

  lemma {:induction false} ScaledShr(count: nat, m: nat, level: nat)
    requires Scaled(count, m, level)
    ensures Shr(count, level) == m
    ensures count == Pow2(level) <==> m == 1
  {
    if level > 0 {
      ScaledShr(count / 2, m, level - 1);
      ShrHalf(count, level - 1);
    }
  }

  lemma {:induction false} ScaledUp(count: nat, i: nat, level: nat)
    requires Scaled(count, 2 * i, level)
    ensures Scaled(count, i, level + 1)
  {
    if level > 0 {
      ScaledUp(count / 2, i, level - 1);
    }
  }

  lemma {:induction false} ScaledPlus(count: nat, m: nat, level: nat)
    requires Scaled(count, m, level)
    ensures Scaled(count + Pow2(level), m + 1, level)
  {
    if level > 0 {
      ScaledPlus(count / 2, m, level - 1);
      assert (count + Pow2(level)) / 2 == count / 2 + Pow2(level - 1);
    }
  }

  lemma {:induction false} ScaledPad(count: nat, i: nat, level: nat)
    requires Scaled(count, 2 * i + 1, level)
    ensures Scaled(count + Pow2(level), i + 1, level + 1)
  {
    ScaledPlus(count, 2 * i + 1, level);
    ScaledUp(count + Pow2(level), i + 1, level);
  }

  lemma {:induction false} ScaledBound(count: nat, m: nat, level: nat, k: nat)
    requires Scaled(count, m, level) && level <= k && m <= Pow2(k - level)
    ensures count <= Pow2(k)
  {
    if level > 0 {
      ScaledBound(count / 2, m, level - 1, k - 1);
    }
  }

  /** A level of more than one node is below the top. */
  lemma {:induction false} CountFits<H>(f: (H, H) -> H, s: seq<H>, top: nat, level: nat, m: nat, count: nat)
    requires 0 < |s| <= Pow2(top) && level <= top && |Level(f, s, level)| == m && m > 1 && Scaled(count, m, level)
    ensures level < top
  {
    LevelBound(f, s, top, level);
  }

  lemma {:induction false} RootAbove<H>(f: (H, H) -> H, s: seq<H>, level: nat)
    requires |s| > 0 && |Level(f, s, level)| > 1
    ensures Root(f, Level(f, s, level + 1)) == Root(f, Level(f, s, level))
  {}

  /** Padding takes the counter to the next level, and never beyond the capacity of the tree. */
  lemma {:induction false} PadLevel<H>(f: (H, H) -> H, s: seq<H>, top: nat, level: nat, i: nat, count: nat)
    requires 0 < |s| <= Pow2(top) && AtLevel(f, s, top, level, 2 * i + 1, count) && i > 0
    ensures AtLevel(f, s, top, level + 1, i + 1, count + Pow2(level)) && count + Pow2(level) <= Pow2(top)
  {
    CountFits(f, s, top, level, 2 * i + 1, count);
    ScaledPad(count, i, level);
    LevelHalves(f, s, level);
    RootAbove(f, s, level);
    LevelBound(f, s, top, level + 1);
    ScaledBound(count + Pow2(level), i + 1, level + 1, top);
  }

  lemma {:induction false} JoinLevel<H>(f: (H, H) -> H, s: seq<H>, top: nat, level: nat, i: nat, count: nat)
    requires 0 < |s| <= Pow2(top) && AtLevel(f, s, top, level, 2 * i + 2, count)
    ensures AtLevel(f, s, top, level + 1, i + 1, count)
  {
    CountFits(f, s, top, level, 2 * i + 2, count);
    ScaledUp(count, i + 1, level);
    LevelHalves(f, s, level);
    RootAbove(f, s, level);
  }

  /** Pad an odd level: the last node is hashed with itself and no pair is compared. */
  lemma {:induction false} PadStep<H>(f: (H, H) -> H, s: seq<H>, level: nat, i: nat, h: H, mutated: bool)
    requires |Level(f, s, level)| == 2 * i + 1 && Closing(f, s, level, 2 * i + 1, h, mutated)
    requires Shr(|s|, level) == 2 * i + 1 || Shr(|s|, level) == 2 * i
    ensures Closing(f, s, level + 1, i + 1, f(h, h), mutated)
    ensures Shr(|s|, level + 1) == i
  {
    HoldsPadded(f, s, level, i, h);
    EqualInRange(f, s, level, 2 * i + 1);
    CloseComplete(Equal(f, s), |s|, level, 2 * i + 1);
  }

  /** Join an even level's last pair: the stored left sibling is compared and hashed. */
  lemma {:induction false} JoinStep<H>(f: (H, H) -> H, s: seq<H>, inner: seq<H>, level: nat, i: nat, h: H,
                                       mutated: bool)
    requires Filled(f, s, inner, |s|) && level < 32
    requires |Level(f, s, level)| == 2 * i + 2 && Closing(f, s, level, 2 * i + 2, h, mutated)
    requires Shr(|s|, level) == 2 * i + 1
    ensures Closing(f, s, level + 1, i + 1, f(inner[level], h), mutated || inner[level] == h)
    ensures Shr(|s|, level + 1) == i
  {
    assert Bit(|s|, level);
    assert Holds(f, s, level, 2 * i, inner[level]);
    JoinNode(f, s, level, i, inner[level], h);
    ClosePadded(Equal(f, s), |s|, level, i);
  }

  lemma {:induction false} JoinNode<H>(f: (H, H) -> H, s: seq<H>, level: nat, i: nat, a: H, b: H)
    requires |Level(f, s, level)| == 2 * i + 2 && Holds(f, s, level, 2 * i, a) && Holds(f, s, level, 2 * i + 1, b)
    ensures Holds(f, s, level + 1, i, f(a, b))
    ensures Equal(f, s)(level, i) <==> a == b
    ensures forall k: nat :: Equal(f, s)(level, k) ==> 2 * k + 1 < 2 * i + 2
  {
    HoldsParent(f, s, level, i, a, b);
    EqualInRange(f, s, level, 2 * i + 2);
  }

  /** The lowest set bit of the leaf count is the first level whose last node must be padded. */
  method LowestBit(n: nat) returns (level: nat)
    requires 0 < n <= Pow2(31)
    ensures level <= 31 && Bit(n, level) && forall l: nat :: l < level ==> !Bit(n, l)
  {
    level := 0;
    while !Bit(n, level)
      invariant level <= 31 && Shr(n, level) >= 1
      invariant forall l: nat :: l < level ==> !Bit(n, l)
      decreases 31 - level
    {
      NextLevel(n, level);
      level := level + 1;
    }
  }

  lemma {:induction false} NextLevel(n: nat, level: nat)
    requires 0 < n <= Pow2(31) && Shr(n, level) >= 1 && !Bit(n, level)
    ensures level + 1 <= 31 && Shr(n, level + 1) >= 1
  {
    LevelFits(n, level + 1);
  }

  /** Up to the lowest set bit every level is complete. */
  lemma {:induction false} CompleteBelow<H>(f: (H, H) -> H, s: seq<H>, level: nat)
    requires 0 < |s| && Shr(|s|, level) >= 1 && forall l: nat :: l < level ==> !Bit(|s|, l)
    ensures |Level(f, s, level)| == Shr(|s|, level) && Scaled(|s|, Shr(|s|, level), level)
  {
    if level > 0 {
      CompleteBelow(f, s, level - 1);
      assert !Bit(|s|, level - 1);
      LevelHalves(f, s, level - 1);
      ScaledUp(|s|, Shr(|s|, level), level - 1);
    }
  }

  /** So below it the root is unchanged and nothing is left to compare. */
  lemma {:induction false} ClosedBelow<H>(f: (H, H) -> H, s: seq<H>, level: nat)
    requires 0 < |s| && Shr(|s|, level) >= 1 && forall l: nat :: l < level ==> !Bit(|s|, l)
    ensures Root(f, Level(f, s, level)) == Root(f, s)
    ensures SeenClosed(Equal(f, s), |s|, level) <==> Seen(Equal(f, s), |s|)
  {
    if level > 0 {
      ClosedBelow(f, s, level - 1);
      var m := Shr(|s|, level - 1);
      assert !Bit(|s|, level - 1);
      CompleteBelow(f, s, level - 1);
      RootAbove(f, s, level - 1);
      EqualInRange(f, s, level - 1, m);
      CloseComplete(Equal(f, s), |s|, level - 1, m);
    }
  }

  /** Once the root level is reached every pair of the tree has been met. */
  lemma {:induction false} AllClosed<H(!new)>(f: (H, H) -> H, s: seq<H>, level: nat)
    requires |s| > 0 && |Level(f, s, level)| == 1
    ensures SeenClosed(Equal(f, s), |s|, level) <==> Mutated(f, s)
  {
    if SeenClosed(Equal(f, s), |s|, level) {
      var l: nat, i: nat :| Equal(f, s)(l, i) && (l < level || Inside(|s|, l, i));
      assert EqualPair(f, s, l, i);
    }
    if Mutated(f, s) {
      var l: nat, i: nat :| EqualPair(f, s, l, i);
      if l >= level {
        RootStays(f, s, level, l);
        assert false;
      }
      assert Equal(f, s)(l, i);
    }
  }

  lemma {:induction false} RootStays<H>(f: (H, H) -> H, s: seq<H>, level: nat, l: nat)
    requires |Level(f, s, level)| == 1 && level <= l
    ensures |Level(f, s, l)| == 1
    decreases l
  {
    if l > level {
      RootStays(f, s, level, l - 1);
    }
  }

  /** The closing phase at `level`; `padded` once a node below was hashed with itself. */
  ghost predicate Stage<H>(f: (H, H) -> H, s: seq<H>, level: nat, m: nat, count: nat, h: H, mutated: bool, padded: bool)
    requires |s| > 0
  {
    && AtLevel(f, s, 31, level, m, count) && Closing(f, s, level, m, h, mutated)
    && (Shr(|s|, level) == m - 1 || (!padded && Shr(|s|, level) == m))
    && Shr(count, level) == m && (count == Pow2(level) <==> m == 1)
  }

  lemma {:induction false} FirstStage<H>(f: (H, H) -> H, s: seq<H>, inner: seq<H>, level: nat, mutated: bool)
    requires 0 < |s| && Filled(f, s, inner, |s|) && (mutated <==> Seen(Equal(f, s), |s|))
    requires level <= 31 && Bit(|s|, level) && forall l: nat :: l < level ==> !Bit(|s|, l)
    ensures Stage(f, s, level, Shr(|s|, level), |s|, inner[level], mutated, false)
  {
    CompleteBelow(f, s, level);
    ClosedBelow(f, s, level);
    ScaledShr(|s|, Shr(|s|, level), level);
  }

  lemma {:induction false} PadStage<H>(f: (H, H) -> H, s: seq<H>, level: nat, i: nat, count: nat, total: nat, h: H,
                                       mutated: bool, padded: bool)
    requires 0 < |s| <= Pow2(31) && i > 0 && Stage(f, s, level, 2 * i + 1, count, h, mutated, padded)
    requires total == count + Pow2(level)
    ensures Stage(f, s, level + 1, i + 1, total, f(h, h), mutated, true)
    ensures total <= Pow2(31)
  {
    PadCount(f, s, level, i, count, total);
    PadStep(f, s, level, i, h, mutated);
  }

  lemma {:induction false} PadCount<H>(f: (H, H) -> H, s: seq<H>, level: nat, i: nat, count: nat, total: nat)
    requires 0 < |s| <= Pow2(31) && i > 0 && AtLevel(f, s, 31, level, 2 * i + 1, count)
    requires total == count + Pow2(level)
    ensures AtLevel(f, s, 31, level + 1, i + 1, total) && total <= Pow2(31)
    ensures Shr(total, level + 1) == i + 1 && (total == Pow2(level + 1) <==> i + 1 == 1)
  {
    PadLevel(f, s, 31, level, i, count);
    ScaledShr(total, i + 1, level + 1);
  }

  lemma {:induction false} JoinStage<H>(f: (H, H) -> H, s: seq<H>, inner: seq<H>, level: nat, i: nat, count: nat, h: H,
                                        mutated: bool)
    requires 0 < |s| <= Pow2(31) && Filled(f, s, inner, |s|) && Stage(f, s, level, 2 * i + 2, count, h, mutated, true)
    ensures level < 31
    ensures Stage(f, s, level + 1, i + 1, count, f(inner[level], h), mutated || inner[level] == h, true)
  {
    JoinLevel(f, s, 31, level, i, count);
    JoinStep(f, s, inner, level, i, h, mutated);
    ScaledShr(count, i + 1, level + 1);
  }

  lemma {:induction false} JoinNext<H>(f: (H, H) -> H, s: seq<H>, inner: seq<H>, level: nat, m: nat, count: nat, h: H,
                                       mutated: bool)
    returns (up: nat)
    requires 0 < |s| <= Pow2(31) && Filled(f, s, inner, |s|)
    requires Stage(f, s, level, m, count, h, mutated, true) && !Bit(count, level)
    ensures level < 31
    ensures Stage(f, s, level + 1, up, count, f(inner[level], h), mutated || inner[level] == h, true)
  {
    up := m / 2;
    JoinStage(f, s, inner, level, up - 1, count, h, mutated);
  }

  lemma {:induction false} PadNext<H>(f: (H, H) -> H, s: seq<H>, level: nat, m: nat, count: nat, h: H, mutated: bool,
                                      padded: bool)
    returns (up: nat, total: nat)
    requires 0 < |s| <= Pow2(31)
    requires Stage(f, s, level, m, count, h, mutated, padded) && count != Pow2(level) && Bit(count, level)
    ensures level < 31 && total == count + Pow2(level) && total <= Pow2(31)
    ensures Stage(f, s, level + 1, up, total, f(h, h), mutated, true)
  {
    up := m / 2 + 1;
    total := count + Pow2(level);
    PadStage(f, s, level, m / 2, count, total, h, mutated, padded);
  }

  lemma {:induction false} LastStage<H(!new)>(f: (H, H) -> H, s: seq<H>, level: nat, m: nat, count: nat, h: H,
                                              mutated: bool, padded: bool)
    requires |s| > 0 && Stage(f, s, level, m, count, h, mutated, padded) && count == Pow2(level)
    ensures h == Root(f, s)
    ensures mutated <==> Mutated(f, s)
  {
    AllClosed(f, s, level);
  }

  /** Join the node in hand with stored left siblings while the counter's bits are clear. */
  method Join<H(==)>(f: (H, H) -> H, leaves: seq<H>, inner: array<H>, level: nat, count: nat, h: H, before: bool,
                     ghost m: nat)
    returns (level': nat, h': H, mutated: bool, ghost m': nat)
    requires 0 < |leaves| <= Pow2(31)
    requires inner.Length == 32 && Filled(f, leaves, inner[..], |leaves|)
    requires Stage(f, leaves, level, m, count, h, before, true)
    ensures level' >= level && Bit(count, level')
    ensures Stage(f, leaves, level', m', count, h', mutated, true)
  {
    level', h', mutated, m' := level, h, before, m;
    while !Bit(count, level')
      invariant level <= level' && Stage(f, leaves, level', m', count, h', mutated, true)
      decreases 31 - level'
    {
      m' := JoinNext(f, leaves, inner[..], level', m', count, h', mutated);
      if inner[level'] == h' {
        mutated := true;
      }
      h' := f(inner[level'], h');
      level' := level' + 1;
    }
  }

  /** Collapse what the counter holds after the last leaf, padding odd nodes with themselves. */
  method Collapse<H(==, !new)>(f: (H, H) -> H, leaves: seq<H>, inner: array<H>, before: bool)
    returns (h: H, mutated: bool)
    requires 0 < |leaves| <= Pow2(31)
    requires inner.Length == 32 && Filled(f, leaves, inner[..], |leaves|)
    requires before <==> Seen(Equal(f, leaves), |leaves|)
    ensures h == Root(f, leaves)
    ensures mutated <==> Mutated(f, leaves)
  {
    mutated := before;
    var count: nat := |leaves|;
    var level := LowestBit(count);
    ghost var m: nat, padded: bool := Shr(count, level), false;
    h := inner[level];
    FirstStage(f, leaves, inner[..], level, mutated);
    while count != Pow2(level)
      invariant Stage(f, leaves, level, m, count, h, mutated, padded) && Bit(count, level) && count <= Pow2(31)
      decreases 31 - level
    {
      ghost var total;
      m, total := PadNext(f, leaves, level, m, count, h, mutated, padded);
      h := f(h, h);
      count := count + Pow2(level);
      level := level + 1;
      padded := true;
      assert count == total;
      level, h, mutated, m := Join(f, leaves, inner, level, count, h, mutated, m);
    }
    LastStage(f, leaves, level, m, count, h, mutated, padded);
  }

  /** The streaming construction: the plain root, and the flag exactly for trees with two equal real siblings. */
  method RootDetectingMutation<H(==, !new)>(f: (H, H) -> H, zero: H, leaves: seq<H>)
    returns (r: Option<H>, mutated: bool)
    requires |leaves| <= Pow2(31)
    ensures |leaves| == 0 ==> r == None && !mutated
    ensures |leaves| > 0 ==> r == Some(Root(f, leaves))
    ensures mutated <==> Mutated(f, leaves)
  {
    if |leaves| == 0 {
      NoPairs(f, leaves);
      return None, false;
    }
    var inner := new H[32](_ => zero);
    var h;
    mutated := AbsorbAll(f, leaves, inner);
    h, mutated := Collapse(f, leaves, inner, mutated);
    r := Some(h);
  }

  /** Read every leaf. */
  method AbsorbAll<H(==, !new)>(f: (H, H) -> H, leaves: seq<H>, inner: array<H>) returns (mutated: bool)
    requires |leaves| <= Pow2(31) && inner.Length == 32
    modifies inner
    ensures Filled(f, leaves, inner[..], |leaves|) && (mutated <==> Seen(Equal(f, leaves), |leaves|))
  {
    mutated := false;
    var count := 0;
    NothingRead(f, leaves, inner[..]);
    while count < |leaves|
      invariant count <= |leaves| && Filled(f, leaves, inner[..], count)
      invariant mutated <==> Seen(Equal(f, leaves), count)
    {
      mutated := Absorb(f, leaves, count, inner, mutated);
      count := count + 1;
    }
  }

  lemma {:induction false} NothingRead<H>(f: (H, H) -> H, s: seq<H>, inner: seq<H>)
    requires |inner| == 32
    ensures Filled(f, s, inner, 0) && !Seen(Equal(f, s), 0)
  {
    forall l: nat
      ensures Shr(0, l) == 0
    {
      ShrZero(l);
    }
  }

  lemma {:induction false} ShrZero(l: nat)
    ensures Shr(0, l) == 0
  {
    if l > 0 {
      ShrZero(l - 1);
    }
  }

  lemma {:induction false} NoPairs<H(!new)>(f: (H, H) -> H, s: seq<H>)
    requires |s| == 0
    ensures !Mutated(f, s)
  {
    forall l: nat
      ensures |Level(f, s, l)| == 0
    {
      EmptyLevel(f, s, l);
    }
  }

  lemma {:induction false} EmptyLevel<H>(f: (H, H) -> H, s: seq<H>, l: nat)
    requires |s| == 0
    ensures |Level(f, s, l)| == 0
  {
    if l > 0 {
      EmptyLevel(f, s, l - 1);
    }
  }

  ghost predicate Verified<H(!new)>(f: (H, H) -> H, txids: seq<H>, root: H)
  {
    |txids| > 0 && !Mutated(f, txids) && Root(f, txids) == root
  }

  /** A block's transactions are accepted under its header's root when the tree is plain. */
  method VerifyMerkleRoot<H(==, !new)>(f: (H, H) -> H, zero: H, txids: seq<H>, root: H) returns (ok: bool)
    requires |txids| <= Pow2(31)
    ensures ok <==> Verified(f, txids, root)
  {
    var computed, mutated := RootDetectingMutation(f, zero, txids);
    if computed == None || mutated {
      return false;
    }
    ok := computed.value == root;
  }

  /** One header root admits at most one list of transactions per tree depth. */
  lemma {:induction false} VerifiedIsUnique<H(!new)>(f: (H, H) -> H, s: seq<H>, t: seq<H>, root: H)
    requires Injective(f) && Verified(f, s, root) && Verified(f, t, root) && Depth(f, s) == Depth(f, t)
    ensures s == t
  {
    RootDeterminesLeaves(f, s, t);
  }
}
