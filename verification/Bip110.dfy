/** The BIP-110 deployment: a threshold state machine evaluated over a tree of headers, with a memo
    table keyed by period-boundary hash. */
module Bip110 {
  import opened Headers
  import opened Options
  import opened Powers
  import opened Sorting

  const U32_MAX: nat := 0xffff_ffff

  datatype Deployment = Deployment(
    period: nat, bit: bv8, startTime: nat, threshold: nat, lockInFloor: nat,
    windowLow: nat, windowHigh: nat, activeDuration: nat)

  datatype State = Defined | Started | LockedIn | Active | Expired

  /** A period's state, with the activation height once it is known. */
  datatype Activation = Activation(state: State, height: Option<nat>)

  const INACTIVE := Activation(Defined, None)

  function Rank(s: State): nat
  {
    match s
    case Defined => 0
    case Started => 1
    case LockedIn => 2
    case Active => 3
    case Expired => 4
  }

  predicate Enforcing(a: Activation)
  {
    a.state == Active
  }

  // ----- Signals

  /** The version carries the BIP 9 top bits and the deployment's bit. */
  predicate Signals(bit: bv8, version: bv32)
    requires bit < 32
  {
    (version & 0xE000_0000) == 0x2000_0000 && (version & (1 << bit)) != 0
  }

  /** While STARTED, a block inside the mandatory window must signal. */
  predicate ViolatesMandatorySignaling(dep: Deployment, a: Activation, height: nat, version: bv32)
    requires dep.bit < 32
  {
    a.state == Started && dep.windowLow <= height <= dep.windowHigh && !Signals(dep.bit, version)
  }

  /** The version a block producer stamps. */
  function SignalingVersion(dep: Deployment, a: Activation): bv32
    requires dep.bit < 32
  {
    if a.state == Started || a.state == LockedIn then 0x2000_0000 | (1 << dep.bit) else 0x2000_0000
  }

  /** A block stamped with its own signaling version breaks the mandatory rule exactly when the rule
      applies to it and the deployment's bit is one of the two that disturb the top bits. */
  lemma OwnVersionPasses(dep: Deployment, a: Activation, height: nat)
    requires dep.bit < 32
    ensures ViolatesMandatorySignaling(dep, a, height, SignalingVersion(dep, a)) <==>
            a.state == Started && dep.windowLow <= height <= dep.windowHigh && dep.bit >= 30
  {
    OwnVersionSignals(dep.bit);
  }

  lemma OwnVersionSignals(bit: bv8)
    requires bit < 32
    ensures var v: bv32 := 0x2000_0000 | (1 << bit);
            (v & 0xE000_0000) == 0x2000_0000 && (v & (1 << bit)) != 0 <==> bit < 30
  {}

  /** Signalling headers from `cur` down to height `start`. */
  function SignalCount(bit: bv8, idx: Index, cur: Header, start: int): nat
    requires bit < 32
    decreases cur.height
  {
    (if Signals(bit, cur.version) then 1 else 0) +
    (if cur.height > start && cur.prev in idx && idx[cur.prev].height < cur.height
     then SignalCount(bit, idx, idx[cur.prev], start) else 0)
  }

  method CountSignals(dep: Deployment, idx: Index, b: Header) returns (count: nat)
    requires dep.bit < 32
    ensures count == SignalCount(dep.bit, idx, b, b.height + 1 - dep.period)
  {
    var start := b.height + 1 - dep.period;
    count := 0;
    var cur := b;
    while true
      invariant count + SignalCount(dep.bit, idx, cur, start) == SignalCount(dep.bit, idx, b, start)
      decreases cur.height
    {
      if Signals(dep.bit, cur.version) {
        count := count + 1;
      }
      if cur.height <= start {
        break;
      }
      if cur.prev in idx && idx[cur.prev].height < cur.height {
        cur := idx[cur.prev];
      } else {
        break;
      }
    }
  }

  // ----- Transitions

  function SaturatingAdd(a: nat, b: nat): nat
  {
    if a + b > U32_MAX then U32_MAX else a + b
  }

  function BoundaryTime(idx: Index, b: Header): nat
  {
    match MedianTimePast(idx, b.hash)
    case Some(t) => t
    case None => 0
  }

  /** The state of the period after boundary `b` from the state of the period `b` ends. */
  function Transition(dep: Deployment, idx: Index, a: Activation, b: Header): Activation
    requires dep.bit < 32
  {
    var next := b.height + 1;
    match a.state
    case Defined => if BoundaryTime(idx, b) >= dep.startTime then Activation(Started, None) else INACTIVE
    case Started =>
      if SignalCount(dep.bit, idx, b, next - dep.period) >= dep.threshold || next >= dep.lockInFloor
      then Activation(LockedIn, Some(next + dep.period))
      else Activation(Started, None)
    case LockedIn => Activation(Active, a.height)
    case Active =>
      if a.height.Some? && next >= SaturatingAdd(a.height.value, dep.activeDuration)
      then Activation(Expired, a.height)
      else Activation(Active, a.height)
    case Expired => a
  }

  /** The state after `b`, period by period over `b`'s own ancestors. */
  function PlainState(dep: Deployment, idx: Index, b: Header): Activation
    requires dep.period > 0 && dep.bit < 32
    decreases b.height
  {
    if b.height < dep.period then Transition(dep, idx, INACTIVE, b)
    else match Ancestor(idx, b.prev, b.height - dep.period)
      case Some(pb) => Transition(dep, idx, PlainState(dep, idx, pb), b)
      case None => Transition(dep, idx, INACTIVE, b)
  }

  /** The same recursion, cut off at the first boundary earlier than the start time. */
  function CutState(dep: Deployment, idx: Index, b: Header): Activation
    requires dep.period > 0 && dep.bit < 32
    decreases b.height
  {
    if BoundaryTime(idx, b) < dep.startTime then INACTIVE
    else if b.height < dep.period then Transition(dep, idx, INACTIVE, b)
    else match Ancestor(idx, b.prev, b.height - dep.period)
      case Some(pb) => Transition(dep, idx, CutState(dep, idx, pb), b)
      case None => Transition(dep, idx, INACTIVE, b)
  }

  function CutActivation(dep: Deployment, idx: Index, prev: Hash, height: nat): Activation
    requires dep.period > 0 && dep.bit < 32
  {
    if height / dep.period == 0 then INACTIVE
    else if MedianTimePast(idx, prev).Some? && MedianTimePast(idx, prev).value < dep.startTime then INACTIVE
    else match Ancestor(idx, prev, height / dep.period * dep.period - 1)
      case Some(b) => CutState(dep, idx, b)
      case None => INACTIVE
  }

  /** What a block at `height` on top of `prev` should see, without any shortcut. */
  function PlainActivation(dep: Deployment, idx: Index, prev: Hash, height: nat): Activation
    requires dep.period > 0 && dep.bit < 32
  {
    if height / dep.period == 0 then INACTIVE
    else match Ancestor(idx, prev, height / dep.period * dep.period - 1)
      case Some(b) => PlainState(dep, idx, b)
      case None => INACTIVE
  }

  // ----- The memoising checker

  /** Headers are filed under their own hashes. */
  ghost predicate HashesMatch(idx: Index)
  {
    forall h :: h in idx ==> idx[h].hash == h
  }

  /** Every cached entry is the state of the boundary it is filed under. */
  ghost predicate CacheCorrect(dep: Deployment, idx: Index, cache: map<Hash, Activation>)
    requires dep.period > 0 && dep.bit < 32
  {
    forall h :: h in cache ==> h in idx && idx[h].hash == h && cache[h] == CutState(dep, idx, idx[h])
  }

  /** The stack of boundaries still to compute, top last: each one's state is one transition from the
      state of the next, and `base` is the state below the top. */
  ghost predicate Aligned(dep: Deployment, idx: Index, base: Activation, stack: seq<Header>)
    requires dep.period > 0 && dep.bit < 32
    decreases |stack|
  {
    |stack| == 0 ||
    var top := stack[|stack| - 1];
    && Filed(idx, top)
    && CutState(dep, idx, top) == Transition(dep, idx, base, top)
    && Aligned(dep, idx, CutState(dep, idx, top), stack[..|stack| - 1])
  }

  class Checker {
    const dep: Deployment
    var cache: map<Hash, Activation>

    constructor (dep: Deployment)
      ensures this.dep == dep && cache == map[]
    {
      this.dep := dep;
      cache := map[];
    }

    /** Walk back over period boundaries to a cached one or a base case. */
    method WalkBack(idx: Index, boundary: Header) returns (stack: seq<Header>, base: Activation)
      requires dep.period > 0 && dep.bit < 32
      requires CacheCorrect(dep, idx, cache)
      requires Filed(idx, boundary)
      requires HashesMatch(idx)
      ensures Aligned(dep, idx, base, stack)
      ensures if |stack| == 0 then base == CutState(dep, idx, boundary) else stack[0] == boundary
    {
      stack := [];
      var cur := boundary;
      while true
        invariant Filed(idx, cur)
        invariant Aligned(dep, idx, CutState(dep, idx, cur), stack)
        invariant if |stack| == 0 then cur == boundary else stack[0] == boundary
        decreases cur.height
      {
        if cur.hash in cache {
          return stack, cache[cur.hash];
        }
        var mtp := GetMedianTimePast(idx, cur.hash);
        var time := match mtp case Some(t) => t case None => 0;
        if time < dep.startTime {
          return stack, INACTIVE;
        }
        if cur.height < dep.period {
          AlignedPush(dep, idx, INACTIVE, stack, cur);
          return stack + [cur], INACTIVE;
        }
        var pb := GetAncestor(idx, cur.prev, cur.height - dep.period);
        if pb.None? {
          AlignedPush(dep, idx, INACTIVE, stack, cur);
          return stack + [cur], INACTIVE;
        }
        AlignedPush(dep, idx, CutState(dep, idx, pb.value), stack, cur);
        AncestorFiled(idx, idx[cur.prev], cur.height - dep.period);
        stack := stack + [cur];
        cur := pb.value;
      }
    }

    /** The state of the period after `boundary`, filling the memo table. */
    method StateAtBoundary(idx: Index, boundary: Header) returns (r: Activation)
      requires dep.period > 0 && dep.bit < 32
      requires CacheCorrect(dep, idx, cache)
      requires Filed(idx, boundary)
      requires HashesMatch(idx)
      modifies this`cache
      ensures r == CutState(dep, idx, boundary)
      ensures CacheCorrect(dep, idx, cache)
      ensures forall h :: h in old(cache) ==> h in cache && cache[h] == old(cache)[h]
    {
      var stack, state := WalkBack(idx, boundary);
      while |stack| > 0
        invariant Aligned(dep, idx, state, stack)
        invariant if |stack| == 0 then state == CutState(dep, idx, boundary) else stack[0] == boundary
        invariant CacheCorrect(dep, idx, cache)
        invariant forall h :: h in old(cache) ==> h in cache && cache[h] == old(cache)[h]
        decreases |stack|
      {
        var b := stack[|stack| - 1];
        state := TransitionStep(dep, idx, state, b);
        cache := cache[b.hash := state];
        stack := stack[..|stack| - 1];
      }
      r := state;
    }

    /** The deployment as seen by a block at `height` on top of `prev`. */
    method ActivationFor(idx: Index, prev: Hash, height: nat) returns (r: Activation)
      requires dep.period > 0 && dep.bit < 32
      requires CacheCorrect(dep, idx, cache)
      requires HashesMatch(idx)
      modifies this`cache
      ensures r == CutActivation(dep, idx, prev, height)
      ensures CacheCorrect(dep, idx, cache)
      ensures Closed(idx) && prev in idx && idx[prev].height + 1 == height && CrossesOnce(dep, idx, idx[prev]) ==>
                r == PlainActivation(dep, idx, prev, height)
    {
      if Closed(idx) && prev in idx && idx[prev].height + 1 == height && CrossesOnce(dep, idx, idx[prev]) {
        assert Linked(idx, prev);
        AgreesExactlyWhen(dep, idx, idx[prev]);
      }
      var index := height / dep.period;
      if index == 0 {
        return INACTIVE;
      }
      var mtp := GetMedianTimePast(idx, prev);
      if mtp.Some? && mtp.value < dep.startTime {
        return INACTIVE;
      }
      var boundary := GetAncestor(idx, prev, index * dep.period - 1);
      if boundary.None? {
        return INACTIVE;
      }
      AncestorFiled(idx, idx[prev], index * dep.period - 1);
      r := StateAtBoundary(idx, boundary.value);
    }
  }

  /** `Transition` as the checker computes it, counting signals by walking the headers. */
  method TransitionStep(dep: Deployment, idx: Index, a: Activation, b: Header) returns (r: Activation)
    requires dep.bit < 32
    ensures r == Transition(dep, idx, a, b)
  {
    match a.state {
      case Started =>
        var signals := CountSignals(dep, idx, b);
        r := if signals >= dep.threshold || b.height + 1 >= dep.lockInFloor
          then Activation(LockedIn, Some(b.height + 1 + dep.period)) else Activation(Started, None);
      case _ => r := Transition(dep, idx, a, b);
    }
  }

  lemma {:induction false} AlignedPush(dep: Deployment, idx: Index, base: Activation, stack: seq<Header>, cur: Header)
    requires dep.period > 0 && dep.bit < 32
    requires Filed(idx, cur)
    requires Aligned(dep, idx, CutState(dep, idx, cur), stack)
    requires CutState(dep, idx, cur) == Transition(dep, idx, base, cur)
    ensures Aligned(dep, idx, base, stack + [cur])
  {
    assert (stack + [cur])[..|stack|] == stack;
  }

  lemma {:induction false} AncestorFiled(idx: Index, cur: Header, target: nat)
    requires HashesMatch(idx)
    requires Filed(idx, cur) && AncestorOf(idx, cur, target).Some?
    ensures var a := AncestorOf(idx, cur, target).value; Filed(idx, a)
    decreases cur.height
  {
    if cur.height > target {
      AncestorFiled(idx, idx[cur.prev], target);
    }
  }

  // ----- The shortcuts agree with the plain recursion

  lemma {:induction false} BoundaryTimeIsMtp(idx: Index, b: Header)
    requires b.hash in idx
    ensures BoundaryTime(idx, b) == Mtp(idx, b.hash)
  {
    assert |Window(idx, b.hash, MEDIAN_SPAN)| > 0;
  }

  lemma {:induction false} PreviousBoundary(dep: Deployment, idx: Index, b: Header) returns (pb: Header)
    requires dep.period > 0 && Closed(idx) && Filed(idx, b) && b.height >= dep.period
    ensures Ancestor(idx, b.prev, b.height - dep.period) == Some(pb)
    ensures AncestorOf(idx, b, b.height - dep.period) == Some(pb)
    ensures Filed(idx, pb) && pb.height == b.height - dep.period
  {
    AncestorExists(idx, b, b.height - dep.period);
    pb := AncestorOf(idx, b, b.height - dep.period).value;
  }

  /** A transition never moves the state back and never skips one. */
  lemma {:induction false} TransitionAdvances(dep: Deployment, idx: Index, a: Activation, b: Header)
    requires dep.bit < 32
    ensures Rank(a.state) <= Rank(Transition(dep, idx, a, b).state) <= Rank(a.state) + 1
    ensures BoundaryTime(idx, b) >= dep.startTime ==> Transition(dep, idx, a, b).state != Defined
  {}

  /** Over the boundaries up to `b`, once one reaches the start time no later one is before it. */
  ghost predicate StartsOnce(dep: Deployment, idx: Index, b: Header)
    requires dep.period > 0 && dep.bit < 32
    decreases b.height
  {
    b.height < dep.period ||
    match Ancestor(idx, b.prev, b.height - dep.period)
    case Some(pb) =>
      && (BoundaryTime(idx, b) < dep.startTime ==> BoundaryTime(idx, pb) < dep.startTime)
      && StartsOnce(dep, idx, pb)
    case None => true
  }

  /** The cut-off recursion and the plain one agree on every boundary up to `b`. */
  ghost predicate AgreeUpTo(dep: Deployment, idx: Index, b: Header)
    requires dep.period > 0 && dep.bit < 32
    decreases b.height
  {
    && CutState(dep, idx, b) == PlainState(dep, idx, b)
    && (b.height < dep.period ||
        match Ancestor(idx, b.prev, b.height - dep.period)
        case Some(pb) => AgreeUpTo(dep, idx, pb)
        case None => true)
  }

  /** Without the rule on block times, the early stop is right exactly when the boundaries cross the
      start time once. */
  lemma {:induction false} CutExactlyWhen(dep: Deployment, idx: Index, b: Header)
    requires dep.period > 0 && dep.bit < 32
    ensures AgreeUpTo(dep, idx, b) <==> StartsOnce(dep, idx, b)
    ensures StartsOnce(dep, idx, b) && BoundaryTime(idx, b) < dep.startTime ==> PlainState(dep, idx, b) == INACTIVE
    decreases b.height
  {
    if b.height >= dep.period && Ancestor(idx, b.prev, b.height - dep.period).Some? {
      var pb := Ancestor(idx, b.prev, b.height - dep.period).value;
      CutExactlyWhen(dep, idx, pb);
      TransitionAdvances(dep, idx, PlainState(dep, idx, pb), b);
      StartedAfter(dep, idx, pb);
    }
  }

  lemma {:induction false} StartedAfter(dep: Deployment, idx: Index, b: Header)
    requires dep.period > 0 && dep.bit < 32
    ensures BoundaryTime(idx, b) >= dep.startTime ==> PlainState(dep, idx, b).state != Defined
  {}

  // ----- The memo table across forks and reorgs

  lemma {:induction false} SignalCountStable(bit: bv8, idx: Index, idx': Index, cur: Header, start: int)
    requires bit < 32 && Closed(idx) && Closed(idx') && Extends(idx, idx') && Filed(idx, cur)
    ensures SignalCount(bit, idx', cur, start) == SignalCount(bit, idx, cur, start)
    decreases cur.height
  {
    assert Linked(idx, cur.hash) && Linked(idx', cur.hash);
    if cur.height > start && cur.height > 0 {
      assert Linked(idx, cur.prev);
      SignalCountStable(bit, idx, idx', idx[cur.prev], start);
    }
  }

  lemma {:induction false} TransitionStable(dep: Deployment, idx: Index, idx': Index, a: Activation, b: Header)
    requires dep.bit < 32 && Closed(idx) && Closed(idx') && Extends(idx, idx') && Filed(idx, b)
    ensures Transition(dep, idx', a, b) == Transition(dep, idx, a, b)
    ensures BoundaryTime(idx', b) == BoundaryTime(idx, b)
  {
    SignalCountStable(dep.bit, idx, idx', b, b.height + 1 - dep.period);
    WindowStable(idx, idx', b.hash, MEDIAN_SPAN);
  }

  lemma {:induction false} BoundaryStable(dep: Deployment, idx: Index, idx': Index, b: Header)
    requires dep.period > 0 && Closed(idx) && Extends(idx, idx') && Filed(idx, b) && b.height >= dep.period
    ensures Ancestor(idx', b.prev, b.height - dep.period) == Ancestor(idx, b.prev, b.height - dep.period)
  {
    assert Linked(idx, b.hash);
    assert Linked(idx, b.prev);
    AncestorStable(idx, idx', idx[b.prev], b.height - dep.period);
  }

  /** New headers, on any branch, leave the state after a filed boundary as it was. */
  lemma {:induction false} CutStateStable(dep: Deployment, idx: Index, idx': Index, b: Header)
    requires dep.period > 0 && dep.bit < 32 && Closed(idx) && Closed(idx') && Extends(idx, idx') && Filed(idx, b)
    ensures CutState(dep, idx', b) == CutState(dep, idx, b)
    decreases b.height
  {
    assert Linked(idx, b.hash);
    if b.height >= dep.period {
      var pb := PreviousBoundary(dep, idx, b);
      CutStateStable(dep, idx, idx', pb);
      CutStepStable(dep, idx, idx', b, pb);
    } else {
      TransitionStable(dep, idx, idx', INACTIVE, b);
    }
  }

  lemma {:induction false} CutStepStable(dep: Deployment, idx: Index, idx': Index, b: Header, pb: Header)
    requires dep.period > 0 && dep.bit < 32 && Closed(idx) && Closed(idx') && Extends(idx, idx') && Filed(idx, b)
    requires b.height >= dep.period && Ancestor(idx, b.prev, b.height - dep.period) == Some(pb)
    requires CutState(dep, idx', pb) == CutState(dep, idx, pb)
    ensures CutState(dep, idx', b) == CutState(dep, idx, b)
  {
    var below := CutState(dep, idx, pb);
    BoundaryStable(dep, idx, idx', b);
    TransitionStable(dep, idx, idx', below, b);
    CutStep(dep, idx, b, pb);
    CutStep(dep, idx', b, pb);
  }

  lemma {:induction false} CutStep(dep: Deployment, idx: Index, b: Header, pb: Header)
    requires dep.period > 0 && dep.bit < 32 && b.height >= dep.period
    requires Ancestor(idx, b.prev, b.height - dep.period) == Some(pb)
    ensures CutState(dep, idx, b) ==
            if BoundaryTime(idx, b) < dep.startTime then INACTIVE else Transition(dep, idx, CutState(dep, idx, pb), b)
  {}

  /** The memo table stays correct while the header tree grows. */
  lemma {:induction false} CacheSurvives(dep: Deployment, idx: Index, idx': Index, cache: map<Hash, Activation>)
    requires dep.period > 0 && dep.bit < 32 && Closed(idx) && Closed(idx') && Extends(idx, idx')
    requires CacheCorrect(dep, idx, cache)
    ensures CacheCorrect(dep, idx', cache)
  {
    forall h | h in cache
      ensures h in idx' && idx'[h].hash == h && cache[h] == CutState(dep, idx', idx'[h])
    {
      CutStateStable(dep, idx, idx', idx[h]);
    }
  }

  // ----- States along one branch

  /** The first height of period `k`. */
  function Start(dep: Deployment, k: nat): nat
  {
    if k == 0 then 0 else Start(dep, k - 1) + dep.period
  }

  lemma {:induction false} StartIsMultiple(dep: Deployment, k: nat)
    ensures Start(dep, k) == k * dep.period
  {
    if k > 0 {
      StartIsMultiple(dep, k - 1);
      AddDigit(k - 1, 1, dep.period);
    }
  }

  lemma {:induction false} StartsOrdered(dep: Deployment, j: nat, k: nat)
    requires j <= k
    ensures Start(dep, j) <= Start(dep, k)
    ensures j < k ==> Start(dep, j) + dep.period <= Start(dep, k)
    decreases k
  {
    if j < k {
      StartsOrdered(dep, j, k - 1);
    }
  }

  /** A height belongs to the period whose stretch contains it. */
  lemma {:induction false} PeriodOf(dep: Deployment, height: nat)
    requires dep.period > 0
    ensures Start(dep, height / dep.period) <= height < Start(dep, height / dep.period) + dep.period
  {
    StartIsMultiple(dep, height / dep.period);
    DivMod(height, dep.period);
  }

  lemma {:induction false} PeriodIs(dep: Deployment, height: nat, k: nat)
    requires dep.period > 0 && Start(dep, k) <= height < Start(dep, k) + dep.period
    ensures height / dep.period == k
  {
    StartIsMultiple(dep, k);
    DivUnique(height, dep.period, k, height - k * dep.period);
  }

  lemma {:induction false} StartsAdd(dep: Deployment, j: nat, k: nat)
    ensures Start(dep, j + k) == Start(dep, j) + Start(dep, k)
  {
    if k > 0 {
      StartsAdd(dep, j, k - 1);
    }
  }

  /** The state of period `k` on the branch that ends in `tip`. */
  function PeriodState(dep: Deployment, idx: Index, tip: Header, k: nat): Activation
    requires dep.period > 0 && dep.bit < 32
  {
    if k == 0 then INACTIVE
    else match AncestorOf(idx, tip, Start(dep, k) - 1)
      case Some(b) => PlainState(dep, idx, b)
      case None => INACTIVE
  }

  /** Any block of the branch sees the state of its period. */
  lemma {:induction false} BlockSeesPeriod(dep: Deployment, idx: Index, tip: Header, height: nat)
    requires dep.period > 0 && dep.bit < 32 && Closed(idx) && Filed(idx, tip) && 0 < height <= tip.height + 1
    ensures AncestorOf(idx, tip, height - 1).Some?
    ensures PlainActivation(dep, idx, AncestorOf(idx, tip, height - 1).value.hash, height) ==
            PeriodState(dep, idx, tip, height / dep.period)
  {
    AncestorExists(idx, tip, height - 1);
    var k := height / dep.period;
    StartIsMultiple(dep, k);
    PeriodOf(dep, height);
    if k > 0 {
      AncestorTransitive(idx, tip, height - 1, Start(dep, k) - 1);
    }
  }

  /** Period after period the branch applies one transition at the boundary between them. */
  lemma {:induction false} PeriodStep(dep: Deployment, idx: Index, tip: Header, k: nat) returns (b: Header)
    requires dep.period > 0 && dep.bit < 32 && Closed(idx) && Filed(idx, tip)
    requires Start(dep, k + 1) - 1 <= tip.height
    ensures AncestorOf(idx, tip, Start(dep, k + 1) - 1) == Some(b)
    ensures Filed(idx, b) && b.height + 1 == Start(dep, k + 1)
    ensures PeriodState(dep, idx, tip, k + 1) == Transition(dep, idx, PeriodState(dep, idx, tip, k), b)
  {
    AncestorExists(idx, tip, Start(dep, k + 1) - 1);
    b := AncestorOf(idx, tip, Start(dep, k + 1) - 1).value;
    if k > 0 {
      var pb := PreviousBoundary(dep, idx, b);
      AncestorTransitive(idx, tip, Start(dep, k + 1) - 1, Start(dep, k) - 1);
    }
  }

  // ----- The shortcuts of a block's own view

  /** If the boundary before a block's period has reached the start time, so has the block. */
  ghost predicate OnceAt(dep: Deployment, idx: Index, t: Header)
    requires dep.period > 0
  {
    Start(dep, t.height / dep.period) > 0 ==>
      match AncestorOf(idx, t, Start(dep, t.height / dep.period) - 1)
      case Some(b) => BoundaryTime(idx, b) >= dep.startTime ==> BoundaryTime(idx, t) >= dep.startTime
      case None => true
  }

  /** The same for every block on the way down from `tip`. */
  ghost predicate CrossesOnce(dep: Deployment, idx: Index, tip: Header)
    requires dep.period > 0
    decreases tip.height
  {
    && OnceAt(dep, idx, tip)
    && (tip.prev in idx && idx[tip.prev].height < tip.height ==> CrossesOnce(dep, idx, idx[tip.prev]))
  }

  /** The next block on `t` sees the state of the plain recursion. */
  ghost predicate AgreesAt(dep: Deployment, idx: Index, t: Header)
    requires dep.period > 0 && dep.bit < 32
  {
    CutActivation(dep, idx, t.hash, t.height + 1) == PlainActivation(dep, idx, t.hash, t.height + 1)
  }

  /** The same on every block on the way down from `tip`. */
  ghost predicate AgreesBelow(dep: Deployment, idx: Index, tip: Header)
    requires dep.period > 0 && dep.bit < 32
    decreases tip.height
  {
    && AgreesAt(dep, idx, tip)
    && (tip.prev in idx && idx[tip.prev].height < tip.height ==> AgreesBelow(dep, idx, idx[tip.prev]))
  }

  lemma {:induction false} CrossesBelow(dep: Deployment, idx: Index, tip: Header, target: nat)
    requires dep.period > 0 && Closed(idx) && Filed(idx, tip) && CrossesOnce(dep, idx, tip) && target <= tip.height
    ensures AncestorOf(idx, tip, target).Some? && CrossesOnce(dep, idx, AncestorOf(idx, tip, target).value)
    decreases tip.height
  {
    assert Linked(idx, tip.hash);
    if tip.height > target {
      assert Linked(idx, tip.prev);
      CrossesBelow(dep, idx, idx[tip.prev], target);
    }
  }

  /** On the boundaries alone, the condition is that they cross the start time once. */
  lemma {:induction false} CrossesStarts(dep: Deployment, idx: Index, b: Header, k: nat)
    requires dep.period > 0 && dep.bit < 32 && Closed(idx) && Filed(idx, b) && b.height + 1 == Start(dep, k + 1)
    requires CrossesOnce(dep, idx, b)
    ensures StartsOnce(dep, idx, b)
    decreases k
  {
    PeriodIs(dep, b.height, k);
    if k > 0 {
      var pb := PreviousBoundary(dep, idx, b);
      CrossesBelow(dep, idx, b, b.height - dep.period);
      CrossesStarts(dep, idx, pb, k - 1);
    }
  }

  /** Where the boundary of the block after `t` is: `t` itself, or the boundary before `t`'s own period. */
  lemma {:induction false} NextBlockPeriod(dep: Deployment, height: nat) returns (k: nat, last: bool)
    requires dep.period > 0
    ensures k == height / dep.period && Start(dep, k) <= height
    ensures last <==> height + 1 == Start(dep, k + 1)
    ensures (height + 1) / dep.period == if last then k + 1 else k
    ensures (height + 1) / dep.period * dep.period == if last then height + 1 else Start(dep, k)
  {
    k := height / dep.period;
    PeriodOf(dep, height);
    last := height + 1 == Start(dep, k + 1);
    PeriodIs(dep, height + 1, if last then k + 1 else k);
    StartIsMultiple(dep, if last then k + 1 else k);
  }

  /** What the next block on `t` sees, with and without the shortcuts. */
  lemma {:induction false} NextBlockSees(dep: Deployment, idx: Index, t: Header, k: nat, last: bool, b: Header)
    requires dep.period > 0 && dep.bit < 32 && Closed(idx) && Filed(idx, t)
    requires k == t.height / dep.period && (last <==> t.height + 1 == Start(dep, k + 1)) && (last || k > 0)
    requires if last then b == t else Start(dep, k) > 0 && AncestorOf(idx, t, Start(dep, k) - 1) == Some(b)
    ensures PlainActivation(dep, idx, t.hash, t.height + 1) == PlainState(dep, idx, b)
    ensures CutActivation(dep, idx, t.hash, t.height + 1) ==
            if BoundaryTime(idx, t) < dep.startTime then INACTIVE else CutState(dep, idx, b)
  {
    var k', last' := NextBlockPeriod(dep, t.height);
    BoundaryTimeIsMtp(idx, t);
    assert |Window(idx, t.hash, MEDIAN_SPAN)| > 0;
    assert AncestorOf(idx, t, t.height) == Some(t);
  }

  lemma {:induction false} FirstPeriodSees(dep: Deployment, idx: Index, t: Header)
    requires dep.period > 0 && dep.bit < 32 && t.height + 1 < dep.period
    ensures AgreesAt(dep, idx, t) && OnceAt(dep, idx, t)
  {
    var k, last := NextBlockPeriod(dep, t.height);
    StartsOrdered(dep, 1, k + 1);
    PeriodIs(dep, t.height, 0);
  }

  /** Above a branch that crosses the start time once, a boundary before the start time is one DEFINED. */
  lemma {:induction false} CleanBoundary(dep: Deployment, idx: Index, c: Header, k: nat)
    requires dep.period > 0 && dep.bit < 32 && Closed(idx) && Filed(idx, c) && c.height + 1 == Start(dep, k + 1)
    requires CrossesOnce(dep, idx, c)
    ensures CutState(dep, idx, c) == PlainState(dep, idx, c)
    ensures PlainState(dep, idx, c) == INACTIVE <==> BoundaryTime(idx, c) < dep.startTime
    ensures BoundaryTime(idx, c) >= dep.startTime ==> PlainState(dep, idx, c).state != Defined
  {
    CrossesStarts(dep, idx, c, k);
    CutExactlyWhen(dep, idx, c);
    StartedAfter(dep, idx, c);
  }

  /** One block: above blocks that agree, the next one agrees exactly when it crosses once as well. */
  lemma {:induction false} AgreesStep(dep: Deployment, idx: Index, t: Header)
    requires dep.period > 0 && dep.bit < 32 && Closed(idx) && Filed(idx, t)
    requires t.height > 0 ==> t.prev in idx && CrossesOnce(dep, idx, idx[t.prev])
    ensures AgreesAt(dep, idx, t) <==> OnceAt(dep, idx, t)
  {
    var k, last := NextBlockPeriod(dep, t.height);
    if k == 0 {
      FirstPeriod(dep, idx, t, last);
    } else {
      StartsOrdered(dep, 1, k);
      var c := BoundaryOf(dep, idx, t, k);
      CleanBoundary(dep, idx, c, k - 1);
      NextBlockSees(dep, idx, t, k, last, if last then t else c);
      if last {
        LastOfPeriod(dep, idx, t, k, c);
      }
    }
  }

  lemma {:induction false} FirstPeriod(dep: Deployment, idx: Index, t: Header, last: bool)
    requires dep.period > 0 && dep.bit < 32 && Closed(idx) && Filed(idx, t) && t.height / dep.period == 0
    requires last <==> t.height + 1 == Start(dep, 1)
    ensures AgreesAt(dep, idx, t) && OnceAt(dep, idx, t)
  {
    PeriodOf(dep, t.height);
    if last {
      NextBlockSees(dep, idx, t, 0, last, t);
    } else {
      FirstPeriodSees(dep, idx, t);
    }
  }

  /** The boundary before a block's own period. */
  lemma {:induction false} BoundaryOf(dep: Deployment, idx: Index, t: Header, k: nat) returns (c: Header)
    requires dep.period > 0 && Closed(idx) && Filed(idx, t) && 0 < Start(dep, k) <= t.height
    requires t.prev in idx && CrossesOnce(dep, idx, idx[t.prev])
    ensures AncestorOf(idx, t, Start(dep, k) - 1) == Some(c)
    ensures Filed(idx, c) && c.height + 1 == Start(dep, k) && CrossesOnce(dep, idx, c)
  {
    assert Linked(idx, t.hash);
    assert Linked(idx, t.prev);
    AncestorExists(idx, t, Start(dep, k) - 1);
    CrossesBelow(dep, idx, idx[t.prev], Start(dep, k) - 1);
    c := AncestorOf(idx, t, Start(dep, k) - 1).value;
  }

  lemma {:induction false} LastOfPeriod(dep: Deployment, idx: Index, t: Header, k: nat, c: Header)
    requires dep.period > 0 && dep.bit < 32 && Closed(idx) && Filed(idx, t)
    requires k > 0 && t.height + 1 == Start(dep, k + 1)
    requires AncestorOf(idx, t, Start(dep, k) - 1) == Some(c) && Start(dep, k) > 0
    ensures PlainState(dep, idx, t) == Transition(dep, idx, PlainState(dep, idx, c), t)
    ensures CutState(dep, idx, t) ==
            if BoundaryTime(idx, t) < dep.startTime then INACTIVE else Transition(dep, idx, CutState(dep, idx, c), t)
    ensures PlainState(dep, idx, c).state != Defined ==> PlainState(dep, idx, t).state != Defined
  {
    var pb := PreviousBoundary(dep, idx, t);
    TransitionAdvances(dep, idx, PlainState(dep, idx, c), t);
  }

  /** The checker's shortcuts agree with the plain recursion on a branch exactly when, after a boundary has reached
      the start time, no later block of the branch falls back before it. */
  lemma {:induction false} AgreesExactlyWhen(dep: Deployment, idx: Index, tip: Header)
    requires dep.period > 0 && dep.bit < 32 && Closed(idx) && Filed(idx, tip)
    ensures AgreesBelow(dep, idx, tip) <==> CrossesOnce(dep, idx, tip)
    decreases tip.height
  {
    assert Linked(idx, tip.hash);
    if tip.height > 0 {
      assert Linked(idx, tip.prev);
      AgreesExactlyWhen(dep, idx, idx[tip.prev]);
      if CrossesOnce(dep, idx, idx[tip.prev]) {
        AgreesStep(dep, idx, tip);
      }
    } else {
      AgreesStep(dep, idx, tip);
    }
  }

  /** The rule on block times, kept by the branch alone, is enough. */
  lemma {:induction false} TimeRuleCrossesOnce(dep: Deployment, idx: Index, tip: Header)
    requires dep.period > 0 && Closed(idx) && Filed(idx, tip) && BranchAdvances(idx, tip)
    ensures CrossesOnce(dep, idx, tip)
    decreases tip.height
  {
    assert Linked(idx, tip.hash);
    var k := tip.height / dep.period;
    PeriodOf(dep, tip.height);
    if Start(dep, k) > 0 {
      MtpMonotone(idx, tip, Start(dep, k) - 1);
      BoundaryTimeIsMtp(idx, tip);
      BoundaryTimeIsMtp(idx, AncestorOf(idx, tip, Start(dep, k) - 1).value);
    }
    if tip.height > 0 {
      assert Linked(idx, tip.prev);
      TimeRuleCrossesOnce(dep, idx, idx[tip.prev]);
    }
  }

  /** So on a branch that keeps the rule the shortcuts agree, whatever other branches do. */
  lemma {:induction false} ShortcutsAgree(dep: Deployment, idx: Index, tip: Header)
    requires dep.period > 0 && dep.bit < 32 && Closed(idx) && Filed(idx, tip) && BranchAdvances(idx, tip)
    ensures AgreesBelow(dep, idx, tip)
  {
    TimeRuleCrossesOnce(dep, idx, tip);
    AgreesExactlyWhen(dep, idx, tip);
  }

  /** A branch that falls back before the start time: the boundaries saw the deployment start, and both the early stop
      and the fast path say it never did. */
  lemma {:induction false} FallsBack() returns (dep: Deployment, idx: Index, tip: Header)
    ensures dep.period > 0 && dep.bit < 32 && Closed(idx) && Filed(idx, tip) && !CrossesOnce(dep, idx, tip)
    ensures CutState(dep, idx, tip) != PlainState(dep, idx, tip)
    ensures CutActivation(dep, idx, tip.hash, tip.height + 1) != PlainActivation(dep, idx, tip.hash, tip.height + 1)
  {
    dep := Deployment(1, 0, 50, 5, 1000, 900, 999, 10);
    var a, b := Header(1, 0, 0, 0, 60), Header(2, 1, 1, 0, 10);
    tip := Header(3, 2, 2, 0, 10);
    idx := map[1 := a, 2 := b, 3 := tip];
    FallsBackTimes(idx, a, b, tip);
    assert PlainState(dep, idx, a).state == Started;
    assert PlainState(dep, idx, b).state == Started;
    assert Ancestor(idx, tip.prev, 1) == Some(b) && Ancestor(idx, tip.hash, 2) == Some(tip);
    AgreesExactlyWhen(dep, idx, tip);
  }

  lemma {:induction false} FallsBackTimes(idx: Index, a: Header, b: Header, c: Header)
    requires a == Header(1, 0, 0, 0, 60) && b == Header(2, 1, 1, 0, 10) && c == Header(3, 2, 2, 0, 10)
    requires idx == map[1 := a, 2 := b, 3 := c]
    ensures BoundaryTime(idx, a) == 60 && BoundaryTime(idx, b) == 60 && BoundaryTime(idx, c) == 10
  {
    assert Window(idx, 1, MEDIAN_SPAN) == [60];
    assert Window(idx, 2, MEDIAN_SPAN) == [10] + Window(idx, 1, MEDIAN_SPAN - 1) == [10, 60];
    assert Window(idx, 3, MEDIAN_SPAN) == [10] + Window(idx, 2, MEDIAN_SPAN - 1) == [10, 10, 60];
    SortedAlready([60]);
    SortedAlready([10, 60]);
    SortedAlready([10, 10, 60]);
  }

  /** What a period that starts at `start` may carry: the activation height is fixed by the lock-in period
      and the later states are exactly the stretches of height after it. */
  ghost predicate Shaped(dep: Deployment, a: Activation, start: nat)
  {
    match a.state
    case Defined => a.height == None
    case Started => a.height == None
    case LockedIn => a.height == Some(start + dep.period)
    case Active =>
      && a.height.Some? && a.height.value <= start
      && (start == a.height.value || start < SaturatingAdd(a.height.value, dep.activeDuration))
    case Expired =>
      && a.height.Some? && a.height.value < start
      && start >= SaturatingAdd(a.height.value, dep.activeDuration)
  }

  lemma {:induction false} TransitionShaped(dep: Deployment, idx: Index, a: Activation, b: Header, start: nat)
    requires dep.period > 0 && dep.bit < 32 && Shaped(dep, a, start) && b.height + 1 == start + dep.period
    ensures Shaped(dep, Transition(dep, idx, a, b), start + dep.period)
    ensures a.height.Some? ==> Transition(dep, idx, a, b).height == a.height
    ensures a.height.None? && Transition(dep, idx, a, b).height.Some? ==>
              Transition(dep, idx, a, b).height == Some(start + dep.period + dep.period)
  {}

  /** Consecutive periods: shape, step in rank, and what happens to the activation height. */
  ghost predicate Moves(dep: Deployment, a: Activation, b: Activation, k: nat)
  {
    && Shaped(dep, a, Start(dep, k)) && Shaped(dep, b, Start(dep, k + 1))
    && Rank(a.state) <= Rank(b.state) <= Rank(a.state) + 1
    && if a.height.Some? then b.height == a.height else b.height.None? || b.height == Some(Start(dep, k + 2))
  }

  /** A sequence of period states, from period 0, that moves as a branch does. */
  ghost predicate Run(dep: Deployment, run: seq<Activation>)
  {
    && |run| > 0 && run[0] == INACTIVE
    && forall i :: 0 < i < |run| ==> Moves(dep, run[i - 1], run[i], i - 1)
  }

  lemma {:induction false} TransitionMoves(dep: Deployment, idx: Index, a: Activation, b: Header, k: nat)
    requires dep.period > 0 && dep.bit < 32 && Shaped(dep, a, Start(dep, k)) && b.height + 1 == Start(dep, k + 1)
    ensures Moves(dep, a, Transition(dep, idx, a, b), k)
  {
    TransitionAdvances(dep, idx, a, b);
    TransitionShaped(dep, idx, a, b, Start(dep, k));
    assert Start(dep, k + 2) == Start(dep, k + 1) + dep.period;
  }

  /** The periods of every branch form such a run. */
  lemma {:induction false} BranchRun(dep: Deployment, idx: Index, tip: Header, n: nat) returns (run: seq<Activation>)
    requires dep.period > 0 && dep.bit < 32 && Closed(idx) && Filed(idx, tip) && Start(dep, n) - 1 <= tip.height
    ensures |run| == n + 1 && Run(dep, run)
    ensures forall k: nat :: k <= n ==> run[k] == PeriodState(dep, idx, tip, k)
  {
    if n == 0 {
      run := [INACTIVE];
    } else {
      var short := BranchRun(dep, idx, tip, n - 1);
      var last := short[n - 1];
      RunShaped(dep, short, n - 1);
      var next := NextPeriod(dep, idx, tip, n - 1, last);
      run := ExtendRun(dep, short, next);
      RunStates(dep, idx, tip, short, next, n);
    }
  }

  lemma {:induction false} RunStates(dep: Deployment, idx: Index, tip: Header, short: seq<Activation>, next: Activation,
                                     n: nat)
    requires dep.period > 0 && dep.bit < 32 && |short| == n && next == PeriodState(dep, idx, tip, n)
    requires forall k: nat :: k < n ==> short[k] == PeriodState(dep, idx, tip, k)
    ensures forall k: nat :: k <= n ==> (short + [next])[k] == PeriodState(dep, idx, tip, k)
  {}

  lemma {:induction false} NextPeriod(dep: Deployment, idx: Index, tip: Header, k: nat, a: Activation)
    returns (next: Activation)
    requires dep.period > 0 && dep.bit < 32 && Closed(idx) && Filed(idx, tip) && Start(dep, k + 1) - 1 <= tip.height
    requires a == PeriodState(dep, idx, tip, k) && Shaped(dep, a, Start(dep, k))
    ensures next == PeriodState(dep, idx, tip, k + 1) && Moves(dep, a, next, k)
  {
    var b := PeriodStep(dep, idx, tip, k);
    next := Transition(dep, idx, a, b);
    TransitionMoves(dep, idx, a, b, k);
  }

  lemma {:induction false} ExtendRun(dep: Deployment, run: seq<Activation>, next: Activation)
    returns (longer: seq<Activation>)
    requires Run(dep, run) && Moves(dep, run[|run| - 1], next, |run| - 1)
    ensures longer == run + [next] && Run(dep, longer)
  {
    longer := run + [next];
  }

  lemma {:induction false} RunAdvances(dep: Deployment, run: seq<Activation>, j: nat, k: nat)
    requires Run(dep, run) && j <= k < |run|
    ensures Rank(run[j].state) <= Rank(run[k].state) <= Rank(run[j].state) + (k - j)
    ensures run[j].height.Some? ==> run[k].height == run[j].height
    decreases k
  {
    if j < k {
      RunAdvances(dep, run, j, k - 1);
      assert Moves(dep, run[k - 1], run[k], k - 1);
    }
  }

  /** Along a branch the state never goes back, moves at most one step per period, and keeps the
      activation height once it has one. */
  lemma {:induction false} PeriodsAdvance(dep: Deployment, idx: Index, tip: Header, j: nat, k: nat)
    requires dep.period > 0 && dep.bit < 32 && Closed(idx) && Filed(idx, tip)
    requires j <= k && Start(dep, k) - 1 <= tip.height
    ensures var a, b := PeriodState(dep, idx, tip, j), PeriodState(dep, idx, tip, k);
            && Rank(a.state) <= Rank(b.state) <= Rank(a.state) + (k - j)
            && (a.height.Some? ==> b.height == a.height)
  {
    var run := BranchRun(dep, idx, tip, k);
    RunAdvances(dep, run, j, k);
  }

  /** An activation height that a later period has and an earlier one lacks is the start of a period at
      least two after the earlier one. */
  lemma {:induction false} LocksInLater(dep: Deployment, run: seq<Activation>, j: nat, k: nat) returns (m: nat)
    requires Run(dep, run) && j <= k < |run| && run[j].height == None && run[k].height.Some?
    ensures run[k].height == Some(Start(dep, m)) && m >= j + 2
    decreases k
  {
    assert Moves(dep, run[k - 1], run[k], k - 1);
    if run[k - 1].height.Some? {
      m := LocksInLater(dep, run, j, k - 1);
    } else {
      m := k + 1;
    }
  }

  lemma {:induction false} RunShaped(dep: Deployment, run: seq<Activation>, j: nat)
    requires Run(dep, run) && j < |run|
    ensures Shaped(dep, run[j], Start(dep, j))
  {
    assert j > 0 ==> Moves(dep, run[j - 1], run[j], j - 1);
  }

  /** In a run that has locked in, the enforced periods are the activation period and those after it that start before
      the active duration is over, as far as 32 bits hold its end. */
  lemma {:induction false} EnforcedPeriods(dep: Deployment, run: seq<Activation>, j: nat, k: nat) returns (m: nat)
    requires dep.period > 0 && Run(dep, run) && j <= k < |run| && run[k].height.Some?
    ensures run[k].height == Some(Start(dep, m))
    ensures Enforcing(run[j]) <==>
            m <= j && (j == m || Start(dep, j) < SaturatingAdd(Start(dep, m), dep.activeDuration))
  {
    RunShaped(dep, run, j);
    RunAdvances(dep, run, j, k);
    m := LocksInLater(dep, run, 0, k);
    if run[j].height == None {
      var m' := LocksInLater(dep, run, j, k);
      SameStart(dep, m, m');
    } else {
      StartReached(dep, m, j);
      StartReached(dep, j, m);
    }
  }

  lemma {:induction false} SameStart(dep: Deployment, m: nat, m': nat)
    requires dep.period > 0 && Start(dep, m) == Start(dep, m')
    ensures m == m'
  {
    StartReached(dep, m, m');
    StartReached(dep, m', m);
  }

  lemma {:induction false} StartReached(dep: Deployment, m: nat, j: nat)
    requires dep.period > 0
    ensures Start(dep, m) <= Start(dep, j) <==> m <= j
  {
    if m <= j {
      StartsOrdered(dep, m, j);
    } else {
      StartsOrdered(dep, j, m);
    }
  }

  /** A height in period `j` is under enforcement: it is in the activation period, or in a later one that starts before
      the active duration is over. The end is cut at the largest 32-bit number. */
  predicate InForce(dep: Deployment, a: nat, j: nat, height: nat)
  {
    a <= height && (height < a + dep.period || Start(dep, j) < SaturatingAdd(a, dep.activeDuration))
  }

  /** Once a branch has locked in with activation height `a`, `a` is a multiple of the period and every block of the
      branch, before or after, is under enforcement exactly where `a` puts it. */
  lemma {:induction false} EnforcementWindow(dep: Deployment, idx: Index, tip: Header, height: nat, a: nat, j: nat)
    requires dep.period > 0 && dep.bit < 32 && Closed(idx) && Filed(idx, tip) && 0 < height <= tip.height + 1
    requires PeriodState(dep, idx, tip, (tip.height + 1) / dep.period).height == Some(a)
    requires j == height / dep.period
    ensures exists m: nat :: a == m * dep.period
    ensures AncestorOf(idx, tip, height - 1).Some?
    ensures Enforcing(PlainActivation(dep, idx, AncestorOf(idx, tip, height - 1).value.hash, height)) <==>
            InForce(dep, a, j, height)
  {
    var k := (tip.height + 1) / dep.period;
    PeriodOf(dep, tip.height + 1);
    PeriodOf(dep, height);
    PeriodsOrdered(dep, j, k, height, tip.height + 1);
    BlockSeesPeriod(dep, idx, tip, height);
    var run := BranchRun(dep, idx, tip, k);
    var m := EnforcedPeriods(dep, run, j, k);
    StartIsMultiple(dep, m);
    HeightInPeriod(dep, m, j, height);
  }

  lemma {:induction false} HeightInPeriod(dep: Deployment, m: nat, j: nat, height: nat)
    requires dep.period > 0 && Start(dep, j) <= height < Start(dep, j) + dep.period
    ensures (Start(dep, m) <= height <==> m <= j) && (Start(dep, m) <= height < Start(dep, m) + dep.period <==> m == j)
  {
    HeightReaches(dep, m, j, height);
    HeightReaches(dep, m + 1, j, height);
  }

  /** Where the active duration is a whole number of periods and its end fits 32 bits, those are the heights from `a`
      for the active duration; where it does not fit, enforcement goes on to the last period that starts below the end
      of the 32-bit range. */
  lemma {:induction false} InForceWhen(dep: Deployment, a: nat, m: nat, d: nat, j: nat, height: nat)
    requires dep.period > 0 && a == Start(dep, m) && Start(dep, j) <= height < Start(dep, j) + dep.period
    ensures d > 0 && dep.activeDuration == Start(dep, d) && a + dep.activeDuration <= U32_MAX ==>
              (InForce(dep, a, j, height) <==> a <= height < a + dep.activeDuration)
    ensures a + dep.activeDuration > U32_MAX ==>
              (InForce(dep, a, j, height) <==> a <= height && (height < a + dep.period || Start(dep, j) < U32_MAX))
  {
    if d > 0 && dep.activeDuration == Start(dep, d) && a + dep.activeDuration <= U32_MAX {
      StartsAdd(dep, m, d);
      HeightReaches(dep, m + d, j, height);
      StartReached(dep, m + d, j);
      HeightReaches(dep, m + 1, j, height);
    }
  }

  lemma {:induction false} PeriodsOrdered(dep: Deployment, j: nat, k: nat, x: nat, y: nat)
    requires Start(dep, j) <= x <= y < Start(dep, k) + dep.period
    ensures j <= k
  {
    if k < j {
      StartsOrdered(dep, k, j);
    }
  }

  /** A height reaches a period's start exactly when its own period does. */
  lemma {:induction false} HeightReaches(dep: Deployment, m: nat, j: nat, height: nat)
    requires dep.period > 0 && Start(dep, j) <= height < Start(dep, j) + dep.period
    ensures Start(dep, m) <= height <==> m <= j
  {
    if m <= j {
      StartsOrdered(dep, m, j);
    } else {
      StartsOrdered(dep, j, m);
    }
  }

  // ----- The mandatory window

  /** A run of signalling headers is counted in full. */
  lemma {:induction false} AllSignal(dep: Deployment, idx: Index, b: Header, start: nat)
    requires dep.bit < 32 && Closed(idx) && Filed(idx, b) && start <= b.height
    requires forall h :: start <= h <= b.height ==>
               AncestorOf(idx, b, h).Some? && Signals(dep.bit, AncestorOf(idx, b, h).value.version)
    ensures SignalCount(dep.bit, idx, b, start) == b.height - start + 1
    decreases b.height
  {
    assert AncestorOf(idx, b, b.height) == Some(b);
    if b.height > start {
      assert Linked(idx, b.hash);
      assert Linked(idx, b.prev);
      forall h | start <= h <= b.height - 1
        ensures AncestorOf(idx, idx[b.prev], h).Some? && Signals(dep.bit, AncestorOf(idx, idx[b.prev], h).value.version)
      {
        assert AncestorOf(idx, b, h) == AncestorOf(idx, idx[b.prev], h);
      }
      AllSignal(dep, idx, idx[b.prev], start);
    }
  }

  /** The block at height `h` of the branch passes the mandatory-signalling check in state `a`. */
  ghost predicate PassesAt(dep: Deployment, idx: Index, tip: Header, a: Activation, h: nat)
    requires dep.bit < 32
  {
    AncestorOf(idx, tip, h).Some? && !ViolatesMandatorySignaling(dep, a, h, AncestorOf(idx, tip, h).value.version)
  }

  /** Every block of the branch in the window, which lies in period `k`, passed the check in its period's state. */
  ghost predicate WindowPassed(dep: Deployment, idx: Index, tip: Header, k: nat)
    requires dep.period > 0 && dep.bit < 32
  {
    forall h :: dep.windowLow <= h <= dep.windowHigh ==> PassesAt(dep, idx, tip, PeriodState(dep, idx, tip, k), h)
  }

  /** When the window is the whole period before the lock-in floor, a branch that is STARTED there and
      passed every check counts all its blocks as signals and locks in by the threshold, whatever the floor. */
  lemma {:induction false} WindowLocksIn(dep: Deployment, idx: Index, tip: Header, k: nat)
    requires dep.period > 0 && dep.bit < 32 && Closed(idx) && Filed(idx, tip)
    requires dep.threshold <= dep.period && dep.lockInFloor == Start(dep, k + 1)
    requires dep.windowLow == Start(dep, k) && dep.windowHigh == dep.lockInFloor - 1 && dep.windowHigh <= tip.height
    requires WindowPassed(dep, idx, tip, k)
    requires PeriodState(dep, idx, tip, k).state == Started
    ensures AncestorOf(idx, tip, dep.windowHigh).Some?
    ensures SignalCount(dep.bit, idx, AncestorOf(idx, tip, dep.windowHigh).value, dep.windowLow) == dep.period
    ensures PeriodState(dep, idx, tip, k + 1) == Activation(LockedIn, Some(dep.lockInFloor + dep.period))
    ensures forall floor: nat ::
              Transition(dep.(lockInFloor := floor), idx, PeriodState(dep, idx, tip, k),
                         AncestorOf(idx, tip, dep.windowHigh).value) == PeriodState(dep, idx, tip, k + 1)
  {
    var b := PeriodStep(dep, idx, tip, k);
    WindowSignals(dep, idx, tip, k, b);
    AllSignal(dep, idx, b, Start(dep, k));
  }

  lemma {:induction false} WindowSignals(dep: Deployment, idx: Index, tip: Header, k: nat, b: Header)
    requires dep.period > 0 && dep.bit < 32 && Closed(idx) && Filed(idx, tip)
    requires dep.windowLow == Start(dep, k) && dep.windowHigh == Start(dep, k + 1) - 1 && dep.windowHigh <= tip.height
    requires WindowPassed(dep, idx, tip, k) && PeriodState(dep, idx, tip, k).state == Started
    requires AncestorOf(idx, tip, dep.windowHigh) == Some(b) && b.height == dep.windowHigh
    ensures forall h :: Start(dep, k) <= h <= b.height ==>
              AncestorOf(idx, b, h).Some? && Signals(dep.bit, AncestorOf(idx, b, h).value.version)
  {
    forall h | Start(dep, k) <= h <= b.height
      ensures AncestorOf(idx, b, h).Some? && Signals(dep.bit, AncestorOf(idx, b, h).value.version)
    {
      AncestorTransitive(idx, tip, b.height, h);
      assert PassesAt(dep, idx, tip, PeriodState(dep, idx, tip, k), h);
    }
  }

  // ----- The same for what the checker answers

  /** What the checker answers for the block at height `h` of the branch that ends in `tip`. */
  function Seen(dep: Deployment, idx: Index, tip: Header, h: nat): Activation
    requires dep.period > 0 && dep.bit < 32 && h > 0
  {
    match AncestorOf(idx, tip, h - 1)
    case Some(p) => CutActivation(dep, idx, p.hash, h)
    case None => INACTIVE
  }

  /** On a branch that crosses the start time once every block sees the state of its period. */
  lemma {:induction false} SeenIsPeriod(dep: Deployment, idx: Index, tip: Header, h: nat)
    requires dep.period > 0 && dep.bit < 32 && Closed(idx) && Filed(idx, tip) && 0 < h <= tip.height + 1
    requires CrossesOnce(dep, idx, tip)
    ensures Seen(dep, idx, tip, h) == PeriodState(dep, idx, tip, h / dep.period)
  {
    CrossesBelow(dep, idx, tip, h - 1);
    AncestorExists(idx, tip, h - 1);
    AgreesExactlyWhen(dep, idx, AncestorOf(idx, tip, h - 1).value);
    BlockSeesPeriod(dep, idx, tip, h);
  }

  lemma {:induction false} SeenIn(dep: Deployment, idx: Index, tip: Header, h: nat, k: nat)
    requires dep.period > 0 && dep.bit < 32 && Closed(idx) && Filed(idx, tip) && 0 < h <= tip.height + 1
    requires CrossesOnce(dep, idx, tip) && Start(dep, k) <= h < Start(dep, k) + dep.period
    ensures Seen(dep, idx, tip, h) == PeriodState(dep, idx, tip, k)
  {
    PeriodIs(dep, h, k);
    SeenIsPeriod(dep, idx, tip, h);
  }

  /** From block to block, in periods `k` and `k'`, the answers move at most one step per period, never back, and an
      activation height stays. */
  lemma {:induction false} SeenAdvances(dep: Deployment, idx: Index, tip: Header, h: nat, k: nat, h': nat, k': nat)
    requires dep.period > 0 && dep.bit < 32 && Closed(idx) && Filed(idx, tip) && CrossesOnce(dep, idx, tip)
    requires 0 < h <= h' <= tip.height + 1
    requires Start(dep, k) <= h < Start(dep, k) + dep.period && Start(dep, k') <= h' < Start(dep, k') + dep.period
    ensures k <= k'
    ensures Rank(Seen(dep, idx, tip, h).state) <= Rank(Seen(dep, idx, tip, h').state) <=
            Rank(Seen(dep, idx, tip, h).state) + (k' - k)
    ensures Seen(dep, idx, tip, h).height.Some? ==> Seen(dep, idx, tip, h').height == Seen(dep, idx, tip, h).height
  {
    SeenIn(dep, idx, tip, h, k);
    SeenIn(dep, idx, tip, h', k');
    PeriodsOrdered(dep, k, k', h, h');
    PeriodsAdvance(dep, idx, tip, k, k');
  }

  /** Once the checker answers with activation height `a`, it answers for every block of the branch, before or after,
      that the rules are enforced exactly where `a` puts it. */
  lemma {:induction false} EnforcementSeen(dep: Deployment, idx: Index, tip: Header, height: nat, a: nat, j: nat)
    requires dep.period > 0 && dep.bit < 32 && Closed(idx) && Filed(idx, tip) && 0 < height <= tip.height + 1
    requires CrossesOnce(dep, idx, tip) && Seen(dep, idx, tip, tip.height + 1).height == Some(a)
    requires j == height / dep.period
    ensures exists m: nat :: a == m * dep.period
    ensures Enforcing(Seen(dep, idx, tip, height)) <==> InForce(dep, a, j, height)
  {
    SeenIsPeriod(dep, idx, tip, tip.height + 1);
    SeenIsPeriod(dep, idx, tip, height);
    BlockSeesPeriod(dep, idx, tip, height);
    EnforcementWindow(dep, idx, tip, height, a, j);
  }

  /** Every block of the branch in the window passed the check with the checker's answer. */
  ghost predicate SeenPassed(dep: Deployment, idx: Index, tip: Header)
    requires dep.period > 0 && dep.bit < 32
  {
    forall h :: 0 < h && dep.windowLow <= h <= dep.windowHigh ==> PassesAt(dep, idx, tip, Seen(dep, idx, tip, h), h)
  }

  lemma {:induction false} SeenWindow(dep: Deployment, idx: Index, tip: Header, k: nat)
    requires dep.period > 0 && dep.bit < 32 && Closed(idx) && Filed(idx, tip) && CrossesOnce(dep, idx, tip)
    requires SeenPassed(dep, idx, tip) && 0 < dep.windowLow && dep.windowHigh <= tip.height
    requires dep.windowLow == Start(dep, k) && dep.windowHigh < Start(dep, k) + dep.period
    ensures WindowPassed(dep, idx, tip, k)
  {
    forall h | dep.windowLow <= h <= dep.windowHigh
      ensures PassesAt(dep, idx, tip, PeriodState(dep, idx, tip, k), h)
    {
      SeenIn(dep, idx, tip, h, k);
      assert PassesAt(dep, idx, tip, Seen(dep, idx, tip, h), h);
    }
  }

  /** If the checker answers STARTED in the window and every block passes with its answer, all of them count as signals
      and it answers LOCKED IN after the window. */
  lemma {:induction false} WindowLocksInSeen(dep: Deployment, idx: Index, tip: Header, k: nat)
    requires dep.period > 0 && dep.bit < 32 && Closed(idx) && Filed(idx, tip) && CrossesOnce(dep, idx, tip)
    requires dep.threshold <= dep.period && dep.lockInFloor == Start(dep, k + 1) && Start(dep, k) > 0
    requires dep.windowLow == Start(dep, k) && dep.windowHigh == dep.lockInFloor - 1 && dep.windowHigh <= tip.height
    requires SeenPassed(dep, idx, tip) && Seen(dep, idx, tip, dep.windowLow).state == Started
    ensures Seen(dep, idx, tip, dep.lockInFloor) == Activation(LockedIn, Some(dep.lockInFloor + dep.period))
    ensures AncestorOf(idx, tip, dep.windowHigh).Some?
    ensures SignalCount(dep.bit, idx, AncestorOf(idx, tip, dep.windowHigh).value, dep.windowLow) == dep.period
  {
    SeenIn(dep, idx, tip, dep.windowLow, k);
    SeenIn(dep, idx, tip, dep.lockInFloor, k + 1);
    SeenWindow(dep, idx, tip, k);
    WindowLocksIn(dep, idx, tip, k);
  }
}
