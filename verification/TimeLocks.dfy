/** nLockTime finality and BIP 68 relative locks. */
module TimeLocks {
  import opened Bytes
  import opened Transactions

  const LOCKTIME_THRESHOLD: nat := 500_000_000

  /** nLockTime is zero, passed, or switched off by every input. */
  predicate IsFinalTx(tx: Tx, height: nat, time: nat)
  {
    || tx.lockTime == 0
    || tx.lockTime < (if tx.lockTime < LOCKTIME_THRESHOLD then height else time)
    || forall i :: 0 <= i < |tx.inputs| ==> tx.inputs[i].sequence == 0xffff_ffff
  }

  predicate LockDisabled(sequence: nat)
  {
    sequence / 0x8000_0000 % 2 == 1
  }

  predicate IsTimeLock(sequence: nat)
  {
    sequence / 0x40_0000 % 2 == 1
  }

  /** The length of the lock: blocks, or units of 512 seconds. */
  function Masked(sequence: nat): nat
  {
    sequence % 0x1_0000
  }

  /** Entry `i`, or zero past the end. */
  function Entry(s: seq<nat>, i: nat): nat
  {
    if i < |s| then s[i] else 0
  }

  /** A 32-bit sum, which wraps around. */
  function Sum32(a: nat, b: nat): nat
  {
    (a + b) % U32
  }

  /** What BIP 68 asks for: the height, or the time, at which input `i`'s relative lock opens. */
  function TrueOpens(tx: Tx, heights: seq<nat>, times: seq<nat>, i: nat): nat
    requires i < |tx.inputs|
  {
    var masked := Masked(tx.inputs[i].sequence);
    if IsTimeLock(tx.inputs[i].sequence) then Entry(times, i) + masked * 512 else Entry(heights, i) + masked
  }

  /** The same as a 32-bit number. */
  function Opens(tx: Tx, heights: seq<nat>, times: seq<nat>, i: nat): nat
    requires i < |tx.inputs|
  {
    TrueOpens(tx, heights, times, i) % U32
  }

  predicate InputUnlocked(tx: Tx, heights: seq<nat>, times: seq<nat>, height: nat, mtp: nat, i: nat)
    requires i < |tx.inputs|
  {
    || LockDisabled(tx.inputs[i].sequence)
    || Opens(tx, heights, times, i) <= if IsTimeLock(tx.inputs[i].sequence) then mtp else height
  }

  /** The first `n` inputs are unlocked. */
  predicate Unlocked(tx: Tx, heights: seq<nat>, times: seq<nat>, n: nat, height: nat, mtp: nat)
    requires n <= |tx.inputs|
  {
    forall i :: 0 <= i < n ==> InputUnlocked(tx, heights, times, height, mtp, i)
  }

  predicate LocksOpen(tx: Tx, heights: seq<nat>, times: seq<nat>, height: nat, mtp: nat)
  {
    tx.version < 2 || Unlocked(tx, heights, times, |tx.inputs|, height, mtp)
  }

  method ValidateSequenceLocks(tx: Tx, heights: seq<nat>, times: seq<nat>, height: nat, mtp: nat) returns (ok: bool)
    ensures ok <==> LocksOpen(tx, heights, times, height, mtp)
  {
    if tx.version < 2 {
      return true;
    }
    var i := 0;
    while i < |tx.inputs|
      invariant 0 <= i <= |tx.inputs|
      invariant forall j :: 0 <= j < i ==> InputUnlocked(tx, heights, times, height, mtp, j)
    {
      var sequence := tx.inputs[i].sequence;
      if !LockDisabled(sequence) {
        var masked := Masked(sequence);
        if IsTimeLock(sequence) {
          if mtp < Sum32(Entry(times, i), masked * 512) {
            assert !InputUnlocked(tx, heights, times, height, mtp, i);
            return false;
          }
        } else if height < Sum32(Entry(heights, i), masked) {
          assert !InputUnlocked(tx, heights, times, height, mtp, i);
          return false;
        }
      }
      i := i + 1;
    }
    return true;
  }

  /** The locks are open exactly from the lock point on. */
  ghost predicate IsLockPoint(tx: Tx, heights: seq<nat>, times: seq<nat>, n: nat, minHeight: nat, minTime: nat)
    requires n <= |tx.inputs|
  {
    forall height: nat, mtp: nat ::
      Unlocked(tx, heights, times, n, height, mtp) <==> minHeight <= height && minTime <= mtp
  }

  /** The least height and the least median-time-past at which every relative lock is open. */
  method SequenceLockPoints(tx: Tx, heights: seq<nat>, times: seq<nat>) returns (minHeight: nat, minTime: nat)
    ensures forall height: nat, mtp: nat ::
              LocksOpen(tx, heights, times, height, mtp) <==> minHeight <= height && minTime <= mtp
  {
    minHeight, minTime := 0, 0;
    if tx.version < 2 {
      return;
    }
    var i := 0;
    while i < |tx.inputs|
      invariant 0 <= i <= |tx.inputs|
      invariant IsLockPoint(tx, heights, times, i, minHeight, minTime)
    {
      var sequence := tx.inputs[i].sequence;
      ghost var h, t := minHeight, minTime;
      if !LockDisabled(sequence) {
        var masked := Masked(sequence);
        if IsTimeLock(sequence) {
          var required := Sum32(Entry(times, i), masked * 512);
          minTime := if required > minTime then required else minTime;
        } else {
          var required := Sum32(Entry(heights, i), masked);
          minHeight := if required > minHeight then required else minHeight;
        }
      }
      LockPointStep(tx, heights, times, i, h, t, minHeight, minTime);
      i := i + 1;
    }
  }

  lemma {:induction false} LockPointStep(tx: Tx, heights: seq<nat>, times: seq<nat>, n: nat, h: nat, t: nat, h': nat,
                                         t': nat)
    requires n < |tx.inputs| && IsLockPoint(tx, heights, times, n, h, t)
    requires h <= h' && t <= t'
    requires forall height: nat, mtp: nat :: h <= height && t <= mtp ==>
               (InputUnlocked(tx, heights, times, height, mtp, n) <==> h' <= height && t' <= mtp)
    ensures IsLockPoint(tx, heights, times, n + 1, h', t')
  {
    var m := n + 1;
    forall height: nat, mtp: nat
      ensures Unlocked(tx, heights, times, m, height, mtp) <==> h' <= height && t' <= mtp
    {
      OneMoreInput(tx, heights, times, n, height, mtp);
      assert Unlocked(tx, heights, times, n, height, mtp) <==> h <= height && t <= mtp;
    }
  }

  lemma {:induction false} OneMoreInput(tx: Tx, heights: seq<nat>, times: seq<nat>, n: nat, height: nat, mtp: nat)
    requires n < |tx.inputs|
    ensures Unlocked(tx, heights, times, n + 1, height, mtp) <==>
            Unlocked(tx, heights, times, n, height, mtp) && InputUnlocked(tx, heights, times, height, mtp, n)
  {}

  /** A transaction that is final stays final as height and time advance. */
  lemma {:induction false} FinalStaysFinal(tx: Tx, height: nat, time: nat, height': nat, time': nat)
    requires IsFinalTx(tx, height, time) && height <= height' && time <= time'
    ensures IsFinalTx(tx, height', time')
  {}

  /** BIP 68 proper, without a word size. */
  predicate TrueUnlocked(tx: Tx, heights: seq<nat>, times: seq<nat>, height: nat, mtp: nat, i: nat)
    requires i < |tx.inputs|
  {
    || LockDisabled(tx.inputs[i].sequence)
    || TrueOpens(tx, heights, times, i) <= if IsTimeLock(tx.inputs[i].sequence) then mtp else height
  }

  predicate TrueLocksOpen(tx: Tx, heights: seq<nat>, times: seq<nat>, height: nat, mtp: nat)
  {
    tx.version < 2 || forall i :: 0 <= i < |tx.inputs| ==> TrueUnlocked(tx, heights, times, height, mtp, i)
  }

  /** The sum of an enabled lock does not fit the word. */
  predicate Wraps(tx: Tx, heights: seq<nat>, times: seq<nat>, i: nat)
    requires i < |tx.inputs|
  {
    !LockDisabled(tx.inputs[i].sequence) && TrueOpens(tx, heights, times, i) >= U32
  }

  lemma {:induction false} WrapsAt(tx: Tx, heights: seq<nat>, times: seq<nat>, height: nat, mtp: nat, i: nat)
    requires i < |tx.inputs| && height < U32 && mtp < U32
    ensures TrueUnlocked(tx, heights, times, height, mtp, i) <==>
            InputUnlocked(tx, heights, times, height, mtp, i) && !Wraps(tx, heights, times, i)
  {
    assert Opens(tx, heights, times, i) <= TrueOpens(tx, heights, times, i);
  }

  /** The word size shuts no lock. It decides every height and time as BIP 68 does exactly when no sum wraps. */
  lemma {:induction false} WrapsExactlyWhen(tx: Tx, heights: seq<nat>, times: seq<nat>)
    ensures forall height: nat, mtp: nat ::
              TrueLocksOpen(tx, heights, times, height, mtp) ==> LocksOpen(tx, heights, times, height, mtp)
    ensures (forall height: nat, mtp: nat :: height < U32 && mtp < U32 ==>
               (LocksOpen(tx, heights, times, height, mtp) <==> TrueLocksOpen(tx, heights, times, height, mtp))) <==>
            tx.version < 2 || forall i :: 0 <= i < |tx.inputs| ==> !Wraps(tx, heights, times, i)
  {
    forall height: nat, mtp: nat
      ensures TrueLocksOpen(tx, heights, times, height, mtp) ==> LocksOpen(tx, heights, times, height, mtp)
      ensures height < U32 && mtp < U32 && NoneWraps(tx, heights, times) ==>
                (LocksOpen(tx, heights, times, height, mtp) <==> TrueLocksOpen(tx, heights, times, height, mtp))
    {
      WordShutsNothing(tx, heights, times, height, mtp);
    }
    var last: nat := U32 - 1;
    if tx.version >= 2 && !NoneWraps(tx, heights, times) {
      LastHeight(tx, heights, times, last);
    }
  }

  predicate NoneWraps(tx: Tx, heights: seq<nat>, times: seq<nat>)
  {
    tx.version < 2 || forall i :: 0 <= i < |tx.inputs| ==> !Wraps(tx, heights, times, i)
  }

  lemma {:induction false} WordShutsNothing(tx: Tx, heights: seq<nat>, times: seq<nat>, height: nat, mtp: nat)
    ensures TrueLocksOpen(tx, heights, times, height, mtp) ==> LocksOpen(tx, heights, times, height, mtp)
    ensures height < U32 && mtp < U32 && NoneWraps(tx, heights, times) ==>
              (LocksOpen(tx, heights, times, height, mtp) <==> TrueLocksOpen(tx, heights, times, height, mtp))
  {
    forall i | 0 <= i < |tx.inputs|
      ensures TrueUnlocked(tx, heights, times, height, mtp, i) ==> InputUnlocked(tx, heights, times, height, mtp, i)
      ensures height < U32 && mtp < U32 ==>
                (TrueUnlocked(tx, heights, times, height, mtp, i) <==>
                 InputUnlocked(tx, heights, times, height, mtp, i) && !Wraps(tx, heights, times, i))
    {
      assert Opens(tx, heights, times, i) <= TrueOpens(tx, heights, times, i);
      if height < U32 && mtp < U32 {
        WrapsAt(tx, heights, times, height, mtp, i);
      }
    }
  }

  /** At the last height and time every sum counts as reached. */
  lemma {:induction false} LastHeight(tx: Tx, heights: seq<nat>, times: seq<nat>, last: nat)
    requires last == U32 - 1 && tx.version >= 2 && !NoneWraps(tx, heights, times)
    ensures LocksOpen(tx, heights, times, last, last) && !TrueLocksOpen(tx, heights, times, last, last)
  {
    var i :| 0 <= i < |tx.inputs| && Wraps(tx, heights, times, i);
    WrapsAt(tx, heights, times, last, last, i);
  }

  /** A lock on a coin of February 2106 that the sum opens at once. */
  lemma {:induction false} WrapOpensEarly() returns (tx: Tx, heights: seq<nat>, times: seq<nat>, height: nat, mtp: nat)
    ensures height < U32 && mtp < U32 && |tx.inputs| == |heights| == |times| == 1 && heights[0] < U32 && times[0] < U32
    ensures LocksOpen(tx, heights, times, height, mtp) && !TrueUnlocked(tx, heights, times, height, mtp, 0)
  {
    tx := Tx(1, 2, 0, [TxIn(OutPoint(1, 0), 0x40_0001)], [], 0, 0);
    heights, times, height, mtp := [1], [U32 - 1], 2, U32 - 1;
    assert TrueOpens(tx, heights, times, 0) == U32 + 511;
    assert Opens(tx, heights, times, 0) == 511;
    assert InputUnlocked(tx, heights, times, height, mtp, 0);
  }
}
