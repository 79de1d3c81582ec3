/** Transactions, blocks and coins, and the context-free transaction checks. */
module Transactions {
  import opened Bytes

  type Txid = nat

  type Script = seq<Byte>

  datatype OutPoint = OutPoint(txid: Txid, vout: nat)

  datatype TxIn = TxIn(prev: OutPoint, sequence: nat)

  datatype TxOut = TxOut(value: nat, script: Script)

  datatype Tx = Tx(
    txid: Txid, version: int, lockTime: nat, inputs: seq<TxIn>, outputs: seq<TxOut>, weight: nat, size: nat)

  datatype Block = Block(hash: nat, prev: nat, txs: seq<Tx>)

  /** An unspent output. */
  datatype Coin = Coin(amount: nat, script: Script, height: nat, isCoinbase: bool)

  type Utxos = map<OutPoint, Coin>

  const MAX_MONEY: nat := 21_000_000 * 100_000_000

  const NULL_OUTPOINT := OutPoint(0, 0xffff_ffff)

  predicate IsCoinbase(tx: Tx)
  {
    |tx.inputs| == 1 && tx.inputs[0].prev == NULL_OUTPOINT
  }

  /** Provably unspendable: the script starts with OP_RETURN. */
  predicate IsOpReturn(s: Script)
  {
    |s| > 0 && s[0] == 0x6a
  }

  /** The outpoints a list of inputs spends. */
  function PrevoutSet(inputs: seq<TxIn>): set<OutPoint>
  {
    if |inputs| == 0 then {} else PrevoutSet(inputs[..|inputs| - 1]) + {inputs[|inputs| - 1].prev}
  }

  function Prevouts(tx: Tx): set<OutPoint>
  {
    PrevoutSet(tx.inputs)
  }

  /** No two inputs spend the same outpoint. */
  predicate DistinctInputs(inputs: seq<TxIn>)
  {
    |inputs| == 0 ||
    (DistinctInputs(inputs[..|inputs| - 1]) && inputs[|inputs| - 1].prev !in PrevoutSet(inputs[..|inputs| - 1]))
  }

  lemma {:induction false} OnePrevout(inputs: seq<TxIn>)
    requires |inputs| == 1
    ensures PrevoutSet(inputs) == {inputs[0].prev} && DistinctInputs(inputs)
  {
    assert inputs[..0] == [];
  }

  lemma {:induction false} PrevoutsAre(inputs: seq<TxIn>)
    ensures forall op :: op in PrevoutSet(inputs) <==> exists i :: 0 <= i < |inputs| && inputs[i].prev == op
  {
    var n := |inputs|;
    if n > 0 {
      var front := inputs[..n - 1];
      PrevoutsAre(front);
      forall op | op in PrevoutSet(inputs)
        ensures exists i :: 0 <= i < n && inputs[i].prev == op
      {
        if op in PrevoutSet(front) {
          var i :| 0 <= i < |front| && front[i].prev == op;
          assert inputs[i].prev == op;
        } else {
          assert inputs[n - 1].prev == op;
        }
      }
      forall i | 0 <= i < n
        ensures inputs[i].prev in PrevoutSet(inputs)
      {
        assert i < n - 1 ==> front[i] == inputs[i];
      }
    }
  }

  lemma {:induction false} DistinctPrefix(inputs: seq<TxIn>, i: nat)
    requires i <= |inputs|
    ensures DistinctInputs(inputs) ==> DistinctInputs(inputs[..i])
    ensures PrevoutSet(inputs[..i]) <= PrevoutSet(inputs)
  {
    if i < |inputs| {
      DistinctPrefix(inputs[..|inputs| - 1], i);
      assert inputs[..|inputs| - 1][..i] == inputs[..i];
    } else {
      assert inputs[..i] == inputs;
    }
  }

  function SumOutputs(outputs: seq<TxOut>): nat
  {
    if |outputs| == 0 then 0 else SumOutputs(outputs[..|outputs| - 1]) + outputs[|outputs| - 1].value
  }

  /** What the context-free check demands. */
  ghost predicate WellFormed(tx: Tx)
  {
    && |tx.inputs| > 0 && |tx.outputs| > 0
    && SumOutputs(tx.outputs) <= MAX_MONEY
    && DistinctInputs(tx.inputs)
    && (!IsCoinbase(tx) ==> NULL_OUTPOINT !in Prevouts(tx))
  }

  lemma {:induction false} EachAtMostSum(outputs: seq<TxOut>, i: nat)
    requires i < |outputs|
    ensures outputs[i].value <= SumOutputs(outputs)
    ensures SumOutputs(outputs[..i + 1]) <= SumOutputs(outputs)
  {
    var n := |outputs| - 1;
    if i < n {
      EachAtMostSum(outputs[..n], i);
      assert outputs[..n][..i + 1] == outputs[..i + 1];
    } else {
      assert outputs[..i + 1] == outputs;
    }
  }

  // ----- Duplicate inputs

  function Prevs(inputs: seq<TxIn>): (r: seq<OutPoint>)
    ensures |r| == |inputs| && forall i :: 0 <= i < |r| ==> r[i] == inputs[i].prev
  {
    if |inputs| == 0 then [] else [inputs[0].prev] + Prevs(inputs[1..])
  }

  predicate NoRepeat(s: seq<OutPoint>)
  {
    |s| == 0 || (s[0] !in s[1..] && NoRepeat(s[1..]))
  }

  lemma {:induction false} NoRepeatCons(x: OutPoint, s: seq<OutPoint>)
    ensures NoRepeat([x] + s) <==> x !in s && NoRepeat(s)
  {
    assert ([x] + s)[1..] == s;
  }

  lemma {:induction false} NoRepeatSnoc(s: seq<OutPoint>, x: OutPoint)
    ensures NoRepeat(s + [x]) <==> x !in s && NoRepeat(s)
  {
    if |s| == 0 {
      assert s + [x] == [x];
    } else {
      NoRepeatSnoc(s[1..], x);
      assert (s + [x])[1..] == s[1..] + [x];
      assert s == [s[0]] + s[1..];
    }
  }

  lemma {:induction false} PrevsAre(inputs: seq<TxIn>, op: OutPoint)
    ensures op in Prevs(inputs) <==> op in PrevoutSet(inputs)
  {
    PrevoutsAre(inputs);
    var prevs := Prevs(inputs);
    if op in prevs {
      var i :| 0 <= i < |prevs| && prevs[i] == op;
      assert inputs[i].prev == op;
    }
    if op in PrevoutSet(inputs) {
      var i :| 0 <= i < |inputs| && inputs[i].prev == op;
      assert prevs[i] == op;
    }
  }

  /** Distinctness of the inputs is that the list of what they spend repeats nothing. */
  lemma {:induction false} DistinctIsNoRepeat(inputs: seq<TxIn>)
    ensures DistinctInputs(inputs) <==> NoRepeat(Prevs(inputs))
  {
    var n := |inputs| - 1;
    if n >= 0 {
      var front, last := inputs[..n], inputs[n].prev;
      DistinctIsNoRepeat(front);
      PrevsAre(front, last);
      NoRepeatSnoc(Prevs(front), last);
      PrevsSnoc(front, last, Prevs(inputs));
    }
  }

  lemma {:induction false} PrevsSnoc(front: seq<TxIn>, last: OutPoint, all: seq<OutPoint>)
    requires |all| == |front| + 1 && all[|front|] == last && forall i :: 0 <= i < |front| ==> all[i] == front[i].prev
    ensures all == Prevs(front) + [last]
  {}

  /** The order of outpoints: by transaction, then by position. */
  predicate AtMost(a: OutPoint, b: OutPoint)
  {
    a.txid < b.txid || (a.txid == b.txid && a.vout <= b.vout)
  }

  predicate Ascending(s: seq<OutPoint>)
  {
    |s| <= 1 || (AtMost(s[0], s[1]) && Ascending(s[1..]))
  }

  function InsertOp(x: OutPoint, s: seq<OutPoint>): seq<OutPoint>
  {
    if |s| == 0 then [x]
    else if AtMost(x, s[0]) then [x] + s
    else [s[0]] + InsertOp(x, s[1..])
  }

  function SortOps(s: seq<OutPoint>): seq<OutPoint>
  {
    if |s| == 0 then [] else InsertOp(s[0], SortOps(s[1..]))
  }

  lemma {:induction false} InsertMembers(x: OutPoint, s: seq<OutPoint>, y: OutPoint)
    ensures y in InsertOp(x, s) <==> y == x || y in s
  {
    if |s| > 0 {
      InsertMembers(x, s[1..], y);
      assert s == [s[0]] + s[1..];
    }
  }

  lemma {:induction false} SortMembers(s: seq<OutPoint>, y: OutPoint)
    ensures y in SortOps(s) <==> y in s
  {
    if |s| > 0 {
      SortMembers(s[1..], y);
      InsertMembers(s[0], SortOps(s[1..]), y);
      assert s == [s[0]] + s[1..];
    }
  }

  lemma {:induction false} InsertAscends(x: OutPoint, s: seq<OutPoint>)
    requires Ascending(s)
    ensures Ascending(InsertOp(x, s))
  {
    if |s| > 0 && !AtMost(x, s[0]) {
      InsertAscends(x, s[1..]);
      var all := InsertOp(x, s);
      assert all[1..] == InsertOp(x, s[1..]);
    } else {
      assert ([x] + s)[1..] == s;
    }
  }

  lemma {:induction false} InsertKeeps(x: OutPoint, s: seq<OutPoint>)
    ensures NoRepeat(InsertOp(x, s)) <==> x !in s && NoRepeat(s)
  {
    if |s| == 0 || AtMost(x, s[0]) {
      NoRepeatCons(x, s);
    } else {
      InsertKeeps(x, s[1..]);
      NoRepeatCons(s[0], InsertOp(x, s[1..]));
      InsertMembers(x, s[1..], s[0]);
      assert s == [s[0]] + s[1..];
    }
  }

  lemma {:induction false} SortKeeps(s: seq<OutPoint>)
    ensures Ascending(SortOps(s)) && (NoRepeat(SortOps(s)) <==> NoRepeat(s))
  {
    if |s| > 0 {
      SortKeeps(s[1..]);
      InsertAscends(s[0], SortOps(s[1..]));
      InsertKeeps(s[0], SortOps(s[1..]));
      SortMembers(s[1..], s[0]);
    }
  }

  lemma {:induction false} FirstIsLeast(s: seq<OutPoint>, x: OutPoint)
    requires |s| > 0 && Ascending(s) && x in s
    ensures AtMost(s[0], x)
  {
    if x != s[0] {
      assert s == [s[0]] + s[1..];
      FirstIsLeast(s[1..], x);
    }
  }

  ghost predicate EqualNeighbours(s: seq<OutPoint>)
  {
    exists i :: 0 < i < |s| && s[i - 1] == s[i]
  }

  /** In an ascending list repetitions are next to each other. */
  lemma {:induction false} NeighboursDecide(s: seq<OutPoint>)
    requires Ascending(s)
    ensures NoRepeat(s) <==> !EqualNeighbours(s)
  {
    if |s| > 1 {
      var rest := s[1..];
      NeighboursDecide(rest);
      if s[0] in rest {
        FirstIsLeast(rest, s[0]);
        assert s[1 - 1] == s[1];
      }
      if EqualNeighbours(rest) {
        var i :| 0 < i < |rest| && rest[i - 1] == rest[i];
        assert s[i + 1 - 1] == s[i + 1];
      }
      if EqualNeighbours(s) {
        var i :| 0 < i < |s| && s[i - 1] == s[i];
        assert i > 1 ==> rest[i - 1 - 1] == rest[i - 1];
      }
    }
  }

  method NeighboursEqual(s: seq<OutPoint>) returns (r: bool)
    ensures r <==> EqualNeighbours(s)
  {
    var k := 1;
    while k < |s|
      invariant 1 <= k && forall i :: 0 < i < k && i < |s| ==> s[i - 1] != s[i]
    {
      if s[k - 1] == s[k] {
        return true;
      }
      k := k + 1;
    }
    return false;
  }

  method SeenTwice(inputs: seq<TxIn>) returns (dup: bool)
    ensures dup <==> !DistinctInputs(inputs)
  {
    var seen: set<OutPoint> := {};
    var i := 0;
    while i < |inputs|
      invariant 0 <= i <= |inputs|
      invariant seen == PrevoutSet(inputs[..i]) && DistinctInputs(inputs[..i])
    {
      var prev := inputs[i].prev;
      assert inputs[..i + 1][..i] == inputs[..i];
      DistinctPrefix(inputs, i + 1);
      if prev in seen {
        return true;
      }
      seen := seen + {prev};
      i := i + 1;
    }
    assert inputs[..i] == inputs;
    return false;
  }

  lemma {:induction false} FewDecide(s: seq<OutPoint>)
    requires |s| <= 2
    ensures NoRepeat(s) <==> |s| < 2 || s[0] != s[1]
  {
    if |s| > 0 {
      assert s == [s[0]] + s[1..];
      NoRepeatCons(s[0], s[1..]);
    }
    if |s| == 2 {
      assert s[1..] == [s[1]] + [];
      NoRepeatCons(s[1], []);
    }
  }

  const SORT_SCAN_MAX: nat := 32

  /** One comparison for two inputs, sorting for a few, a set for many: all decide the same. */
  method HasDuplicates(inputs: seq<TxIn>) returns (dup: bool)
    ensures dup <==> !DistinctInputs(inputs)
  {
    var prevs := Prevs(inputs);
    DistinctIsNoRepeat(inputs);
    if |inputs| <= 1 {
      FewDecide(prevs);
      dup := false;
    } else if |inputs| == 2 {
      FewDecide(prevs);
      dup := inputs[0].prev == inputs[1].prev;
    } else if |inputs| <= SORT_SCAN_MAX {
      var sorted := SortOps(prevs);
      SortKeeps(prevs);
      NeighboursDecide(sorted);
      dup := NeighboursEqual(sorted);
    } else {
      dup := SeenTwice(inputs);
    }
  }

  method OutputsInRange(tx: Tx) returns (ok: bool)
    ensures ok <==> SumOutputs(tx.outputs) <= MAX_MONEY
  {
    var total := 0;
    var i := 0;
    while i < |tx.outputs|
      invariant 0 <= i <= |tx.outputs|
      invariant total == SumOutputs(tx.outputs[..i]) <= MAX_MONEY
    {
      EachAtMostSum(tx.outputs, i);
      assert tx.outputs[..i + 1][..i] == tx.outputs[..i];
      var v := tx.outputs[i].value;
      if v > MAX_MONEY || total + v > MAX_MONEY {
        return false;
      }
      total := total + v;
      i := i + 1;
    }
    assert tx.outputs[..i] == tx.outputs;
    return true;
  }

  method SpendsNull(inputs: seq<TxIn>) returns (r: bool)
    ensures r <==> NULL_OUTPOINT in PrevoutSet(inputs)
  {
    PrevoutsAre(inputs);
    var i := 0;
    while i < |inputs|
      invariant 0 <= i <= |inputs| && forall j :: 0 <= j < i ==> inputs[j].prev != NULL_OUTPOINT
    {
      if inputs[i].prev == NULL_OUTPOINT {
        return true;
      }
      i := i + 1;
    }
    return false;
  }

  /** Empty sides, values out of range, duplicate inputs and null prevouts are rejected, nothing else. */
  method CheckTransaction(tx: Tx) returns (ok: bool)
    ensures ok <==> WellFormed(tx)
  {
    if |tx.inputs| == 0 || |tx.outputs| == 0 {
      return false;
    }
    var inRange := OutputsInRange(tx);
    if !inRange {
      return false;
    }
    if !IsCoinbase(tx) {
      var spendsNull := SpendsNull(tx.inputs);
      if spendsNull {
        return false;
      }
    }
    var dup := HasDuplicates(tx.inputs);
    ok := !dup;
  }
}
