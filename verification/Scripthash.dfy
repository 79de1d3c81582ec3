/** The index of balances and histories per script hash. */
module Scripthash {
  import opened Maps
  import opened Sums
  import opened Transactions

  type Hash = nat

  /** The hash a script is indexed under. */
  type Hasher = Script -> Hash

  type Outs = map<OutPoint, TxOut>

  // ----- The reference: one transaction at a time

  function OutsOf(tx: Tx, n: nat): Outs
    requires n <= |tx.outputs|
  {
    if n == 0 then map[] else OutsOf(tx, n - 1)[OutPoint(tx.txid, n - 1) := tx.outputs[n - 1]]
  }

  /** The outpoints a transaction spends. */
  function Gone(tx: Tx): set<OutPoint>
  {
    if IsCoinbase(tx) then {} else Prevouts(tx)
  }

  /** Everything the first `k` transactions create. */
  function MadeBy(txs: seq<Tx>, k: nat): Outs
    requires k <= |txs|
  {
    if k == 0 then map[] else MadeBy(txs, k - 1) + OutsOf(txs[k - 1], |txs[k - 1].outputs|)
  }

  /** The unspent outputs after the first `k` transactions. */
  function CoinsAfter(coins: Outs, txs: seq<Tx>, k: nat): Outs
    requires k <= |txs|
  {
    if k == 0 then coins
    else (CoinsAfter(coins, txs, k - 1) - Gone(txs[k - 1])) + OutsOf(txs[k - 1], |txs[k - 1].outputs|)
  }

  /** The transaction has new outputs, and spends existing ones, each once. */
  ghost predicate ValidTx(made: Outs, coins: Outs, tx: Tx)
  {
    && (forall v :: 0 <= v < |tx.outputs| ==> OutPoint(tx.txid, v) !in made)
    && (!IsCoinbase(tx) ==> DistinctInputs(tx.inputs) && Prevouts(tx) <= coins.Keys)
  }

  /** The block is valid on what earlier blocks made and left unspent. */
  ghost predicate ValidTxs(made: Outs, coins: Outs, txs: seq<Tx>, k: nat)
    requires k <= |txs|
  {
    k == 0 ||
    (ValidTxs(made, coins, txs, k - 1) &&
     ValidTx(made + MadeBy(txs, k - 1), CoinsAfter(coins, txs, k - 1), txs[k - 1]))
  }

  lemma {:induction false} OutsAre(tx: Tx, n: nat)
    requires n <= |tx.outputs|
    ensures forall op :: op in OutsOf(tx, n) <==> op.txid == tx.txid && op.vout < n
    ensures forall op :: op in OutsOf(tx, n) ==> OutsOf(tx, n)[op] == tx.outputs[op.vout]
  {
    if n > 0 {
      OutsAre(tx, n - 1);
    }
  }

  lemma {:induction false} WithinStep(made: Outs, coins: Outs, tx: Tx, created: Outs)
    requires Part(coins, made) && created == OutsOf(tx, |tx.outputs|) && ValidTx(made, coins, tx)
    ensures Part((coins - Gone(tx)) + created, made + created) && created.Keys !! made.Keys
  {
    OutsAre(tx, |tx.outputs|);
  }

  /** Unspent outputs have been made, and nothing is made twice. */
  lemma {:induction false} CoinsWithin(made: Outs, coins: Outs, txs: seq<Tx>, k: nat)
    requires k <= |txs| && Part(coins, made) && ValidTxs(made, coins, txs, k)
    ensures Part(CoinsAfter(coins, txs, k), made + MadeBy(txs, k)) && MadeBy(txs, k).Keys !! made.Keys
  {
    if k > 0 {
      CoinsWithin(made, coins, txs, k - 1);
      var created := OutsOf(txs[k - 1], |txs[k - 1].outputs|);
      WithinStep(made + MadeBy(txs, k - 1), CoinsAfter(coins, txs, k - 1), txs[k - 1], created);
      Associate(made, MadeBy(txs, k - 1), created);
    }
  }

  // ----- Value held by a hash

  function Share(hash: Hasher, out: TxOut, key: Hash): nat
  {
    if hash(out.script) == key then out.value else 0
  }

  ghost function Shares(hash: Hasher, coins: Outs, key: Hash): map<OutPoint, nat>
  {
    map op | op in coins :: Share(hash, coins[op], key)
  }

  /** The value of the outputs paying to a hash. */
  ghost function Held(hash: Hasher, coins: Outs, key: Hash): nat
  {
    Sum(Shares(hash, coins, key))
  }

  function OutAt(outs: Outs, op: OutPoint): TxOut
  {
    if op in outs then outs[op] else TxOut(0, [])
  }

  function Received(hash: Hasher, outputs: seq<TxOut>, n: nat, key: Hash): nat
    requires n <= |outputs|
  {
    if n == 0 then 0 else Received(hash, outputs, n - 1, key) + Share(hash, outputs[n - 1], key)
  }

  function PaidIn(hash: Hasher, outs: Outs, inputs: seq<TxIn>, n: nat, key: Hash): nat
    requires n <= |inputs|
  {
    if n == 0 then 0 else PaidIn(hash, outs, inputs, n - 1, key) + Share(hash, OutAt(outs, inputs[n - 1].prev), key)
  }

  /** What the first `k` transactions pay to a hash. */
  function ReceivedBy(hash: Hasher, txs: seq<Tx>, k: nat, key: Hash): nat
    requires k <= |txs|
  {
    if k == 0 then 0
    else ReceivedBy(hash, txs, k - 1, key) + Received(hash, txs[k - 1].outputs, |txs[k - 1].outputs|, key)
  }

  /** What the first `k` transactions spend from a hash. */
  function PaidBy(hash: Hasher, outs: Outs, txs: seq<Tx>, k: nat, key: Hash): nat
    requires k <= |txs|
  {
    if k == 0 then 0
    else
      PaidBy(hash, outs, txs, k - 1, key) +
      if IsCoinbase(txs[k - 1]) then 0 else PaidIn(hash, outs, txs[k - 1].inputs, |txs[k - 1].inputs|, key)
  }

  lemma {:induction false} HeldWith(hash: Hasher, coins: Outs, key: Hash, op: OutPoint, out: TxOut)
    requires op !in coins
    ensures Held(hash, coins[op := out], key) == Held(hash, coins, key) + Share(hash, out, key)
  {
    SumWith(Shares(hash, coins, key), op, Share(hash, out, key));
    assert Shares(hash, coins[op := out], key) == Shares(hash, coins, key)[op := Share(hash, out, key)];
  }

  lemma {:induction false} HeldWithoutOneMore(hash: Hasher, coins: Outs, key: Hash, gone: set<OutPoint>, op: OutPoint)
    requires op in coins && op !in gone
    ensures Held(hash, coins - gone, key) == Share(hash, coins[op], key) + Held(hash, coins - (gone + {op}), key)
  {
    SumWithoutOneMore(Shares(hash, coins, key), gone, op);
    assert Shares(hash, coins - gone, key) == Shares(hash, coins, key) - gone;
    assert Shares(hash, coins - (gone + {op}), key) == Shares(hash, coins, key) - (gone + {op});
  }

  lemma {:induction false} HeldSpent(hash: Hasher, outs: Outs, coins: Outs, inputs: seq<TxIn>, n: nat, key: Hash)
    requires n <= |inputs| && DistinctInputs(inputs[..n]) && PrevoutSet(inputs[..n]) <= coins.Keys && Part(coins, outs)
    ensures Held(hash, coins, key) ==
            PaidIn(hash, outs, inputs, n, key) + Held(hash, coins - PrevoutSet(inputs[..n]), key)
  {
    if n == 0 {
      assert coins - PrevoutSet(inputs[..n]) == coins;
    } else {
      var front, last := inputs[..n - 1], inputs[n - 1].prev;
      assert inputs[..n][..n - 1] == front;
      HeldSpent(hash, outs, coins, inputs, n - 1, key);
      HeldWithoutOneMore(hash, coins, key, PrevoutSet(front), last);
    }
  }

  lemma {:induction false} HeldOneMore(hash: Hasher, coins: Outs, created: Outs, key: Hash, op: OutPoint, out: TxOut)
    requires op !in coins && op !in created
    ensures Held(hash, coins + created[op := out], key) == Held(hash, coins + created, key) + Share(hash, out, key)
  {
    assert coins + created[op := out] == (coins + created)[op := out];
    HeldWith(hash, coins + created, key, op, out);
  }

  lemma {:induction false} HeldMade(hash: Hasher, coins: Outs, tx: Tx, n: nat, key: Hash)
    requires n <= |tx.outputs| && forall v :: 0 <= v < |tx.outputs| ==> OutPoint(tx.txid, v) !in coins
    ensures Held(hash, coins + OutsOf(tx, n), key) == Held(hash, coins, key) + Received(hash, tx.outputs, n, key)
  {
    if n == 0 {
      assert coins + OutsOf(tx, 0) == coins;
    } else {
      HeldMade(hash, coins, tx, n - 1, key);
      OutsAre(tx, n - 1);
      HeldOneMore(hash, coins, OutsOf(tx, n - 1), key, OutPoint(tx.txid, n - 1), tx.outputs[n - 1]);
    }
  }

  lemma {:induction false} HeldStep(hash: Hasher, outs: Outs, coins: Outs, tx: Tx, key: Hash)
    requires ValidTx(coins, coins, tx) && Part(coins, outs)
    ensures Held(hash, (coins - Gone(tx)) + OutsOf(tx, |tx.outputs|), key) +
            (if IsCoinbase(tx) then 0 else PaidIn(hash, outs, tx.inputs, |tx.inputs|, key)) ==
            Held(hash, coins, key) + Received(hash, tx.outputs, |tx.outputs|, key)
  {
    HeldMade(hash, coins - Gone(tx), tx, |tx.outputs|, key);
    if IsCoinbase(tx) {
      assert coins - Gone(tx) == coins;
    } else {
      assert tx.inputs[..|tx.inputs|] == tx.inputs;
      HeldSpent(hash, outs, coins, tx.inputs, |tx.inputs|, key);
    }
  }

  lemma {:induction false} ValidPrefix(made: Outs, coins: Outs, txs: seq<Tx>, k: nat, n: nat)
    requires k <= n <= |txs| && ValidTxs(made, coins, txs, n)
    ensures ValidTxs(made, coins, txs, k)
    ensures k < n ==> ValidTx(made + MadeBy(txs, k), CoinsAfter(coins, txs, k), txs[k])
  {
    if k < n {
      ValidPrefix(made, coins, txs, k, n - 1);
    }
  }

  lemma {:induction false} MadeGrows(made: Outs, txs: seq<Tx>, k: nat, n: nat, coins: Outs)
    requires k <= n <= |txs| && ValidTxs(made, coins, txs, n) && Part(coins, made)
    ensures Part(made + MadeBy(txs, k), made + MadeBy(txs, n))
  {
    if k < n {
      MadeGrows(made, txs, k, n - 1, coins);
      CoinsWithin(made, coins, txs, n - 1);
      var created := OutsOf(txs[n - 1], |txs[n - 1].outputs|);
      WithinStep(made + MadeBy(txs, n - 1), CoinsAfter(coins, txs, n - 1), txs[n - 1], created);
      Associate(made, MadeBy(txs, n - 1), created);
    }
  }

  lemma {:induction false} Narrow(made: Outs, coins: Outs, tx: Tx, outs: Outs)
    requires Part(coins, made) && Part(made, outs) && ValidTx(made, coins, tx)
    ensures ValidTx(coins, coins, tx) && Part(coins, outs)
  {}

  /** What a hash holds after a block is what it held, plus receipts, minus payments. */
  lemma {:induction false} HeldAfter(hash: Hasher, made: Outs, coins: Outs, txs: seq<Tx>, k: nat, outs: Outs, key: Hash)
    requires k <= |txs| && Part(coins, made) && ValidTxs(made, coins, txs, k)
    requires Part(made + MadeBy(txs, k), outs)
    ensures Held(hash, CoinsAfter(coins, txs, k), key) + PaidBy(hash, outs, txs, k, key) ==
            Held(hash, coins, key) + ReceivedBy(hash, txs, k, key)
  {
    if k > 0 {
      var j := k - 1;
      var was, now := made + MadeBy(txs, j), CoinsAfter(coins, txs, j);
      MadeGrows(made, txs, j, k, coins);
      PartTrans(was, made + MadeBy(txs, k), outs);
      HeldAfter(hash, made, coins, txs, j, outs, key);
      CoinsWithin(made, coins, txs, j);
      Narrow(was, now, txs[j], outs);
      HeldStep(hash, outs, now, txs[j], key);
    }
  }

  // ----- What a block changes

  /** Transaction `index` of the block concerns a hash. */
  datatype Touch = Touch(hash: Hash, index: nat, txid: Txid)

  datatype Tally = Tally(touches: set<Touch>, deltas: map<Hash, int>)

  function Net(deltas: map<Hash, int>, key: Hash): int
  {
    if key in deltas then deltas[key] else 0
  }

  /** Record a touch and change the balance of its hash. */
  function Post(t: Tally, touch: Touch, amount: int): Tally
  {
    Tally(t.touches + {touch}, t.deltas[touch.hash := Net(t.deltas, touch.hash) + amount])
  }

  function Credit(hash: Hasher, t: Tally, tx: Tx, index: nat, n: nat): Tally
    requires n <= |tx.outputs|
  {
    if n == 0 then t
    else
      var out := tx.outputs[n - 1];
      Post(Credit(hash, t, tx, index, n - 1), Touch(hash(out.script), index, tx.txid), out.value)
  }

  function CreditAll(hash: Hasher, txs: seq<Tx>, k: nat): Tally
    requires k <= |txs|
  {
    if k == 0 then Tally({}, map[])
    else Credit(hash, CreditAll(hash, txs, k - 1), txs[k - 1], k - 1, |txs[k - 1].outputs|)
  }

  lemma {:induction false} CreditNet(hash: Hasher, t: Tally, tx: Tx, index: nat, n: nat, key: Hash)
    requires n <= |tx.outputs|
    ensures Net(Credit(hash, t, tx, index, n).deltas, key) == Net(t.deltas, key) + Received(hash, tx.outputs, n, key)
  {
    if n > 0 {
      CreditNet(hash, t, tx, index, n - 1, key);
    }
  }

  lemma {:induction false} CreditAllNet(hash: Hasher, txs: seq<Tx>, k: nat, key: Hash)
    requires k <= |txs|
    ensures Net(CreditAll(hash, txs, k).deltas, key) == ReceivedBy(hash, txs, k, key)
  {
    if k > 0 {
      CreditAllNet(hash, txs, k - 1, key);
      CreditNet(hash, CreditAll(hash, txs, k - 1), txs[k - 1], k - 1, |txs[k - 1].outputs|, key);
    }
  }

  ghost predicate PaysTo(hash: Hasher, tx: Tx, n: nat, key: Hash)
    requires n <= |tx.outputs|
  {
    exists v :: 0 <= v < n && hash(tx.outputs[v].script) == key
  }

  lemma {:induction false} CreditTouches(hash: Hasher, t: Tally, tx: Tx, index: nat, n: nat, touch: Touch)
    requires n <= |tx.outputs|
    ensures touch in Credit(hash, t, tx, index, n).touches <==>
            touch in t.touches || (touch.index == index && touch.txid == tx.txid && PaysTo(hash, tx, n, touch.hash))
  {
    if n > 0 {
      CreditTouches(hash, t, tx, index, n - 1, touch);
      assert PaysTo(hash, tx, n, touch.hash) <==>
             PaysTo(hash, tx, n - 1, touch.hash) || hash(tx.outputs[n - 1].script) == touch.hash;
    }
  }

  lemma {:induction false} CreditAllTouches(hash: Hasher, txs: seq<Tx>, k: nat, touch: Touch)
    requires k <= |txs|
    ensures touch in CreditAll(hash, txs, k).touches <==>
            touch.index < k && touch.txid == txs[touch.index].txid &&
            PaysTo(hash, txs[touch.index], |txs[touch.index].outputs|, touch.hash)
  {
    if k > 0 {
      CreditAllTouches(hash, txs, k - 1, touch);
      CreditTouches(hash, CreditAll(hash, txs, k - 1), txs[k - 1], k - 1, |txs[k - 1].outputs|, touch);
    }
  }

  // ----- Spends, in whatever order they are resolved

  datatype Spend = Spend(index: nat, txid: Txid, prev: OutPoint)

  function TouchOf(hash: Hasher, s: Spend, out: TxOut): Touch
  {
    Touch(hash(out.script), s.index, s.txid)
  }

  function Debit(hash: Hasher, t: Tally, s: Spend, out: TxOut): Tally
  {
    Post(t, TouchOf(hash, s, out), 0 - out.value)
  }

  function Paid(hash: Hasher, outs: Outs, spends: seq<Spend>, key: Hash): nat
  {
    if |spends| == 0 then 0
    else
      Paid(hash, outs, spends[..|spends| - 1], key) + Share(hash, OutAt(outs, spends[|spends| - 1].prev), key)
  }

  /** A spend of an unknown output touches no hash. */
  function TouchedBy(hash: Hasher, outs: Outs, s: Spend): set<Touch>
  {
    if s.prev in outs then {TouchOf(hash, s, outs[s.prev])} else {}
  }

  function Touches(hash: Hasher, outs: Outs, spends: seq<Spend>): set<Touch>
  {
    if |spends| == 0 then {}
    else Touches(hash, outs, spends[..|spends| - 1]) + TouchedBy(hash, outs, spends[|spends| - 1])
  }

  lemma {:induction false} Snoc(hash: Hasher, outs: Outs, spends: seq<Spend>, s: Spend)
    ensures forall key :: Paid(hash, outs, spends + [s], key) ==
                          Paid(hash, outs, spends, key) + Share(hash, OutAt(outs, s.prev), key)
    ensures Touches(hash, outs, spends + [s]) == Touches(hash, outs, spends) + TouchedBy(hash, outs, s)
  {
    assert (spends + [s])[..|spends|] == spends;
  }

  /** From `was` to `now` the spends `all` have been charged, except for those still pending. */
  ghost predicate Settled(hash: Hasher, outs: Outs, was: Tally, now: Tally, all: seq<Spend>, pending: seq<Spend>)
  {
    && (forall key :: Net(now.deltas, key) ==
                      Net(was.deltas, key) - Paid(hash, outs, all, key) + Paid(hash, outs, pending, key))
    && now.touches + Touches(hash, outs, pending) == was.touches + Touches(hash, outs, all)
  }

  lemma {:induction false} SettleOne(hash: Hasher, outs: Outs, was: Tally, now: Tally, all: seq<Spend>,
                                     pending: seq<Spend>, s: Spend)
    requires Settled(hash, outs, was, now, all, pending)
    ensures s.prev in outs ==> Settled(hash, outs, was, Debit(hash, now, s, outs[s.prev]), all + [s], pending)
    ensures s.prev !in outs ==> Settled(hash, outs, was, now, all + [s], pending)
  {
    Snoc(hash, outs, all, s);
  }

  lemma {:induction false} Defer(hash: Hasher, outs: Outs, was: Tally, now: Tally, all: seq<Spend>, pending: seq<Spend>,
                                 s: Spend)
    requires Settled(hash, outs, was, now, all, pending)
    ensures Settled(hash, outs, was, now, all + [s], pending + [s])
  {
    Snoc(hash, outs, all, s);
    Snoc(hash, outs, pending, s);
  }

  /** Settling what was left pending. */
  lemma {:induction false} SettleRest(hash: Hasher, outs: Outs, a: Tally, b: Tally, c: Tally, all: seq<Spend>,
                                      pending: seq<Spend>, rest: seq<Spend>)
    requires Settled(hash, outs, a, b, all, pending) && Settled(hash, outs, b, c, pending, rest)
    ensures Settled(hash, outs, a, c, all, rest)
  {
    assert forall key :: Net(c.deltas, key) ==
                         Net(b.deltas, key) - Paid(hash, outs, pending, key) + Paid(hash, outs, rest, key);
  }

  /** The spends of the first `n` inputs of a transaction. */
  function SpendsOf(tx: Tx, index: nat, n: nat): (r: seq<Spend>)
    requires n <= |tx.inputs|
    ensures |r| == n
  {
    if n == 0 then [] else SpendsOf(tx, index, n - 1) + [Spend(index, tx.txid, tx.inputs[n - 1].prev)]
  }

  function BlockSpends(txs: seq<Tx>, k: nat): seq<Spend>
    requires k <= |txs|
  {
    if k == 0 then []
    else
      BlockSpends(txs, k - 1) +
      if IsCoinbase(txs[k - 1]) then [] else SpendsOf(txs[k - 1], k - 1, |txs[k - 1].inputs|)
  }

  lemma {:induction false} SnocPaid(hash: Hasher, outs: Outs, spends: seq<Spend>, s: Spend, more: seq<Spend>, key: Hash)
    requires more == spends + [s]
    ensures Paid(hash, outs, more, key) == Paid(hash, outs, spends, key) + Share(hash, OutAt(outs, s.prev), key)
  {
    assert more[..|spends|] == spends;
  }

  lemma {:induction false} SpendsNext(before: seq<Spend>, tx: Tx, index: nat, j: nat, n: nat)
    returns (most: seq<Spend>, all: seq<Spend>, s: Spend)
    requires n == j + 1 <= |tx.inputs|
    ensures most == before + SpendsOf(tx, index, j) && all == before + SpendsOf(tx, index, n) && all == most + [s]
    ensures s == Spend(index, tx.txid, tx.inputs[j].prev)
  {
    s := Spend(index, tx.txid, tx.inputs[j].prev);
    most, all := before + SpendsOf(tx, index, j), before + SpendsOf(tx, index, n);
    assert all == most + [s];
  }

  lemma {:induction false} PaidOf(hash: Hasher, outs: Outs, before: seq<Spend>, tx: Tx, index: nat, n: nat,
                                  all: seq<Spend>, key: Hash)
    requires n <= |tx.inputs| && all == before + SpendsOf(tx, index, n)
    ensures Paid(hash, outs, all, key) == Paid(hash, outs, before, key) + PaidIn(hash, outs, tx.inputs, n, key)
  {
    if n == 0 {
      assert all == before;
    } else {
      var most, more, s := SpendsNext(before, tx, index, n - 1, n);
      PaidOf(hash, outs, before, tx, index, n - 1, most, key);
      SnocPaid(hash, outs, most, s, all, key);
    }
  }

  lemma {:induction false} PaidBlock(hash: Hasher, outs: Outs, txs: seq<Tx>, k: nat, all: seq<Spend>, key: Hash)
    requires k <= |txs| && all == BlockSpends(txs, k)
    ensures Paid(hash, outs, all, key) == PaidBy(hash, outs, txs, k, key)
  {
    if k > 0 {
      var tx, before := txs[k - 1], BlockSpends(txs, k - 1);
      PaidBlock(hash, outs, txs, k - 1, before, key);
      if IsCoinbase(tx) {
        assert before + [] == before;
      } else {
        PaidOf(hash, outs, before, tx, k - 1, |tx.inputs|, all, key);
      }
    }
  }

  predicate IsOf(hash: Hasher, outs: Outs, op: OutPoint, key: Hash)
  {
    op in outs && hash(outs[op].script) == key
  }

  /** One of the first `n` inputs spends an output of the hash. */
  ghost predicate SpendsFrom(hash: Hasher, outs: Outs, tx: Tx, n: nat, key: Hash)
    requires n <= |tx.inputs|
  {
    exists i :: 0 <= i < n && IsOf(hash, outs, tx.inputs[i].prev, key)
  }

  lemma {:induction false} TouchesOf(hash: Hasher, outs: Outs, before: seq<Spend>, tx: Tx, index: nat, n: nat,
                                     all: seq<Spend>, touch: Touch)
    requires n <= |tx.inputs| && all == before + SpendsOf(tx, index, n)
    ensures touch in Touches(hash, outs, all) <==>
            touch in Touches(hash, outs, before) ||
            (touch.index == index && touch.txid == tx.txid && SpendsFrom(hash, outs, tx, n, touch.hash))
  {
    if n == 0 {
      assert all == before;
    } else {
      var most, more, s := SpendsNext(before, tx, index, n - 1, n);
      TouchesOf(hash, outs, before, tx, index, n - 1, most, touch);
      assert all[..|most|] == most;
      assert SpendsFrom(hash, outs, tx, n, touch.hash) <==>
             SpendsFrom(hash, outs, tx, n - 1, touch.hash) || IsOf(hash, outs, s.prev, touch.hash);
    }
  }

  lemma {:induction false} TouchesBlock(hash: Hasher, outs: Outs, txs: seq<Tx>, k: nat, all: seq<Spend>, touch: Touch)
    requires k <= |txs| && all == BlockSpends(txs, k)
    ensures touch in Touches(hash, outs, all) <==>
            touch.index < k && touch.txid == txs[touch.index].txid && !IsCoinbase(txs[touch.index]) &&
            SpendsFrom(hash, outs, txs[touch.index], |txs[touch.index].inputs|, touch.hash)
  {
    if k > 0 {
      var tx, before := txs[k - 1], BlockSpends(txs, k - 1);
      TouchesBlock(hash, outs, txs, k - 1, before, touch);
      if IsCoinbase(tx) {
        assert before + [] == before;
      } else {
        TouchesOf(hash, outs, before, tx, k - 1, |tx.inputs|, all, touch);
      }
    }
  }

  lemma {:induction false} SpendsAre(tx: Tx, index: nat, n: nat)
    requires n <= |tx.inputs|
    ensures forall s :: s in SpendsOf(tx, index, n) ==> s.prev in Prevouts(tx)
    ensures forall i :: 0 <= i < n ==> Spend(index, tx.txid, tx.inputs[i].prev) in SpendsOf(tx, index, n)
  {
    PrevoutsAre(tx.inputs);
    if n > 0 {
      SpendsAre(tx, index, n - 1);
    }
  }

  /** Every spend of a valid block is of an output made by then. */
  lemma {:induction false} SpendsResolve(made: Outs, coins: Outs, txs: seq<Tx>, k: nat, outs: Outs)
    requires k <= |txs| && Part(coins, made) && ValidTxs(made, coins, txs, k)
    requires Part(made + MadeBy(txs, k), outs)
    ensures forall s :: s in BlockSpends(txs, k) ==> s.prev in outs
  {
    if k > 0 {
      var j := k - 1;
      MadeGrows(made, txs, j, k, coins);
      PartTrans(made + MadeBy(txs, j), made + MadeBy(txs, k), outs);
      SpendsResolve(made, coins, txs, j, outs);
      CoinsWithin(made, coins, txs, j);
      SpendsAre(txs[j], j, |txs[j].inputs|);
    }
  }

  /** An output nothing in the block spends is still there after it. */
  lemma {:induction false} StaysUnspent(coins: Outs, txs: seq<Tx>, k: nat, op: OutPoint)
    requires k <= |txs| && (op in coins || op in MadeBy(txs, k))
    requires forall s :: s in BlockSpends(txs, k) ==> s.prev != op
    ensures op in CoinsAfter(coins, txs, k)
  {
    if k > 0 {
      var j := k - 1;
      if op in coins || op in MadeBy(txs, j) {
        forall s | s in BlockSpends(txs, j)
          ensures s.prev != op
        {
          assert s in BlockSpends(txs, k);
        }
        StaysUnspent(coins, txs, j, op);
        NotGone(txs, j, k, op);
      } else {
        assert op in OutsOf(txs[j], |txs[j].outputs|);
      }
    }
  }

  lemma {:induction false} NotGone(txs: seq<Tx>, j: nat, k: nat, op: OutPoint)
    requires k == j + 1 <= |txs| && forall s :: s in BlockSpends(txs, k) ==> s.prev != op
    ensures op !in Gone(txs[j])
  {
    if op in Gone(txs[j]) {
      SpentIsListed(txs, j, k, op);
    }
  }

  lemma {:induction false} SpentIsListed(txs: seq<Tx>, j: nat, k: nat, op: OutPoint)
    requires k == j + 1 <= |txs| && op in Gone(txs[j])
    ensures exists s :: s in BlockSpends(txs, k) && s.prev == op
  {
    PrevoutsAre(txs[j].inputs);
    var i :| 0 <= i < |txs[j].inputs| && txs[j].inputs[i].prev == op;
    SpendsAre(txs[j], j, |txs[j].inputs|);
    assert Spend(j, txs[j].txid, op) in BlockSpends(txs, k);
  }
}
