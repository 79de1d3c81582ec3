/** The UTXO effects of blocks, one transaction at a time: what a block does to the coins, when a block is
    acceptable, and what happens to value. */
module Ledger {
  import opened Maps
  import opened Options
  import opened Sums
  import opened Transactions
  import opened TimeLocks

  // ----- One transaction at a time

  /** The coins of the first `n` outputs; OP_RETURN outputs never become coins. */
  function Outputs(tx: Tx, height: nat, coinbase: bool, n: nat): Utxos
    requires n <= |tx.outputs|
  {
    if n == 0 then map[]
    else
      var rest := Outputs(tx, height, coinbase, n - 1);
      var out := tx.outputs[n - 1];
      if IsOpReturn(out.script) then rest
      else rest[OutPoint(tx.txid, n - 1) := Coin(out.value, out.script, height, coinbase)]
  }

  function Created(tx: Tx, height: nat, coinbase: bool): Utxos
  {
    Outputs(tx, height, coinbase, |tx.outputs|)
  }

  lemma {:induction false} OutputsAre(tx: Tx, height: nat, coinbase: bool, n: nat)
    requires n <= |tx.outputs|
    ensures forall op :: op in Outputs(tx, height, coinbase, n) <==>
              op.txid == tx.txid && op.vout < n && !IsOpReturn(tx.outputs[op.vout].script)
    ensures forall op :: op in Outputs(tx, height, coinbase, n) ==>
              Outputs(tx, height, coinbase, n)[op] ==
              Coin(tx.outputs[op.vout].value, tx.outputs[op.vout].script, height, coinbase)
  {
    if n > 0 {
      OutputsAre(tx, height, coinbase, n - 1);
    }
  }

  /** Spend the inputs, then add the outputs. */
  function ApplyTx(u: Utxos, tx: Tx, height: nat, coinbase: bool): Utxos
  {
    (if coinbase then u else u - Prevouts(tx)) + Created(tx, height, coinbase)
  }

  /** The coins after the first `k` transactions of a block; the first one is the coinbase. */
  function After(u: Utxos, txs: seq<Tx>, height: nat, k: nat): Utxos
    requires k <= |txs|
  {
    if k == 0 then u else ApplyTx(After(u, txs, height, k - 1), txs[k - 1], height, k == 1)
  }

  // ----- Block acceptance

  /** What acceptance at one height depends on beyond the coins: the lock-time references, the deployment
      flags, and the checks on scripts, which are arbitrary here. */
  datatype Context = Context(
    height: nat, lockTimeRef: nat, mtp: nat, csv: bool, timeAt: nat -> Option<nat>, maturity: nat, bip30: bool,
    subsidy: nat, allowed: Tx -> bool, sigops: (Tx, seq<Coin>) -> nat, scripts: (Tx, seq<Coin>) -> bool)

  const MAX_BLOCK_SIGOPS_COST: nat := 80_000

  /** The coin at an outpoint; a worthless one when there is none. */
  function CoinAt(u: Utxos, op: OutPoint): Coin
  {
    if op in u then u[op] else Coin(0, [], 0, false)
  }

  /** The coins a list of inputs spends, in order. */
  function CoinsOf(u: Utxos, inputs: seq<TxIn>): seq<Coin>
  {
    if |inputs| == 0 then [] else CoinsOf(u, inputs[..|inputs| - 1]) + [CoinAt(u, inputs[|inputs| - 1].prev)]
  }

  /** Their value. */
  function ValueIn(u: Utxos, inputs: seq<TxIn>): nat
  {
    if |inputs| == 0 then 0 else ValueIn(u, inputs[..|inputs| - 1]) + CoinAt(u, inputs[|inputs| - 1].prev).amount
  }

  predicate Mature(ctx: Context, coin: Coin)
  {
    coin.isCoinbase ==> (if ctx.height >= coin.height then ctx.height - coin.height else 0) >= ctx.maturity
  }

  predicate Spendable(ctx: Context, u: Utxos, op: OutPoint)
  {
    op in u && Mature(ctx, u[op])
  }

  /** Every input is an unspent coin and old enough. */
  predicate AllSpendable(ctx: Context, u: Utxos, inputs: seq<TxIn>)
  {
    |inputs| == 0 ||
    (AllSpendable(ctx, u, inputs[..|inputs| - 1]) && Spendable(ctx, u, inputs[|inputs| - 1].prev))
  }

  lemma {:induction false} SpendableKeys(ctx: Context, u: Utxos, inputs: seq<TxIn>)
    requires AllSpendable(ctx, u, inputs)
    ensures PrevoutSet(inputs) <= u.Keys
  {
    if |inputs| > 0 {
      SpendableKeys(ctx, u, inputs[..|inputs| - 1]);
    }
  }

  lemma {:induction false} SpendablePrefix(ctx: Context, u: Utxos, inputs: seq<TxIn>, i: nat)
    requires i <= |inputs| && AllSpendable(ctx, u, inputs)
    ensures AllSpendable(ctx, u, inputs[..i])
  {
    if i < |inputs| {
      SpendablePrefix(ctx, u, inputs[..|inputs| - 1], i);
      assert inputs[..|inputs| - 1][..i] == inputs[..i];
    } else {
      assert inputs[..i] == inputs;
    }
  }

  predicate NeedsTimes(tx: Tx)
  {
    tx.version >= 2 &&
    exists i :: 0 <= i < |tx.inputs| && !LockDisabled(tx.inputs[i].sequence) && IsTimeLock(tx.inputs[i].sequence)
  }

  function Heights(coins: seq<Coin>): seq<nat>
  {
    if |coins| == 0 then [] else Heights(coins[..|coins| - 1]) + [coins[|coins| - 1].height]
  }

  /** The time references of all spent coins, unless one of them cannot be found. */
  function Times(timeAt: nat -> Option<nat>, coins: seq<Coin>): Option<seq<nat>>
  {
    if |coins| == 0 then Some([])
    else
      match (Times(timeAt, coins[..|coins| - 1]), timeAt(coins[|coins| - 1].height))
      case (Some(ts), Some(t)) => Some(ts + [t])
      case _ => None
  }

  /** The relative locks are open; a time reference that cannot be found keeps them shut. */
  predicate RelativeLocksOpen(ctx: Context, tx: Tx, coins: seq<Coin>)
  {
    if !ctx.csv then true
    else if !NeedsTimes(tx) then LocksOpen(tx, Heights(coins), [], ctx.height, ctx.mtp)
    else
      match Times(ctx.timeAt, coins)
      case None => false
      case Some(times) => LocksOpen(tx, Heights(coins), times, ctx.height, ctx.mtp)
  }

  /** Checks on a transaction and the coins it spends that do not look at the UTXO set. */
  predicate CoinChecks(ctx: Context, tx: Tx, coins: seq<Coin>)
  {
    && RelativeLocksOpen(ctx, tx, coins)
    && ctx.scripts(tx, coins)
  }

  /** A non-coinbase transaction is acceptable on the coins `u`. */
  ghost predicate Spends(ctx: Context, u: Utxos, tx: Tx)
  {
    && IsFinalTx(tx, ctx.height, ctx.lockTimeRef)
    && AllSpendable(ctx, u, tx.inputs)
    && SumOutputs(tx.outputs) <= ValueIn(u, tx.inputs)
    && CoinChecks(ctx, tx, CoinsOf(u, tx.inputs))
  }

  /** No output of the transaction is already an unspent coin. */
  predicate NotYetCreated(u: Utxos, tx: Tx)
  {
    forall v :: 0 <= v < |tx.outputs| ==> OutPoint(tx.txid, v) !in u
  }

  /** The checks that need neither the inputs nor the position in the block. */
  ghost predicate Standalone(ctx: Context, u: Utxos, tx: Tx)
  {
    WellFormed(tx) && ctx.allowed(tx) && (ctx.bip30 ==> NotYetCreated(u, tx))
  }

  datatype Verdict = Accept | Reject

  ghost function TxVerdict(ctx: Context, u: Utxos, txs: seq<Tx>, k: nat): Verdict
    requires k < |txs|
  {
    if Standalone(ctx, u, txs[k]) && (k > 0 ==> Spends(ctx, After(u, txs, ctx.height, k), txs[k])) then Accept
    else Reject
  }

  /** The block's transaction `k` passes on the coins left by its predecessors. */
  ghost predicate TxAccepted(ctx: Context, u: Utxos, txs: seq<Tx>, k: nat)
    requires k < |txs|
  {
    TxVerdict(ctx, u, txs, k) == Accept
  }

  ghost function TxsVerdict(ctx: Context, u: Utxos, txs: seq<Tx>, n: nat): Verdict
    requires n <= |txs|
  {
    if n == 0 then Accept
    else if TxsVerdict(ctx, u, txs, n - 1) == Accept then TxVerdict(ctx, u, txs, n - 1)
    else Reject
  }

  ghost predicate TxsAccepted(ctx: Context, u: Utxos, txs: seq<Tx>, n: nat)
    requires n <= |txs|
  {
    TxsVerdict(ctx, u, txs, n) == Accept
  }

  /** If the first `n` pass then each of them does. */
  lemma {:induction false} EachAccepted(ctx: Context, u: Utxos, txs: seq<Tx>, n: nat, k: nat)
    requires k < n <= |txs| && TxsAccepted(ctx, u, txs, n)
    ensures TxAccepted(ctx, u, txs, k)
  {
    if k < n - 1 {
      EachAccepted(ctx, u, txs, n - 1, k);
    }
  }

  /** Fees of the transactions after the coinbase: value in minus value out. */
  function Fees(height: nat, u: Utxos, txs: seq<Tx>, n: nat): int
    requires n <= |txs|
  {
    if n <= 1 then 0
    else
      Fees(height, u, txs, n - 1) +
      ValueIn(After(u, txs, height, n - 1), txs[n - 1].inputs) - SumOutputs(txs[n - 1].outputs)
  }

  function Sigops(ctx: Context, u: Utxos, txs: seq<Tx>, n: nat): nat
    requires n <= |txs|
  {
    if n == 0 then 0
    else
      Sigops(ctx, u, txs, n - 1) +
      ctx.sigops(txs[n - 1], if n == 1 then [] else CoinsOf(After(u, txs, ctx.height, n - 1), txs[n - 1].inputs))
  }

  ghost predicate WithinBlockLimits(ctx: Context, u: Utxos, txs: seq<Tx>)
  {
    && Sigops(ctx, u, txs, |txs|) <= MAX_BLOCK_SIGOPS_COST
    && (|txs| > 0 ==> SumOutputs(txs[0].outputs) <= ctx.subsidy + Fees(ctx.height, u, txs, |txs|))
  }

  /** The rule for a block: its transactions one after the other, then the block-wide limits. */
  ghost function BlockVerdict(ctx: Context, u: Utxos, txs: seq<Tx>): Verdict
  {
    if TxsAccepted(ctx, u, txs, |txs|) && WithinBlockLimits(ctx, u, txs) then Accept else Reject
  }

  ghost predicate BlockAccepted(ctx: Context, u: Utxos, txs: seq<Tx>)
  {
    BlockVerdict(ctx, u, txs) == Accept
  }

  function Txids(txs: seq<Tx>, k: nat): set<Txid>
    requires k <= |txs|
  {
    if k == 0 then {} else Txids(txs, k - 1) + {txs[k - 1].txid}
  }

  /** The transaction remakes no coin that the block spends. */
  ghost predicate ClearTx(u: Utxos, txs: seq<Tx>, k: nat)
    requires k < |txs|
  {
    forall v :: 0 <= v < |txs[k].outputs| && OutPoint(txs[k].txid, v) in u ==>
                  OutPoint(txs[k].txid, v) !in SpentBy(txs, |txs|)
  }

  /** The block starts with its coinbase, transaction ids determine transactions, the null outpoint is not a coin, and
      where the set is not searched for the outputs the block spends none of the coins it remakes. */
  ghost predicate Identified(ctx: Context, u: Utxos, txs: seq<Tx>)
  {
    && NULL_OUTPOINT !in u && (|txs| > 0 ==> IsCoinbase(txs[0]))
    && (forall k :: 0 <= k < |txs| ==> |txs[k].outputs| <= 0xffff_ffff)
    && (forall j, k :: 0 <= j < k < |txs| && txs[j].txid == txs[k].txid ==> txs[j] == txs[k])
    && (!ctx.bip30 ==> forall k :: 0 <= k < |txs| ==> ClearTx(u, txs, k))
  }

  // ----- Value

  ghost function Amounts(u: Utxos): map<OutPoint, nat>
  {
    map op | op in u :: u[op].amount
  }

  /** The value of a set of coins. */
  ghost function Total(u: Utxos): nat
  {
    Sum(Amounts(u))
  }

  lemma {:induction false} TotalWithoutOneMore(u: Utxos, gone: set<OutPoint>, k: OutPoint)
    requires k in u && k !in gone
    ensures Total(u - gone) == u[k].amount + Total(u - (gone + {k}))
  {
    SumWithoutOneMore(Amounts(u), gone, k);
    assert Amounts(u - gone) == Amounts(u) - gone;
    assert Amounts(u - (gone + {k})) == Amounts(u) - (gone + {k});
  }

  /** Distinct inputs cannot be worth more than all coins, and removing them removes their value. */
  lemma {:induction false} TotalSpent(u: Utxos, inputs: seq<TxIn>)
    requires DistinctInputs(inputs) && PrevoutSet(inputs) <= u.Keys
    ensures Total(u) == ValueIn(u, inputs) + Total(u - PrevoutSet(inputs))
  {
    var n := |inputs|;
    if n == 0 {
      assert u - PrevoutSet(inputs) == u;
    } else {
      var front, last := inputs[..n - 1], inputs[n - 1].prev;
      TotalSpent(u, front);
      TotalWithoutOneMore(u, PrevoutSet(front), last);
    }
  }

  lemma {:induction false} TotalOneMore(u: Utxos, m: Utxos, op: OutPoint, c: Coin)
    ensures Total(u + m[op := c]) <= Total(u + m) + c.amount
  {
    PutRight(u, m, op, c);
    SumPut(Amounts(u + m), op, c.amount);
    assert Amounts((u + m)[op := c]) == Amounts(u + m)[op := c.amount];
  }

  /** Created coins are worth at most the outputs. */
  lemma {:induction false} TotalCreated(u: Utxos, tx: Tx, height: nat, coinbase: bool, n: nat)
    requires n <= |tx.outputs|
    ensures Total(u + Outputs(tx, height, coinbase, n)) <= Total(u) + SumOutputs(tx.outputs[..n])
  {
    if n == 0 {
      assert u + Outputs(tx, height, coinbase, 0) == u;
    } else {
      TotalCreated(u, tx, height, coinbase, n - 1);
      assert tx.outputs[..n][..n - 1] == tx.outputs[..n - 1];
      var out := tx.outputs[n - 1];
      if !IsOpReturn(out.script) {
        TotalOneMore(u, Outputs(tx, height, coinbase, n - 1), OutPoint(tx.txid, n - 1),
                     Coin(out.value, out.script, height, coinbase));
      }
    }
  }

  // ----- A block as one change

  /** All coins created by the first `k` transactions. */
  function CreatedBy(txs: seq<Tx>, height: nat, k: nat): Utxos
    requires k <= |txs|
  {
    if k == 0 then map[] else CreatedBy(txs, height, k - 1) + Created(txs[k - 1], height, k == 1)
  }

  /** All outpoints spent by the first `k` transactions. */
  function SpentBy(txs: seq<Tx>, k: nat): set<OutPoint>
    requires k <= |txs|
  {
    if k <= 1 then {} else SpentBy(txs, k - 1) + Prevouts(txs[k - 1])
  }

  /** Transaction `k` is a new one, spends existing coins and remakes none that the block spends. */
  ghost predicate Follows(u: Utxos, txs: seq<Tx>, height: nat, k: nat)
    requires k < |txs|
  {
    && ClearTx(u, txs, k) && txs[k].txid !in Txids(txs, k)
    && (k > 0 ==> DistinctInputs(txs[k].inputs) && Prevouts(txs[k]) <= After(u, txs, height, k).Keys)
  }

  ghost predicate Replays(u: Utxos, txs: seq<Tx>, height: nat, k: nat)
    requires k <= |txs|
  {
    k == 0 || (Replays(u, txs, height, k - 1) && Follows(u, txs, height, k - 1))
  }

  lemma {:induction false} SpentGrows(txs: seq<Tx>, j: nat, k: nat)
    requires j <= k <= |txs|
    ensures SpentBy(txs, j) <= SpentBy(txs, k)
    ensures 0 < j < k ==> Prevouts(txs[j]) <= SpentBy(txs, k)
  {
    if j < k {
      SpentGrows(txs, j, k - 1);
    }
  }

  /** Coins made so far in the block come from its transactions, and the block spends none that was a coin before. */
  ghost predicate Own(u: Utxos, txs: seq<Tx>, k: nat, intra: Utxos)
    requires k <= |txs|
  {
    forall op :: op in intra ==> op.txid in Txids(txs, k) && (op in u ==> op !in SpentBy(txs, |txs|))
  }

  lemma {:induction false} OwnAll(u: Utxos, txs: seq<Tx>, height: nat, k: nat)
    requires k <= |txs| && Replays(u, txs, height, k)
    ensures Own(u, txs, k, CreatedBy(txs, height, k))
  {
    if k > 0 {
      OwnAll(u, txs, height, k - 1);
      OutputsAre(txs[k - 1], height, k == 1, |txs[k - 1].outputs|);
    }
  }

  /** The created and the spent outpoints describe the coins. */
  ghost predicate Tracks(u: Utxos, all: Utxos, intra: Utxos, spent: set<OutPoint>)
  {
    all == (u + intra) - spent && spent <= u.Keys + intra.Keys
  }

  lemma {:induction false} TracksStep(u: Utxos, all: Utxos, intra: Utxos, spent: set<OutPoint>, created: Utxos,
                                      gone: set<OutPoint>)
    requires Tracks(u, all, intra, spent) && created.Keys !! spent && created.Keys !! gone && gone <= all.Keys
    ensures Tracks(u, (all - gone) + created, intra + created, spent + gone)
  {}

  /** What transaction `k` takes away. */
  ghost function TakenBy(txs: seq<Tx>, k: nat): set<OutPoint>
    requires k < |txs|
  {
    if k == 0 then {} else Prevouts(txs[k])
  }

  /** Outputs of a new transaction are neither made nor spent by the block up to and including it. */
  lemma {:induction false} OutputsAreClear(u: Utxos, txs: seq<Tx>, height: nat, k: nat, intra: Utxos)
    requires k < |txs| && Own(u, txs, k, intra) && Follows(u, txs, height, k)
    requires Tracks(u, After(u, txs, height, k), intra, SpentBy(txs, k))
    ensures Created(txs[k], height, k == 0).Keys !! intra.Keys
    ensures Created(txs[k], height, k == 0).Keys !! SpentBy(txs, k)
    ensures Created(txs[k], height, k == 0).Keys !! TakenBy(txs, k)
  {
    OutputsAre(txs[k], height, k == 0, |txs[k].outputs|);
    SpentGrows(txs, k, |txs|);
  }

  /** Coins created and spent in the block, as sets, give the coins after it. */
  lemma {:induction false} TracksAll(u: Utxos, txs: seq<Tx>, height: nat, k: nat)
    requires k <= |txs| && Replays(u, txs, height, k)
    ensures Tracks(u, After(u, txs, height, k), CreatedBy(txs, height, k), SpentBy(txs, k))
  {
    if k == 0 {
      assert (u + map[]) - {} == u;
    } else {
      var j := k - 1;
      TracksAll(u, txs, height, j);
      OwnAll(u, txs, height, j);
      OutputsAreClear(u, txs, height, j, CreatedBy(txs, height, j));
      var all := After(u, txs, height, j);
      TracksStep(u, all, CreatedBy(txs, height, j), SpentBy(txs, j), Created(txs[j], height, k == 1), TakenBy(txs, j));
      assert j == 0 ==> all - TakenBy(txs, j) == all;
    }
  }

  lemma {:induction false} TxidListed(txs: seq<Tx>, j: nat, k: nat)
    requires j < k <= |txs|
    ensures txs[j].txid in Txids(txs, k)
  {
    if j < k - 1 {
      TxidListed(txs, j, k - 1);
    }
  }

  lemma {:induction false} OtherTx(a: Tx, b: Tx, height: nat, coinbase: bool, coinbase': bool, op: OutPoint)
    requires a.txid != b.txid && op in Created(a, height, coinbase)
    ensures op !in Created(b, height, coinbase')
  {
    OutputsAre(a, height, coinbase, |a.outputs|);
    OutputsAre(b, height, coinbase', |b.outputs|);
  }

  /** What a transaction makes is what the block makes. */
  lemma {:induction false} CreatedStays(u: Utxos, txs: seq<Tx>, height: nat, j: nat, k: nat, op: OutPoint)
    requires j < k <= |txs| && Replays(u, txs, height, k) && op in Created(txs[j], height, j == 0)
    ensures op in CreatedBy(txs, height, k) && CreatedBy(txs, height, k)[op] == Created(txs[j], height, j == 0)[op]
  {
    var last := k - 1;
    if j < last {
      CreatedStays(u, txs, height, j, last, op);
      TxidListed(txs, j, last);
      assert Follows(u, txs, height, last);
      OtherTx(txs[j], txs[last], height, j == 0, k == 1, op);
    }
    assert CreatedBy(txs, height, k) == CreatedBy(txs, height, last) + Created(txs[last], height, k == 1);
  }

  // ----- Acceptance rules out repetitions

  lemma {:induction false} ListedTxid(txs: seq<Tx>, k: nat, id: Txid) returns (j: nat)
    requires k <= |txs| && id in Txids(txs, k)
    ensures j < k && txs[j].txid == id
  {
    if txs[k - 1].txid == id {
      j := k - 1;
    } else {
      j := ListedTxid(txs, k - 1, id);
    }
  }

  lemma {:induction false} NullNotMade(u: Utxos, txs: seq<Tx>, height: nat, k: nat)
    requires k <= |txs| && NULL_OUTPOINT !in u && forall i :: 0 <= i < |txs| ==> |txs[i].outputs| <= 0xffff_ffff
    ensures NULL_OUTPOINT !in After(u, txs, height, k)
  {
    if k > 0 {
      var j := k - 1;
      NullNotMade(u, txs, height, j);
      OutputsAre(txs[j], height, k == 1, |txs[j].outputs|);
      assert NULL_OUTPOINT !in Created(txs[j], height, k == 1);
    }
  }

  lemma {:induction false} FirstPrevout(tx: Tx)
    requires |tx.inputs| > 0
    ensures tx.inputs[0].prev in Prevouts(tx)
  {
    PrevoutsAre(tx.inputs);
  }

  /** A transaction that repeats an earlier one of the block is rejected: its inputs are gone. */
  lemma {:induction false} RepeatRejected(ctx: Context, u: Utxos, txs: seq<Tx>, j: nat, k: nat)
    requires j < k < |txs| && Identified(ctx, u, txs) && Replays(u, txs, ctx.height, k) && txs[j].txid == txs[k].txid
    ensures !TxAccepted(ctx, u, txs, k)
  {
    var view := After(u, txs, ctx.height, k);
    if TxAccepted(ctx, u, txs, k) {
      FirstPrevout(txs[k]);
      SpendableKeys(ctx, view, txs[k].inputs);
      if j == 0 {
        NullNotMade(u, txs, ctx.height, k);
      } else {
        TracksAll(u, txs, ctx.height, k);
        SpentGrows(txs, j, k);
      }
      assert false;
    }
  }

  lemma {:induction false} AcceptedFollows(ctx: Context, u: Utxos, txs: seq<Tx>, k: nat)
    requires k < |txs| && Identified(ctx, u, txs) && Replays(u, txs, ctx.height, k) && TxAccepted(ctx, u, txs, k)
    ensures Follows(u, txs, ctx.height, k)
  {
    assert ClearTx(u, txs, k);
    if txs[k].txid in Txids(txs, k) {
      var j := ListedTxid(txs, k, txs[k].txid);
      RepeatRejected(ctx, u, txs, j, k);
    }
    if k > 0 {
      SpendableKeys(ctx, After(u, txs, ctx.height, k), txs[k].inputs);
    }
  }

  lemma {:induction false} AcceptedReplays(ctx: Context, u: Utxos, txs: seq<Tx>, k: nat)
    requires k <= |txs| && Identified(ctx, u, txs) && TxsAccepted(ctx, u, txs, k)
    ensures Replays(u, txs, ctx.height, k)
  {
    if k > 0 {
      AcceptedReplays(ctx, u, txs, k - 1);
      AcceptedFollows(ctx, u, txs, k - 1);
    }
  }

  /** Fees never create value: coins plus fees stay within the old coins plus the coinbase. */
  ghost predicate Conserved(u: Utxos, txs: seq<Tx>, height: nat, k: nat)
    requires k <= |txs|
  {
    Total(After(u, txs, height, k)) + Fees(height, u, txs, k) <=
    Total(u) + if k == 0 then 0 else SumOutputs(txs[0].outputs)
  }

  /** A transaction destroys the value of its inputs and creates at most the value of its outputs. */
  lemma {:induction false} ValueStep(u: Utxos, tx: Tx, height: nat)
    requires DistinctInputs(tx.inputs) && Prevouts(tx) <= u.Keys
    ensures Total(ApplyTx(u, tx, height, false)) + ValueIn(u, tx.inputs) <= Total(u) + SumOutputs(tx.outputs)
  {
    TotalSpent(u, tx.inputs);
    TotalCreated(u - Prevouts(tx), tx, height, false, |tx.outputs|);
    assert tx.outputs[..|tx.outputs|] == tx.outputs;
  }

  lemma {:induction false} ConservedCoinbase(u: Utxos, txs: seq<Tx>, height: nat)
    requires 0 < |txs|
    ensures Conserved(u, txs, height, 1)
  {
    TotalCreated(u, txs[0], height, true, |txs[0].outputs|);
    assert txs[0].outputs[..|txs[0].outputs|] == txs[0].outputs;
    assert After(u, txs, height, 0) == u;
  }

  /** Throughout a block value is conserved. */
  lemma {:induction false} ConservedAll(u: Utxos, txs: seq<Tx>, height: nat, k: nat)
    requires k <= |txs| && Replays(u, txs, height, k)
    ensures Conserved(u, txs, height, k)
  {
    if k == 1 {
      ConservedCoinbase(u, txs, height);
    } else if k > 1 {
      ConservedAll(u, txs, height, k - 1);
      ValueStep(After(u, txs, height, k - 1), txs[k - 1], height);
    }
  }

  /** An accepted block adds at most its subsidy to the value of all coins. */
  lemma {:induction false} SupplyGrowsBySubsidy(ctx: Context, u: Utxos, txs: seq<Tx>)
    requires Identified(ctx, u, txs) && BlockAccepted(ctx, u, txs)
    ensures Total(After(u, txs, ctx.height, |txs|)) <= Total(u) + ctx.subsidy
  {
    AcceptedReplays(ctx, u, txs, |txs|);
    ConservedAll(u, txs, ctx.height, |txs|);
  }
}
