/** Block validation as the node does it: one pass over the block that gathers a batch of inserts, removals
    and undo records, applied in one go. */
module BlockValidation {
  import opened Bytes
  import opened Maps
  import opened Options
  import opened Sums
  import opened Transactions
  import opened TimeLocks
  import opened Ledger

  // ----- Batches

  datatype Batch = Batch(inserts: seq<(OutPoint, Coin)>, removals: seq<OutPoint>, spent: seq<(OutPoint, Coin)>)

  function MapOf(s: seq<(OutPoint, Coin)>): Utxos
  {
    if |s| == 0 then map[] else MapOf(s[..|s| - 1])[s[|s| - 1].0 := s[|s| - 1].1]
  }

  function SetOf(s: seq<OutPoint>): set<OutPoint>
  {
    set op | op in s
  }

  /** All inserts, then all removals. */
  function ApplyBatch(u: Utxos, b: Batch): Utxos
  {
    (u + MapOf(b.inserts)) - SetOf(b.removals)
  }

  lemma {:induction false} MapOfConcat(s: seq<(OutPoint, Coin)>, t: seq<(OutPoint, Coin)>)
    ensures MapOf(s + t) == MapOf(s) + MapOf(t)
  {
    if |t| == 0 {
      assert s + t == s;
    } else {
      MapOfConcat(s, t[..|t| - 1]);
      assert (s + t)[..|s + t| - 1] == s + t[..|t| - 1];
    }
  }

  // ----- What one transaction adds to the batch

  function SpentOps(inputs: seq<TxIn>): seq<OutPoint>
  {
    if |inputs| == 0 then [] else SpentOps(inputs[..|inputs| - 1]) + [inputs[|inputs| - 1].prev]
  }

  /** The undo records: every outpoint with the coin it held. */
  function SpentPairs(view: Utxos, inputs: seq<TxIn>): seq<(OutPoint, Coin)>
  {
    if |inputs| == 0 then []
    else
      var op := inputs[|inputs| - 1].prev;
      SpentPairs(view, inputs[..|inputs| - 1]) + [(op, CoinAt(view, op))]
  }

  function NewCoins(tx: Tx, height: nat, coinbase: bool, n: nat): seq<(OutPoint, Coin)>
    requires n <= |tx.outputs|
  {
    if n == 0 then []
    else
      var rest := NewCoins(tx, height, coinbase, n - 1);
      var out := tx.outputs[n - 1];
      if IsOpReturn(out.script) then rest
      else rest + [(OutPoint(tx.txid, n - 1), Coin(out.value, out.script, height, coinbase))]
  }

  function AddSpends(b: Batch, view: Utxos, inputs: seq<TxIn>): Batch
  {
    Batch(b.inserts, b.removals + SpentOps(inputs), b.spent + SpentPairs(view, inputs))
  }

  function AddCoins(b: Batch, tx: Tx, height: nat, coinbase: bool): Batch
  {
    Batch(b.inserts + NewCoins(tx, height, coinbase, |tx.outputs|), b.removals, b.spent)
  }

  /** The batch of the first `k` transactions. */
  function BatchOf(u: Utxos, txs: seq<Tx>, height: nat, k: nat): Batch
    requires k <= |txs|
  {
    if k == 0 then Batch([], [], [])
    else if k == 1 then AddCoins(Batch([], [], []), txs[0], height, true)
    else
      AddCoins(AddSpends(BatchOf(u, txs, height, k - 1), After(u, txs, height, k - 1), txs[k - 1].inputs),
               txs[k - 1], height, false)
  }

  lemma {:induction false} NewCoinsAre(tx: Tx, height: nat, coinbase: bool, n: nat)
    requires n <= |tx.outputs|
    ensures MapOf(NewCoins(tx, height, coinbase, n)) == Outputs(tx, height, coinbase, n)
  {
    if n > 0 {
      NewCoinsAre(tx, height, coinbase, n - 1);
      var rest := NewCoins(tx, height, coinbase, n - 1);
      var out := tx.outputs[n - 1];
      var last := (OutPoint(tx.txid, n - 1), Coin(out.value, out.script, height, coinbase));
      assert (rest + [last])[..|rest|] == rest;
    }
  }

  lemma {:induction false} InsertsAre(u: Utxos, txs: seq<Tx>, height: nat, k: nat)
    requires k <= |txs|
    ensures MapOf(BatchOf(u, txs, height, k).inserts) == CreatedBy(txs, height, k)
  {
    if k > 0 {
      InsertsAre(u, txs, height, k - 1);
      NewCoinsAre(txs[k - 1], height, k == 1, |txs[k - 1].outputs|);
      MapOfConcat(BatchOf(u, txs, height, k - 1).inserts, NewCoins(txs[k - 1], height, k == 1, |txs[k - 1].outputs|));
    }
  }

  lemma {:induction false} SpentOpsAre(inputs: seq<TxIn>)
    ensures SetOf(SpentOps(inputs)) == PrevoutSet(inputs)
  {
    if |inputs| > 0 {
      SpentOpsAre(inputs[..|inputs| - 1]);
      SetOfConcat(SpentOps(inputs[..|inputs| - 1]), [inputs[|inputs| - 1].prev]);
    }
  }

  lemma {:induction false} SetOfConcat(s: seq<OutPoint>, t: seq<OutPoint>)
    ensures SetOf(s + t) == SetOf(s) + SetOf(t)
  {}

  lemma {:induction false} RemovalsAre(u: Utxos, txs: seq<Tx>, height: nat, k: nat)
    requires k <= |txs|
    ensures SetOf(BatchOf(u, txs, height, k).removals) == SpentBy(txs, k)
  {
    if k > 1 {
      RemovalsAre(u, txs, height, k - 1);
      SpentOpsAre(txs[k - 1].inputs);
      SetOfConcat(BatchOf(u, txs, height, k - 1).removals, SpentOps(txs[k - 1].inputs));
    }
  }

  /** Applying the batch is the same as applying the transactions one after the other. */
  lemma {:induction false} BatchIsReplay(u: Utxos, txs: seq<Tx>, height: nat)
    requires Replays(u, txs, height, |txs|)
    ensures ApplyBatch(u, BatchOf(u, txs, height, |txs|)) == After(u, txs, height, |txs|)
  {
    InsertsAre(u, txs, height, |txs|);
    RemovalsAre(u, txs, height, |txs|);
    TracksAll(u, txs, height, |txs|);
  }

  // ----- 64-bit sums

  function AddU64(a: int, b: int): nat
  {
    (a + b) % U64
  }

  lemma {:induction false} NoWrap(a: nat, b: nat)
    requires a + b < U64
    ensures AddU64(a, b) == a + b
  {}

  // ----- The inputs of one transaction

  /** What the pass takes for the current coins: the set before the block and the coins created in it, the older coin
      first, without what the block has spent. */
  function Found(u: Utxos, intra: Utxos, spent: set<OutPoint>): Utxos
  {
    (intra + u) - spent
  }

  /** One input: not spent in this block, found in the set or among the block's own coins, and mature. */
  method FindCoin(ctx: Context, u: Utxos, intra: Utxos, spent: set<OutPoint>, op: OutPoint) returns (r: Option<Coin>)
    ensures r.Some? <==> Spendable(ctx, Found(u, intra, spent), op)
    ensures r.Some? ==> r.value == CoinAt(Found(u, intra, spent), op)
  {
    if op in spent {
      return None;
    }
    r := if op in u then Some(u[op]) else if op in intra then Some(intra[op]) else None;
    if r.Some? && !Mature(ctx, r.value) {
      r := None;
    }
  }

  /** The inputs `done` have been looked up and recorded on top of the batch `b`. */
  ghost predicate Spending(ctx: Context, view: Utxos, before: set<OutPoint>, b: Batch, done: seq<TxIn>,
                           coins: seq<Coin>, sum: nat, spent: set<OutPoint>, batch: Batch)
  {
    && AllSpendable(ctx, view, done)
    && coins == CoinsOf(view, done) && sum == ValueIn(view, done)
    && spent == before + PrevoutSet(done)
    && batch == AddSpends(b, view, done)
  }

  /** Sums of distinct inputs stay below the total, so below 64 bits. */
  lemma {:induction false} SumFits(ctx: Context, view: Utxos, inputs: seq<TxIn>)
    requires |inputs| > 0 && DistinctInputs(inputs) && Total(view) < U64 && AllSpendable(ctx, view, inputs)
    ensures ValueIn(view, inputs) ==
            AddU64(ValueIn(view, inputs[..|inputs| - 1]), CoinAt(view, inputs[|inputs| - 1].prev).amount)
  {
    SpendableKeys(ctx, view, inputs);
    TotalSpent(view, inputs);
    NoWrap(ValueIn(view, inputs[..|inputs| - 1]), CoinAt(view, inputs[|inputs| - 1].prev).amount);
  }

  /** Look up and record the last of the inputs `done`. */
  method SpendInput(ctx: Context, u: Utxos, intra: Utxos, ghost view: Utxos, ghost before: set<OutPoint>,
                    ghost b: Batch, ghost done: seq<TxIn>, op: OutPoint, coins: seq<Coin>, sum: nat,
                    spent: set<OutPoint>, batch: Batch)
    returns (ok: bool, coins': seq<Coin>, sum': nat, spent': set<OutPoint>, batch': Batch)
    requires view == Found(u, intra, before) && Total(view) < U64
    requires |done| > 0 && DistinctInputs(done) && op == done[|done| - 1].prev
    requires Spending(ctx, view, before, b, done[..|done| - 1], coins, sum, spent, batch)
    ensures ok <==> Spendable(ctx, view, op)
    ensures ok ==> Spending(ctx, view, before, b, done, coins', sum', spent', batch')
  {
    var found := FindCoin(ctx, u, intra, spent, op);
    if found.None? {
      return false, coins, sum, spent, batch;
    }
    SumFits(ctx, view, done);
    ok, coins', sum', spent' := true, coins + [found.value], AddU64(sum, found.value.amount), spent + {op};
    batch' := Batch(batch.inserts, batch.removals + [op], batch.spent + [(op, found.value)]);
    AddOneSpend(b, view, done);
  }

  lemma {:induction false} AddOneSpend(b: Batch, view: Utxos, done: seq<TxIn>)
    requires |done| > 0
    ensures var less, op := AddSpends(b, view, done[..|done| - 1]), done[|done| - 1].prev;
            AddSpends(b, view, done) == Batch(less.inserts, less.removals + [op], less.spent + [(op, CoinAt(view, op))])
  {}

  /** Look up and record every input of a transaction. */
  method SpendInputs(ctx: Context, u: Utxos, intra: Utxos, ghost view: Utxos, before: set<OutPoint>, b: Batch, tx: Tx)
    returns (ok: bool, coins: seq<Coin>, sum: nat, spent: set<OutPoint>, batch: Batch)
    requires view == Found(u, intra, before) && Total(view) < U64 && DistinctInputs(tx.inputs)
    ensures ok <==> AllSpendable(ctx, view, tx.inputs)
    ensures ok ==> Spending(ctx, view, before, b, tx.inputs, coins, sum, spent, batch)
  {
    coins, sum, spent, batch := [], 0, before, b;
    PrevoutsAre(tx.inputs);
    ghost var done := [];
    SpendNone(ctx, view, before, b);
    var i := 0;
    while i < |tx.inputs|
      invariant 0 <= i <= |tx.inputs| && done == tx.inputs[..i]
      invariant Spending(ctx, view, before, b, done, coins, sum, spent, batch)
    {
      done := PrefixStep(tx.inputs, i);
      ok, coins, sum, spent, batch :=
        SpendInput(ctx, u, intra, view, before, b, done, tx.inputs[i].prev, coins, sum, spent, batch);
      if !ok {
        NotAllSpendable(ctx, view, tx.inputs, i);
        return;
      }
      i := i + 1;
    }
    assert done == tx.inputs;
    ok := true;
  }

  lemma {:induction false} SpendNone(ctx: Context, view: Utxos, before: set<OutPoint>, b: Batch)
    ensures Spending(ctx, view, before, b, [], [], 0, before, b)
  {}

  lemma {:induction false} PrefixStep(inputs: seq<TxIn>, i: nat) returns (done: seq<TxIn>)
    requires i < |inputs| && DistinctInputs(inputs)
    ensures done == inputs[..i + 1] && DistinctInputs(done)
    ensures |done| == i + 1 && done[..i] == inputs[..i] && done[i] == inputs[i]
  {
    done := inputs[..i + 1];
    DistinctPrefix(inputs, i + 1);
  }

  lemma {:induction false} NotAllSpendable(ctx: Context, u: Utxos, inputs: seq<TxIn>, i: nat)
    requires i < |inputs| && !Spendable(ctx, u, inputs[i].prev)
    ensures !AllSpendable(ctx, u, inputs)
  {
    if AllSpendable(ctx, u, inputs) {
      SpendablePrefix(ctx, u, inputs, i + 1);
      assert false;
    }
  }

  /** Queue a transaction's spendable outputs for insertion. */
  method AddOutputs(tx: Tx, height: nat, coinbase: bool, intra: Utxos, b: Batch) returns (intra': Utxos, batch: Batch)
    ensures intra' == intra + Created(tx, height, coinbase)
    ensures batch == AddCoins(b, tx, height, coinbase)
  {
    intra', batch := intra, b;
    var v := 0;
    while v < |tx.outputs|
      invariant 0 <= v <= |tx.outputs|
      invariant intra' == intra + Outputs(tx, height, coinbase, v)
      invariant batch == Batch(b.inserts + NewCoins(tx, height, coinbase, v), b.removals, b.spent)
    {
      var out := tx.outputs[v];
      if !IsOpReturn(out.script) {
        var op, coin := OutPoint(tx.txid, v), Coin(out.value, out.script, height, coinbase);
        PutRight(intra, Outputs(tx, height, coinbase, v), op, coin);
        intra' := intra'[op := coin];
        batch := batch.(inserts := batch.inserts + [(op, coin)]);
      }
      v := v + 1;
    }
  }

  method LookUpHeights(coins: seq<Coin>) returns (heights: seq<nat>)
    ensures heights == Heights(coins)
  {
    heights := [];
    var i := 0;
    while i < |coins|
      invariant 0 <= i <= |coins| && heights == Heights(coins[..i])
    {
      assert coins[..i + 1][..i] == coins[..i];
      heights := heights + [coins[i].height];
      i := i + 1;
    }
    assert coins[..i] == coins;
  }

  method LookUpTimes(timeAt: nat -> Option<nat>, coins: seq<Coin>) returns (times: Option<seq<nat>>)
    ensures times == Times(timeAt, coins)
  {
    times := Some([]);
    var i := 0;
    while i < |coins|
      invariant 0 <= i <= |coins| && times.Some? && times == Times(timeAt, coins[..i])
    {
      assert coins[..i + 1][..i] == coins[..i];
      var t := timeAt(coins[i].height);
      if t.None? {
        NoTimes(timeAt, coins, i);
        return None;
      }
      times := Some(times.value + [t.value]);
      i := i + 1;
    }
    assert coins[..i] == coins;
  }

  lemma {:induction false} NoTimes(timeAt: nat -> Option<nat>, coins: seq<Coin>, i: nat)
    requires i < |coins| && timeAt(coins[i].height).None?
    ensures Times(timeAt, coins).None?
  {
    if i < |coins| - 1 {
      NoTimes(timeAt, coins[..|coins| - 1], i);
    }
  }

  method CheckRelativeLocks(ctx: Context, tx: Tx, coins: seq<Coin>) returns (ok: bool)
    ensures ok <==> RelativeLocksOpen(ctx, tx, coins)
  {
    if !ctx.csv {
      return true;
    }
    var heights := LookUpHeights(coins);
    var times: Option<seq<nat>> := Some([]);
    if NeedsTimes(tx) {
      times := LookUpTimes(ctx.timeAt, coins);
      if times.None? {
        return false;
      }
    }
    ok := ValidateSequenceLocks(tx, heights, times.value, ctx.height, ctx.mtp);
  }

  /** Sum of the output values, as a 64-bit sum. */
  method OutputValue(tx: Tx) returns (sum: nat)
    requires SumOutputs(tx.outputs) < U64
    ensures sum == SumOutputs(tx.outputs)
  {
    sum := 0;
    var i := 0;
    while i < |tx.outputs|
      invariant 0 <= i <= |tx.outputs| && sum == SumOutputs(tx.outputs[..i])
    {
      EachAtMostSum(tx.outputs, i);
      assert tx.outputs[..i + 1][..i] == tx.outputs[..i];
      sum := AddU64(sum, tx.outputs[i].value);
      i := i + 1;
    }
    assert tx.outputs[..i] == tx.outputs;
  }

  /** The checks on the coins found: relative locks, value, scripts. */
  method CheckCoins(ctx: Context, tx: Tx, coins: seq<Coin>, sum: nat) returns (ok: bool, fee: nat)
    requires WellFormed(tx)
    ensures ok <==> CoinChecks(ctx, tx, coins) && SumOutputs(tx.outputs) <= sum
    ensures ok ==> fee == sum - SumOutputs(tx.outputs)
  {
    ok := CheckRelativeLocks(ctx, tx, coins);
    if !ok {
      return false, 0;
    }
    var outputs := OutputValue(tx);
    ok := outputs <= sum && ctx.scripts(tx, coins);
    fee := if ok then sum - outputs else 0;
  }

  /** The running totals of the pass. */
  datatype Tally = Tally(intra: Utxos, spent: set<OutPoint>, batch: Batch, fees: int, sigops: nat)

  /** The totals after one more transaction, which spends from the coins `view`. */
  function AddTx(ctx: Context, t: Tally, view: Utxos, tx: Tx): Tally
  {
    Tally(t.intra + Created(tx, ctx.height, false), t.spent + Prevouts(tx),
          AddCoins(AddSpends(t.batch, view, tx.inputs), tx, ctx.height, false),
          AddU64(t.fees, ValueIn(view, tx.inputs) - SumOutputs(tx.outputs)),
          t.sigops + ctx.sigops(tx, CoinsOf(view, tx.inputs)))
  }

  /** Check one non-coinbase transaction against the current coins and add its effects. */
  method SpendTransaction(ctx: Context, u: Utxos, ghost view: Utxos, t: Tally, tx: Tx) returns (ok: bool, t': Tally)
    requires view == Found(u, t.intra, t.spent) && Total(view) < U64 && WellFormed(tx)
    ensures ok == Spends(ctx, view, tx)
    ensures ok ==> t' == AddTx(ctx, t, view, tx)
  {
    if !IsFinalTx(tx, ctx.height, ctx.lockTimeRef) {
      return false, t;
    }
    var coins, sum, fee, intra, spent, batch;
    ok, coins, sum, spent, batch := SpendInputs(ctx, u, t.intra, view, t.spent, t.batch, tx);
    if !ok {
      return false, t;
    }
    ok, fee := CheckCoins(ctx, tx, coins, sum);
    intra, batch := AddOutputs(tx, ctx.height, false, t.intra, batch);
    t' := Tally(intra, spent, batch, AddU64(t.fees, fee), t.sigops + ctx.sigops(tx, coins));
  }

  // ----- The pass over a block

  /** BIP 30: none of the outputs is already an unspent coin. */
  method CheckDuplicates(u: Utxos, tx: Tx) returns (ok: bool)
    ensures ok <==> NotYetCreated(u, tx)
  {
    var v := 0;
    while v < |tx.outputs|
      invariant 0 <= v <= |tx.outputs|
      invariant forall j :: 0 <= j < v ==> OutPoint(tx.txid, j) !in u
    {
      if OutPoint(tx.txid, v) in u {
        return false;
      }
      v := v + 1;
    }
    return true;
  }

  method CheckStandalone(ctx: Context, u: Utxos, tx: Tx) returns (ok: bool)
    ensures ok <==> Standalone(ctx, u, tx)
  {
    ok := CheckTransaction(tx);
    if !ok || !ctx.allowed(tx) {
      return false;
    }
    if ctx.bip30 {
      ok := CheckDuplicates(u, tx);
    }
  }

  /** What the pass takes for the coins before transaction `k`. */
  function PassView(u: Utxos, txs: seq<Tx>, height: nat, k: nat): Utxos
    requires k <= |txs|
  {
    Found(u, CreatedBy(txs, height, k), SpentBy(txs, k))
  }

  /** The rule the pass applies: each transaction on what the pass takes for the coins before it. */
  ghost function PassTx(ctx: Context, u: Utxos, txs: seq<Tx>, k: nat): Verdict
    requires k < |txs|
  {
    if Standalone(ctx, u, txs[k]) && (k > 0 ==> Spends(ctx, PassView(u, txs, ctx.height, k), txs[k])) then Accept
    else Reject
  }

  ghost function PassTxs(ctx: Context, u: Utxos, txs: seq<Tx>, n: nat): Verdict
    requires n <= |txs|
  {
    if n == 0 then Accept
    else if PassTxs(ctx, u, txs, n - 1) == Accept then PassTx(ctx, u, txs, n - 1)
    else Reject
  }

  ghost function PassFees(height: nat, u: Utxos, txs: seq<Tx>, n: nat): int
    requires n <= |txs|
  {
    if n <= 1 then 0
    else
      PassFees(height, u, txs, n - 1) +
      ValueIn(PassView(u, txs, height, n - 1), txs[n - 1].inputs) - SumOutputs(txs[n - 1].outputs)
  }

  ghost function PassSigops(ctx: Context, u: Utxos, txs: seq<Tx>, n: nat): nat
    requires n <= |txs|
  {
    if n == 0 then 0
    else
      PassSigops(ctx, u, txs, n - 1) +
      ctx.sigops(txs[n - 1], if n == 1 then [] else CoinsOf(PassView(u, txs, ctx.height, n - 1), txs[n - 1].inputs))
  }

  ghost function PassBatch(u: Utxos, txs: seq<Tx>, height: nat, k: nat): Batch
    requires k <= |txs|
  {
    if k == 0 then Batch([], [], [])
    else if k == 1 then AddCoins(Batch([], [], []), txs[0], height, true)
    else
      AddCoins(AddSpends(PassBatch(u, txs, height, k - 1), PassView(u, txs, height, k - 1), txs[k - 1].inputs),
               txs[k - 1], height, false)
  }

  ghost function PassVerdict(ctx: Context, u: Utxos, txs: seq<Tx>): Verdict
  {
    if && PassTxs(ctx, u, txs, |txs|) == Accept && PassSigops(ctx, u, txs, |txs|) <= MAX_BLOCK_SIGOPS_COST
       && (|txs| > 0 ==> SumOutputs(txs[0].outputs) <= ctx.subsidy + PassFees(ctx.height, u, txs, |txs|))
    then Accept else Reject
  }

  lemma {:induction false} StaysRejected(ctx: Context, u: Utxos, txs: seq<Tx>, m: nat, n: nat)
    requires m <= n <= |txs| && PassTxs(ctx, u, txs, m) == Reject
    ensures PassTxs(ctx, u, txs, n) == Reject
  {
    if m < n {
      StaysRejected(ctx, u, txs, m, n - 1);
    }
  }

  // ----- No 64-bit sum of the pass wraps

  lemma {:induction false} FoundMore(u: Utxos, intra: Utxos, spent: set<OutPoint>, op: OutPoint, c: Coin)
    ensures Total(Found(u, intra[op := c], spent)) <= Total(Found(u, intra, spent)) + c.amount
  {
    var now := Found(u, intra, spent);
    FoundPut(u, intra, spent, op, c);
    SumPut(Amounts(now), op, c.amount);
    assert Amounts(now[op := c]) == Amounts(now)[op := c.amount];
  }

  lemma {:induction false} FoundPut(u: Utxos, intra: Utxos, spent: set<OutPoint>, op: OutPoint, c: Coin)
    ensures Found(u, intra[op := c], spent) ==
            if op in u || op in spent then Found(u, intra, spent) else Found(u, intra, spent)[op := c]
  {}

  /** Created coins are worth at most the outputs, also where older coins hide them. */
  lemma {:induction false} FoundCreated(u: Utxos, intra: Utxos, spent: set<OutPoint>, tx: Tx, height: nat,
                                        coinbase: bool, n: nat)
    requires n <= |tx.outputs|
    ensures Total(Found(u, intra + Outputs(tx, height, coinbase, n), spent)) <=
            Total(Found(u, intra, spent)) + SumOutputs(tx.outputs[..n])
  {
    if n == 0 {
      assert intra + map[] == intra;
    } else {
      var out, rest := tx.outputs[n - 1], Outputs(tx, height, coinbase, n - 1);
      FoundCreated(u, intra, spent, tx, height, coinbase, n - 1);
      assert tx.outputs[..n][..n - 1] == tx.outputs[..n - 1];
      if !IsOpReturn(out.script) {
        var op, c := OutPoint(tx.txid, n - 1), Coin(out.value, out.script, height, coinbase);
        PutRight(intra, rest, op, c);
        FoundMore(u, intra + rest, spent, op, c);
      }
    }
  }

  lemma {:induction false} FoundSpent(u: Utxos, intra: Utxos, spent: set<OutPoint>, ops: set<OutPoint>)
    ensures Found(u, intra, spent) - ops == Found(u, intra, spent + ops)
  {}

  /** A transaction takes the value of its inputs out of what the pass finds, and adds at most that of its outputs. */
  lemma {:induction false} FoundStep(u: Utxos, intra: Utxos, spent: set<OutPoint>, tx: Tx, height: nat)
    requires DistinctInputs(tx.inputs) && Prevouts(tx) <= Found(u, intra, spent).Keys
    ensures Total(Found(u, intra + Created(tx, height, false), spent + Prevouts(tx))) +
            ValueIn(Found(u, intra, spent), tx.inputs) <=
            Total(Found(u, intra, spent)) + SumOutputs(tx.outputs)
  {
    TotalSpent(Found(u, intra, spent), tx.inputs);
    FoundSpent(u, intra, spent, Prevouts(tx));
    FoundCreated(u, intra, spent + Prevouts(tx), tx, height, false, |tx.outputs|);
    assert tx.outputs[..|tx.outputs|] == tx.outputs;
  }

  /** What the pass finds and the fees together stay within the old coins plus the coinbase. */
  lemma {:induction false} PassConserves(ctx: Context, u: Utxos, txs: seq<Tx>, k: nat)
    requires 0 < k <= |txs| && PassTxs(ctx, u, txs, k) == Accept
    ensures Total(PassView(u, txs, ctx.height, k)) + PassFees(ctx.height, u, txs, k) <=
            Total(u) + SumOutputs(txs[0].outputs)
    ensures PassFees(ctx.height, u, txs, k) >= 0 && WellFormed(txs[0])
  {
    if k == 1 {
      PassStarts(u, txs, ctx.height, k);
    } else {
      var j := k - 1;
      var view := PassView(u, txs, ctx.height, j);
      PassConserves(ctx, u, txs, j);
      SpendableKeys(ctx, view, txs[j].inputs);
      FoundStep(u, CreatedBy(txs, ctx.height, j), SpentBy(txs, j), txs[j], ctx.height);
    }
  }

  lemma {:induction false} PassStarts(u: Utxos, txs: seq<Tx>, height: nat, k: nat)
    requires k == 1 <= |txs|
    ensures Total(PassView(u, txs, height, k)) <= Total(u) + SumOutputs(txs[0].outputs)
  {
    FoundCreated(u, map[], {}, txs[0], height, true, |txs[0].outputs|);
    assert txs[0].outputs[..|txs[0].outputs|] == txs[0].outputs;
    assert Found(u, map[], {}) == u;
    assert CreatedBy(txs, height, k) == CreatedBy(txs, height, k - 1) + Created(txs[0], height, true);
  }

  /** So every sum fits 64 bits. */
  lemma {:induction false} PassFits(ctx: Context, u: Utxos, txs: seq<Tx>, k: nat)
    requires 0 < k <= |txs| && PassTxs(ctx, u, txs, k) == Accept && Total(u) <= MAX_MONEY
    ensures Total(PassView(u, txs, ctx.height, k)) < U64 && 0 <= PassFees(ctx.height, u, txs, k) <= 2 * MAX_MONEY
    ensures SumOutputs(txs[0].outputs) <= MAX_MONEY
  {
    PassConserves(ctx, u, txs, k);
  }

  // ----- The pass

  ghost function TallyOf(ctx: Context, u: Utxos, txs: seq<Tx>, k: nat): Tally
    requires k <= |txs|
  {
    Tally(CreatedBy(txs, ctx.height, k), SpentBy(txs, k), PassBatch(u, txs, ctx.height, k),
          PassFees(ctx.height, u, txs, k), PassSigops(ctx, u, txs, k))
  }

  lemma {:induction false} TallyStart(ctx: Context, u: Utxos, txs: seq<Tx>, n: nat)
    requires n == 1 <= |txs|
    ensures TallyOf(ctx, u, txs, n) ==
            Tally(map[] + Created(txs[0], ctx.height, true), {}, AddCoins(Batch([], [], []), txs[0], ctx.height, true),
                  0, ctx.sigops(txs[0], []))
  {
    assert CreatedBy(txs, ctx.height, n) == CreatedBy(txs, ctx.height, n - 1) + Created(txs[0], ctx.height, true);
    assert PassSigops(ctx, u, txs, n) == PassSigops(ctx, u, txs, n - 1) + ctx.sigops(txs[0], []);
  }

  lemma {:induction false} FirstPasses(ctx: Context, u: Utxos, txs: seq<Tx>, n: nat)
    requires n == 1 <= |txs| && Standalone(ctx, u, txs[0])
    ensures PassTxs(ctx, u, txs, n) == Accept
  {
    assert PassTxs(ctx, u, txs, n - 1) == Accept;
  }

  /** Until the 64-bit fee total wraps, which it never does, tallies add up. */
  lemma {:induction false} TallyStep(ctx: Context, u: Utxos, txs: seq<Tx>, k: nat, n: nat)
    requires 0 < k < |txs| && n == k + 1
    requires 0 <= PassFees(ctx.height, u, txs, n) < U64
    ensures TallyOf(ctx, u, txs, n) == AddTx(ctx, TallyOf(ctx, u, txs, k), PassView(u, txs, ctx.height, k), txs[k])
  {}

  lemma {:induction false} NotPassed(ctx: Context, u: Utxos, txs: seq<Tx>, k: nat, n: nat)
    requires k < |txs| && n == k + 1 && PassTx(ctx, u, txs, k) == Reject
    ensures PassVerdict(ctx, u, txs) == Reject
  {
    assert PassTxs(ctx, u, txs, n) == Reject;
    StaysRejected(ctx, u, txs, n, |txs|);
  }

  /** Decide one more transaction of the block and add its effects. */
  method CheckNext(ctx: Context, u: Utxos, txs: seq<Tx>, k: nat, t: Tally) returns (ok: bool, t': Tally)
    requires 0 < k < |txs| && Total(u) <= MAX_MONEY
    requires PassTxs(ctx, u, txs, k) == Accept && t == TallyOf(ctx, u, txs, k)
    ensures ok <==> PassTx(ctx, u, txs, k) == Accept
    ensures ok ==> t' == AddTx(ctx, t, PassView(u, txs, ctx.height, k), txs[k])
  {
    ok := CheckStandalone(ctx, u, txs[k]);
    if !ok {
      return false, t;
    }
    PassFits(ctx, u, txs, k);
    ok, t' := SpendTransaction(ctx, u, PassView(u, txs, ctx.height, k), t, txs[k]);
  }

  /** One more transaction of the block. */
  method ValidateNext(ctx: Context, u: Utxos, txs: seq<Tx>, k: nat, t: Tally) returns (ok: bool, t': Tally)
    requires 0 < k < |txs| && Total(u) <= MAX_MONEY
    requires PassTxs(ctx, u, txs, k) == Accept && t == TallyOf(ctx, u, txs, k)
    ensures !ok ==> PassVerdict(ctx, u, txs) == Reject
    ensures ok ==> var n := k + 1; PassTxs(ctx, u, txs, n) == Accept && t' == TallyOf(ctx, u, txs, n)
  {
    ok, t' := CheckNext(ctx, u, txs, k, t);
    if ok {
      PassFits(ctx, u, txs, k + 1);
      TallyStep(ctx, u, txs, k, k + 1);
    } else {
      NotPassed(ctx, u, txs, k, k + 1);
    }
  }

  method ValidateCoinbase(ctx: Context, u: Utxos, txs: seq<Tx>) returns (ok: bool, t: Tally, k: nat)
    requires |txs| > 0
    ensures 0 < k <= |txs|
    ensures !ok ==> PassVerdict(ctx, u, txs) == Reject
    ensures ok ==> PassTxs(ctx, u, txs, k) == Accept && t == TallyOf(ctx, u, txs, k)
  {
    k := 1;
    var intra, batch := map[], Batch([], [], []);
    ok := CheckStandalone(ctx, u, txs[0]);
    if !ok {
      NotPassed(ctx, u, txs, k - 1, k);
      return false, Tally(intra, {}, batch, 0, 0), k;
    }
    intra, batch := AddOutputs(txs[0], ctx.height, true, intra, batch);
    TallyStart(ctx, u, txs, k);
    FirstPasses(ctx, u, txs, k);
    t := Tally(intra, {}, batch, 0, ctx.sigops(txs[0], []));
  }

  method ValidateEach(ctx: Context, u: Utxos, txs: seq<Tx>) returns (ok: bool, t: Tally)
    requires |txs| > 0 && Total(u) <= MAX_MONEY
    ensures !ok ==> PassVerdict(ctx, u, txs) == Reject
    ensures ok ==> PassTxs(ctx, u, txs, |txs|) == Accept && t == TallyOf(ctx, u, txs, |txs|)
  {
    var k;
    ok, t, k := ValidateCoinbase(ctx, u, txs);
    if !ok {
      return;
    }
    while k < |txs|
      invariant 0 < k <= |txs| && PassTxs(ctx, u, txs, k) == Accept && t == TallyOf(ctx, u, txs, k)
    {
      ok, t := ValidateNext(ctx, u, txs, k, t);
      if !ok {
        return;
      }
      k := k + 1;
    }
  }

  /** The block-wide limits on signature operations and on the coinbase. */
  method CheckLimits(ctx: Context, ghost u: Utxos, txs: seq<Tx>, fees: int, sigops: nat) returns (ok: bool)
    requires |txs| > 0 && Total(u) <= MAX_MONEY && ctx.subsidy <= MAX_MONEY
    requires PassTxs(ctx, u, txs, |txs|) == Accept
    requires fees == PassFees(ctx.height, u, txs, |txs|) && sigops == PassSigops(ctx, u, txs, |txs|)
    ensures ok <==> PassVerdict(ctx, u, txs) == Accept
  {
    if sigops > MAX_BLOCK_SIGOPS_COST {
      return false;
    }
    PassFits(ctx, u, txs, |txs|);
    NoWrap(ctx.subsidy, fees);
    var coinbase := OutputValue(txs[0]);
    ok := coinbase <= AddU64(ctx.subsidy, fees);
  }

  /** One pass over any block, with 64-bit sums: it accepts exactly what its rule accepts. Where transaction ids
      identify transactions and the block spends no coin it remakes, those are exactly the blocks acceptable one
      transaction at a time, although it looks coins up in the set from before the block. */
  method ValidateTransactions(ctx: Context, u: Utxos, txs: seq<Tx>) returns (ok: bool, batch: Batch)
    requires Total(u) <= MAX_MONEY && ctx.subsidy <= MAX_MONEY
    ensures ok <==> PassVerdict(ctx, u, txs) == Accept
    ensures ok ==> batch == PassBatch(u, txs, ctx.height, |txs|)
    ensures Identified(ctx, u, txs) ==> (ok <==> BlockAccepted(ctx, u, txs))
    ensures Identified(ctx, u, txs) && ok ==> batch == BatchOf(u, txs, ctx.height, |txs|)
  {
    if |txs| == 0 {
      batch := Batch([], [], []);
      ok := true;
    } else {
      var t;
      ok, t := ValidateEach(ctx, u, txs);
      if ok {
        ok := CheckLimits(ctx, u, txs, t.fees, t.sigops);
      }
      batch := t.batch;
    }
    if Identified(ctx, u, txs) {
      PassIsReplay(ctx, u, txs);
    }
  }

  // ----- The pass and the replay

  /** Both find the same coins at these outpoints. */
  ghost predicate SameAt(v: Utxos, v': Utxos, ops: set<OutPoint>)
  {
    forall op :: op in ops ==> (op in v <==> op in v') && CoinAt(v, op) == CoinAt(v', op)
  }

  lemma {:induction false} SameLookups(ctx: Context, v: Utxos, v': Utxos, inputs: seq<TxIn>)
    requires SameAt(v, v', PrevoutSet(inputs))
    ensures AllSpendable(ctx, v, inputs) <==> AllSpendable(ctx, v', inputs)
    ensures ValueIn(v, inputs) == ValueIn(v', inputs) && CoinsOf(v, inputs) == CoinsOf(v', inputs)
    ensures SpentPairs(v, inputs) == SpentPairs(v', inputs)
  {
    if |inputs| > 0 {
      SameLookups(ctx, v, v', inputs[..|inputs| - 1]);
      assert inputs[|inputs| - 1].prev in PrevoutSet(inputs);
    }
  }

  /** What a transaction of a replaying block spends, the pass finds as the replay does. */
  lemma {:induction false} PassSees(u: Utxos, txs: seq<Tx>, height: nat, k: nat)
    requires 0 < k < |txs| && Replays(u, txs, height, k)
    ensures SameAt(PassView(u, txs, height, k), After(u, txs, height, k), Prevouts(txs[k]))
  {
    TracksAll(u, txs, height, k);
    OwnAll(u, txs, height, k);
    SpentGrows(txs, k, |txs|);
  }

  lemma {:induction false} PassTxIsReplay(ctx: Context, u: Utxos, txs: seq<Tx>, k: nat)
    requires k < |txs| && Replays(u, txs, ctx.height, k)
    ensures PassTx(ctx, u, txs, k) == TxVerdict(ctx, u, txs, k)
  {
    if k > 0 {
      PassSees(u, txs, ctx.height, k);
      SameLookups(ctx, PassView(u, txs, ctx.height, k), After(u, txs, ctx.height, k), txs[k].inputs);
    }
  }

  lemma {:induction false} PassTxsAreReplay(ctx: Context, u: Utxos, txs: seq<Tx>, n: nat)
    requires n <= |txs| && Identified(ctx, u, txs)
    ensures PassTxs(ctx, u, txs, n) == TxsVerdict(ctx, u, txs, n)
  {
    if n > 0 {
      var k := n - 1;
      PassTxsAreReplay(ctx, u, txs, k);
      if PassTxs(ctx, u, txs, k) == Accept {
        assert TxsAccepted(ctx, u, txs, k);
        AcceptedReplays(ctx, u, txs, k);
        PassTxIsReplay(ctx, u, txs, k);
      }
    }
  }

  lemma {:induction false} PassTotalsAreReplay(ctx: Context, u: Utxos, txs: seq<Tx>, n: nat)
    requires n <= |txs| && Replays(u, txs, ctx.height, n)
    ensures PassFees(ctx.height, u, txs, n) == Fees(ctx.height, u, txs, n)
    ensures PassSigops(ctx, u, txs, n) == Sigops(ctx, u, txs, n)
    ensures PassBatch(u, txs, ctx.height, n) == BatchOf(u, txs, ctx.height, n)
  {
    if n > 0 {
      var k := n - 1;
      PassTotalsAreReplay(ctx, u, txs, k);
      if k > 0 {
        PassSees(u, txs, ctx.height, k);
        SameLookups(ctx, PassView(u, txs, ctx.height, k), After(u, txs, ctx.height, k), txs[k].inputs);
      }
    }
  }

  lemma {:induction false} PassIsReplay(ctx: Context, u: Utxos, txs: seq<Tx>)
    requires Identified(ctx, u, txs)
    ensures PassVerdict(ctx, u, txs) == BlockVerdict(ctx, u, txs)
    ensures BlockAccepted(ctx, u, txs) ==> PassBatch(u, txs, ctx.height, |txs|) == BatchOf(u, txs, ctx.height, |txs|)
  {
    PassTxsAreReplay(ctx, u, txs, |txs|);
    if TxsAccepted(ctx, u, txs, |txs|) {
      AcceptedReplays(ctx, u, txs, |txs|);
      PassTotalsAreReplay(ctx, u, txs, |txs|);
    }
  }
}
