/** A block whose disconnection does not fit one write: a crash in between leaves a set of coins that belongs to no
    height. */
module TornDisconnect {
  import opened Maps
  import opened Sums
  import opened Transactions
  import opened Ledger
  import opened BlockValidation
  import opened Chain
  import opened UtxoStore

  // ----- A transaction with many inputs

  function Inputs(n: nat): (r: seq<TxIn>)
    ensures |r| == n
  {
    if n == 0 then [] else Inputs(n - 1) + [TxIn(OutPoint(9, n - 1), 0)]
  }

  /** As many equal coins. */
  function Wallet(n: nat, c: Coin): Utxos
  {
    if n == 0 then map[] else Wallet(n - 1, c)[OutPoint(9, n - 1) := c]
  }

  lemma {:induction false} InputsNext(n: nat)
    ensures Inputs(n + 1)[..n] == Inputs(n) && Inputs(n + 1)[n].prev == OutPoint(9, n)
  {}

  lemma {:induction false} WalletIs(n: nat, c: Coin)
    ensures forall op :: op in Wallet(n, c) <==> op.txid == 9 && op.vout < n
    ensures forall op :: op in Wallet(n, c) ==> Wallet(n, c)[op] == c
  {
    if n > 0 {
      WalletIs(n - 1, c);
    }
  }

  lemma {:induction false} InputsAre(n: nat, c: Coin)
    ensures PrevoutSet(Inputs(n)) == Wallet(n, c).Keys && DistinctInputs(Inputs(n))
  {
    if n > 0 {
      InputsNext(n - 1);
      InputsAre(n - 1, c);
      WalletIs(n - 1, c);
    }
  }

  /** All inputs are coins of the wallet, which are worth something. */
  lemma {:induction false} InputsSpend(ctx: Context, u: Utxos, n: nat, c: Coin)
    requires ctx.maturity == 0 && c.amount > 0 && Part(Wallet(n, c), u)
    ensures AllSpendable(ctx, u, Inputs(n)) && ValueIn(u, Inputs(n)) >= n
  {
    if n > 0 {
      InputsNext(n - 1);
      WalletIs(n - 1, c);
      WalletIs(n, c);
      InputsSpend(ctx, u, n - 1, c);
      assert Spendable(ctx, u, OutPoint(9, n - 1));
    }
  }

  function Sweep(n: nat): Tx
  {
    Tx(2, 1, 0, Inputs(n), [TxOut(5, [0x51])], 0, 0)
  }

  function Coinbase(): Tx
  {
    Tx(1, 1, 0, [TxIn(NULL_OUTPOINT, 0)], [TxOut(5, [0x51])], 0, 0)
  }

  lemma {:induction false} OneMade(tx: Tx, height: nat, coinbase: bool)
    requires |tx.outputs| == 1 && tx.outputs[0] == TxOut(5, [0x51])
    ensures Created(tx, height, coinbase).Keys == {OutPoint(tx.txid, 0)} && SumOutputs(tx.outputs) == 5
  {
    OutputsAre(tx, height, coinbase, 1);
    assert OutPoint(tx.txid, 0) in Created(tx, height, coinbase);
    assert tx.outputs[..0] == [];
  }

  lemma {:induction false} SweepEffect(n: nat, c: Coin, u: Utxos, height: nat)
    requires u == Wallet(n, c)
    ensures var v := ApplyTx(u, Coinbase(), height, true); v.Keys == u.Keys + {OutPoint(1, 0)} && Part(u, v)
    ensures Prevouts(Sweep(n)) == u.Keys && DistinctInputs(Sweep(n).inputs)
    ensures Created(Sweep(n), height, false).Keys == {OutPoint(2, 0)} && SumOutputs(Sweep(n).outputs) == 5
    ensures Created(Coinbase(), height, true).Keys == {OutPoint(1, 0)}
  {
    OneMade(Coinbase(), height, true);
    OneMade(Sweep(n), height, false);
    WalletIs(n, c);
    InputsAre(n, c);
    assert OutPoint(1, 0) !in u;
  }

  lemma {:induction false} SweepSpends(ctx: Context, n: nat, c: Coin, v: Utxos)
    requires ctx == PlainContext(ctx.height, true) && n >= 5 && c.amount > 0 && Part(Wallet(n, c), v)
    ensures Spends(ctx, v, Sweep(n)) && ValueIn(v, Sweep(n).inputs) >= 5
  {
    InputsSpend(ctx, v, n, c);
    assert Sweep(n).outputs[..0] == [];
    assert ctx.scripts(Sweep(n), CoinsOf(v, Sweep(n).inputs));
  }

  /** A block that the chain accepts sweeps any number of coins. */
  lemma {:induction false} SweepAccepted(ctx: Context, n: nat, c: Coin, u: Utxos, txs: seq<Tx>, m: nat)
    requires n >= 5 && c.amount > 0 && ctx == PlainContext(ctx.height, true)
    requires u == Wallet(n, c) && txs == [Coinbase(), Sweep(n)] && m == 2
    ensures Identified(ctx, u, txs) && BlockAccepted(ctx, u, txs)
  {
    WalletIs(n, c);
    SweepEffect(n, c, u, ctx.height);
    OneAccepted(ctx, u, txs, m - 1);
    assert After(u, txs, ctx.height, m - 1) == ApplyTx(After(u, txs, ctx.height, m - 2), Coinbase(), ctx.height, true);
    SweepSpends(ctx, n, c, After(u, txs, ctx.height, m - 1));
    assert WellFormed(Sweep(n)) && TxAccepted(ctx, u, txs, m - 1);
    assert Coinbase().outputs[..0] == [];
    assert Fees(ctx.height, u, txs, m - 1) == 0;
    assert TxsAccepted(ctx, u, txs, m);
  }

  // ----- What its disconnection writes

  lemma {:induction false} BulkOfWallet(b: Buffer, n: nat, k: nat, c: Coin)
    requires k <= n && Inserts(b) == Wallet(n, c)
    ensures Bulk(b, Wallet(k, c).Keys) == k * CoinSize(c)
  {
    WalletIs(n, c);
    if k == 0 {
      NothingWritten(b, map[]);
    } else {
      var op := OutPoint(9, k - 1);
      WalletIs(k - 1, c);
      BulkOfWallet(b, n, k - 1, c);
      assert op in Inserts(b);
      WriteSize(b, Wallet(k - 1, c).Keys, op);
      assert Wallet(k, c).Keys == Wallet(k - 1, c).Keys + {op};
      OneMore(k, CoinSize(c));
    }
  }

  lemma {:induction false} OneMore(k: nat, size: nat)
    requires k > 0
    ensures k * size == (k - 1) * size + size
  {}

  lemma {:induction false} BulkGrows(b: Buffer, ops: set<OutPoint>)
    ensures Bulk(b, ops) <= Bulk(b, b.Keys)
  {
    SumLess(Sizes(b, b.Keys), b.Keys - ops);
    assert Sizes(b, b.Keys) - (b.Keys - ops) == Sizes(b, ops);
  }

  lemma {:induction false} SweepSets(n: nat, c: Coin, u: Utxos, txs: seq<Tx>, height: nat, m: nat)
    requires u == Wallet(n, c) && txs == [Coinbase(), Sweep(n)] && m == 2
    ensures CreatedBy(txs, height, m).Keys == {OutPoint(1, 0), OutPoint(2, 0)} && SpentBy(txs, m) == u.Keys
  {
    SweepEffect(n, c, u, height);
    assert CreatedBy(txs, height, m - 2) == map[] && SpentBy(txs, m - 2) == {};
    assert CreatedBy(txs, height, m - 1).Keys == {OutPoint(1, 0)} && SpentBy(txs, m - 1) == {};
  }

  lemma {:induction false} RecordsAre(records: Utxos, u: Utxos, intra: Utxos)
    requires records.Keys == u.Keys && u.Keys !! intra.Keys
    requires forall op :: op in u ==> records[op] == (u + intra)[op]
    ensures records == u && (map[] + records) - intra.Keys == u
  {}

  /** Taking the block back restores exactly the wallet. */
  lemma {:induction false} SweepRestored(n: nat, c: Coin, u: Utxos, txs: seq<Tx>, height: nat, removals: seq<OutPoint>,
                                         b: Buffer)
    requires u == Wallet(n, c) && txs == [Coinbase(), Sweep(n)]
    requires Replays(u, txs, height, |txs|) && TakesBack(u, txs, height, removals, b)
    ensures Inserts(b) == u
  {
    var spent, intra := BatchOf(u, txs, height, |txs|).spent, CreatedBy(txs, height, |txs|);
    WalletIs(n, c);
    SweepSets(n, c, u, txs, height, |txs|);
    UndoRemembers(u, txs, height, |txs|);
    RecordsAre(MapOf(spent), u, intra);
    ViewBatch(map[], map[], Batch(spent, removals, []), b);
    EmptyBuffer(map[], map[]);
    InsertsAreView(b);
  }

  lemma {:induction false} InsertsAreView(b: Buffer)
    ensures View(map[], b) == Inserts(b)
  {}

  /** When the coins take up a chunk, every flush of the disconnection leaves behind a disk that is wrong. */
  lemma {:induction false} SweepTears(n: nat, c: Coin, u: Utxos, txs: seq<Tx>, height: nat, removals: seq<OutPoint>,
                                      b: Buffer, w: Waiting, disk: Disk, trace: seq<Disk>)
    requires n >= 5 && c.amount > 0 && n * CoinSize(c) >= CHUNK_TARGET_BYTES
    requires u == Wallet(n, c) && txs == [Coinbase(), Sweep(n)] && TakesBack(u, txs, height, removals, b)
    requires disk.coins == After(u, txs, height, |txs|) && Leaves(disk, b, w, trace)
    ensures exists d :: d in trace && d.coins != disk.coins
  {
    var ctx := PlainContext(height, true);
    SweepAccepted(ctx, n, c, u, txs, 2);
    AcceptedReplays(ctx, u, txs, 2);
    SweepRestored(n, c, u, txs, height, removals, b);
    BulkOfWallet(b, n, n, c);
    BulkGrows(b, u.Keys);
    WalletIs(n, c);
    assert OutPoint(9, 0) in Inserts(b);
    CrashInDisconnect(u, txs, height, removals, b, w, disk, trace);
  }
}
