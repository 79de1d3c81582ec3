/** The active chain: connecting and disconnecting blocks over a UTXO set with undo records. */
module Chain {
  import opened Maps
  import opened Options
  import opened Transactions
  import opened Ledger
  import opened BlockValidation
  import opened Subsidy

  // ----- Undo records

  lemma {:induction false} SpentPairsAre(view: Utxos, inputs: seq<TxIn>)
    ensures MapOf(SpentPairs(view, inputs)).Keys == PrevoutSet(inputs)
    ensures forall op :: op in PrevoutSet(inputs) ==> MapOf(SpentPairs(view, inputs))[op] == CoinAt(view, op)
  {
    if |inputs| > 0 {
      var front, last := inputs[..|inputs| - 1], inputs[|inputs| - 1].prev;
      SpentPairsAre(view, front);
      MapOfConcat(SpentPairs(view, front), [(last, CoinAt(view, last))]);
      MapOfOne(last, CoinAt(view, last));
    }
  }

  lemma {:induction false} MapOfOne(op: OutPoint, c: Coin)
    ensures MapOf([(op, c)]) == map[op := c]
  {
    assert [(op, c)][..0] == [];
  }

  /** Every spent outpoint is recorded with the coin it held, created before the block or in it. */
  ghost predicate Remembers(records: seq<(OutPoint, Coin)>, all: Utxos, spent: set<OutPoint>)
  {
    && MapOf(records).Keys == spent <= all.Keys
    && forall op :: op in spent ==> MapOf(records)[op] == all[op]
  }

  lemma {:induction false} RemembersMore(records: seq<(OutPoint, Coin)>, all: Utxos, spent: set<OutPoint>, view: Utxos,
                                         inputs: seq<TxIn>, created: Utxos)
    requires Remembers(records, all, spent) && created.Keys !! spent && created.Keys !! PrevoutSet(inputs)
    requires PrevoutSet(inputs) <= view.Keys && view == all - spent
    ensures Remembers(records + SpentPairs(view, inputs), all + created, spent + PrevoutSet(inputs))
  {
    SpentPairsAre(view, inputs);
    MapOfConcat(records, SpentPairs(view, inputs));
  }

  lemma {:induction false} UndoRemembers(u: Utxos, txs: seq<Tx>, height: nat, k: nat)
    requires k <= |txs| && Replays(u, txs, height, k)
    ensures Remembers(BatchOf(u, txs, height, k).spent, u + CreatedBy(txs, height, k), SpentBy(txs, k))
  {
    if k <= 1 {
      assert BatchOf(u, txs, height, k).spent == [];
    } else {
      UndoRemembers(u, txs, height, k - 1);
      UndoStep(u, txs, height, k - 1, k);
    }
  }

  lemma {:induction false} UndoStep(u: Utxos, txs: seq<Tx>, height: nat, j: nat, k: nat)
    requires 0 < j < |txs| && k == j + 1 && Replays(u, txs, height, j) && Follows(u, txs, height, j)
    requires Remembers(BatchOf(u, txs, height, j).spent, u + CreatedBy(txs, height, j), SpentBy(txs, j))
    ensures Remembers(BatchOf(u, txs, height, k).spent, u + CreatedBy(txs, height, k), SpentBy(txs, k))
  {
    var intra, created := CreatedBy(txs, height, j), Created(txs[j], height, false);
    TracksAll(u, txs, height, j);
    OwnAll(u, txs, height, j);
    OutputsAreClear(u, txs, height, j, intra);
    RemembersMore(BatchOf(u, txs, height, j).spent, u + intra, SpentBy(txs, j), After(u, txs, height, j), txs[j].inputs,
                  created);
    Associate(u, intra, created);
    assert CreatedBy(txs, height, k) == intra + created;
    assert SpentBy(txs, k) == SpentBy(txs, j) + Prevouts(txs[j]);
  }

  /** The reverse batch: restore what was spent, then remove what was created. */
  function Reversed(u: Utxos, spent: seq<(OutPoint, Coin)>, created: set<OutPoint>): Utxos
  {
    (u + MapOf(spent)) - created
  }

  /** Some coin is made again although it is still there. */
  ghost predicate Overwrites(u: Utxos, txs: seq<Tx>, height: nat)
  {
    !(CreatedBy(txs, height, |txs|).Keys !! u.Keys)
  }

  /** Reversing a block restores the exact set from before it exactly when the block made no coin over an older one. */
  lemma {:induction false} ReversedRestoresWhen(u: Utxos, txs: seq<Tx>, height: nat)
    requires Replays(u, txs, height, |txs|)
    ensures var created := CreatedBy(txs, height, |txs|).Keys;
            Reversed(After(u, txs, height, |txs|), BatchOf(u, txs, height, |txs|).spent, created) == u
            <==> !Overwrites(u, txs, height)
  {
    var created, spent := CreatedBy(txs, height, |txs|), SpentBy(txs, |txs|);
    UndoRemembers(u, txs, height, |txs|);
    TracksAll(u, txs, height, |txs|);
    ReversedSets(u, created, spent, After(u, txs, height, |txs|), MapOf(BatchOf(u, txs, height, |txs|).spent));
  }

  lemma {:induction false} ReversedSets(u: Utxos, intra: Utxos, spent: set<OutPoint>, all: Utxos, records: Utxos)
    requires all == (u + intra) - spent
    requires records.Keys == spent <= (u + intra).Keys && forall op :: op in spent ==> records[op] == (u + intra)[op]
    ensures (all + records) - intra.Keys == u <==> intra.Keys !! u.Keys
  {
    assert all + records == u + intra;
    assert (u + intra) - intra.Keys == u - intra.Keys;
    if !(intra.Keys !! u.Keys) {
      var op :| op in intra && op in u;
      assert op !in u - intra.Keys;
    } else {
      assert u - intra.Keys == u;
    }
  }

  /** A block that was checked against the set makes no coin over an older one. */
  lemma {:induction false} CheckedOverwritesNothing(ctx: Context, u: Utxos, txs: seq<Tx>, k: nat)
    requires k <= |txs| && ctx.bip30 && TxsAccepted(ctx, u, txs, k)
    ensures CreatedBy(txs, ctx.height, k).Keys !! u.Keys
  {
    if k > 0 {
      CheckedOverwritesNothing(ctx, u, txs, k - 1);
      OutputsAre(txs[k - 1], ctx.height, k == 1, |txs[k - 1].outputs|);
    }
  }

  /** The other order: remove what was created, then restore what was spent. */
  function RolledBack(u: Utxos, spent: seq<(OutPoint, Coin)>, created: set<OutPoint>): Utxos
  {
    (u - created) + MapOf(spent)
  }

  /** Some coin is created and spent in the same block. */
  ghost predicate SpendsOwn(txs: seq<Tx>, height: nat)
  {
    !(SpentBy(txs, |txs|) !! CreatedBy(txs, height, |txs|).Keys)
  }

  /** Rolling a block back in that order restores the set from before it exactly when the block spends none of the
      coins it creates itself and makes none over an older one. */
  lemma {:induction false} RollbackRestoresWhen(u: Utxos, txs: seq<Tx>, height: nat)
    requires Replays(u, txs, height, |txs|)
    ensures var created := CreatedBy(txs, height, |txs|).Keys;
            RolledBack(After(u, txs, height, |txs|), BatchOf(u, txs, height, |txs|).spent, created) == u
            <==> !SpendsOwn(txs, height) && !Overwrites(u, txs, height)
  {
    var created, spent := CreatedBy(txs, height, |txs|), SpentBy(txs, |txs|);
    UndoRemembers(u, txs, height, |txs|);
    TracksAll(u, txs, height, |txs|);
    OwnAll(u, txs, height, |txs|);
    var records := BatchOf(u, txs, height, |txs|).spent;
    RollbackSets(u, created, spent, After(u, txs, height, |txs|), MapOf(records));
  }

  lemma {:induction false} RollbackSets(u: Utxos, intra: Utxos, spent: set<OutPoint>, all: Utxos, records: Utxos)
    requires all == (u + intra) - spent && forall op :: op in intra && op in u ==> op !in spent
    requires records.Keys == spent <= (u + intra).Keys && forall op :: op in spent ==> records[op] == (u + intra)[op]
    ensures (all - intra.Keys) + records == u <==> spent !! intra.Keys && intra.Keys !! u.Keys
  {
    var back := (all - intra.Keys) + records;
    if !(spent !! intra.Keys) {
      var op :| op in spent && op in intra;
      assert op in back && op !in u;
    } else if !(intra.Keys !! u.Keys) {
      var op :| op in intra && op in u;
      assert op !in back;
    } else {
      assert back == u;
    }
  }

  // ----- Two blocks that do not come back

  /** Nothing is checked but the coins. */
  function PlainContext(height: nat, bip30: bool): Context
  {
    Context(height, 0, 0, false, (h: nat) => None, 0, bip30, 5, (tx: Tx) => true, (tx: Tx, coins: seq<Coin>) => 0,
            (tx: Tx, coins: seq<Coin>) => true)
  }

  /** A block the chain accepts whose third transaction spends an output of the second: rolling it back leaves that
      output behind. */
  lemma {:induction false} RollbackLeavesOwnSpend() returns (ctx: Context, u: Utxos, txs: seq<Tx>)
    ensures Identified(ctx, u, txs) && BlockAccepted(ctx, u, txs)
    ensures RolledBack(After(u, txs, ctx.height, |txs|), BatchOf(u, txs, ctx.height, |txs|).spent,
                       CreatedBy(txs, ctx.height, |txs|).Keys) != u
  {
    ctx := PlainContext(1, true);
    u := map[OutPoint(9, 0) := Coin(5, [0x51], 0, false)];
    var coinbase := Tx(1, 1, 0, [TxIn(NULL_OUTPOINT, 0)], [TxOut(5, [0x51])], 0, 0);
    var first := Tx(2, 1, 0, [TxIn(OutPoint(9, 0), 0)], [TxOut(5, [0x51])], 0, 0);
    var second := Tx(3, 1, 0, [TxIn(OutPoint(2, 0), 0)], [TxOut(5, [0x51])], 0, 0);
    txs := [coinbase, first, second];
    ThreeAccepted(ctx, u, txs, 3);
    AcceptedReplays(ctx, u, txs, |txs|);
    OwnSpend(txs, ctx.height, 3);
    RollbackRestoresWhen(u, txs, ctx.height);
  }

  /** Without the BIP 30 lookup, a block whose coinbase remakes an older coinbase coin, which its second transaction
      spends: the pass finds the older coin, which is mature; one transaction at a time the coin is new and is not. */
  lemma {:induction false} PassFindsOlder() returns (ctx: Context, u: Utxos, txs: seq<Tx>)
    ensures !ctx.bip30 && PassVerdict(ctx, u, txs) == Accept && !BlockAccepted(ctx, u, txs)
  {
    ctx := PlainContext(91842, false).(maturity := 100);
    var op := OutPoint(1, 0);
    u := map[op := Coin(5, [0x51], 91722, true)];
    var coinbase := Tx(1, 1, 0, [TxIn(NULL_OUTPOINT, 0)], [TxOut(5, [0x51])], 0, 0);
    var second := Tx(2, 1, 0, [TxIn(op, 0)], [TxOut(5, [0x51])], 0, 0);
    txs := [coinbase, second];
    OlderAccepted(ctx, u, txs, op, 2);
    NewerRejected(ctx, u, txs, op, 1);
  }

  lemma {:induction false} NewerRejected(ctx: Context, u: Utxos, txs: seq<Tx>, op: OutPoint, k: nat)
    requires |txs| == 2 && k == 1 && op == OutPoint(1, 0) && ctx.maturity > 0
    requires OneForOne(txs[0], 1, NULL_OUTPOINT) && OneForOne(txs[1], 2, op)
    ensures !BlockAccepted(ctx, u, txs)
  {
    var v := ApplyTx(u, txs[0], ctx.height, true);
    OutputsAre(txs[0], ctx.height, true, 1);
    assert op in Created(txs[0], ctx.height, true) && v[op].height == ctx.height && v[op].isCoinbase;
    assert After(u, txs, ctx.height, k) == ApplyTx(After(u, txs, ctx.height, k - 1), txs[0], ctx.height, true) == v;
    assert !Spendable(ctx, v, op);
    NotAllSpendable(ctx, v, txs[1].inputs, 0);
    if TxsAccepted(ctx, u, txs, |txs|) {
      EachAccepted(ctx, u, txs, |txs|, k);
    }
  }

  lemma {:induction false} OlderAccepted(ctx: Context, u: Utxos, txs: seq<Tx>, op: OutPoint, n: nat)
    requires |txs| == n == 2 && op == OutPoint(1, 0) && u.Keys == {op} && u[op].amount == 5
    requires ctx == PlainContext(ctx.height, false).(maturity := 100) && u[op].height + 100 <= ctx.height
    requires OneForOne(txs[0], 1, NULL_OUTPOINT) && OneForOne(txs[1], 2, op)
    ensures PassVerdict(ctx, u, txs) == Accept
  {
    var v := PassView(u, txs, ctx.height, n - 1);
    OneForOneEffect(u, txs[0], 1, NULL_OUTPOINT, ctx.height, true);
    OneForOneEffect(u, txs[1], 2, op, ctx.height, false);
    assert SpentBy(txs, n - 1) == {} && op in v && v[op] == u[op];
    OneForOneSpends(ctx, v, txs[1], 2, op);
    assert PassTxs(ctx, u, txs, n - 2) == Accept && PassTx(ctx, u, txs, n - 2) == Accept;
    assert PassTxs(ctx, u, txs, n - 1) == Accept;
    assert WellFormed(txs[1]) && PassTx(ctx, u, txs, n - 1) == Accept;
    assert PassSigops(ctx, u, txs, n - 2) == 0 && PassSigops(ctx, u, txs, n - 1) == 0;
    assert PassFees(ctx.height, u, txs, n - 1) == 0 && PassFees(ctx.height, u, txs, n) == 0;
  }

  /** Such a transaction is accepted where its input is worth 5 and old enough. */
  lemma {:induction false} OneForOneSpends(ctx: Context, v: Utxos, tx: Tx, txid: Txid, prev: OutPoint)
    requires OneForOne(tx, txid, prev) && prev in v && v[prev].amount == 5 && Mature(ctx, v[prev]) && !ctx.csv
    requires forall coins :: ctx.scripts(tx, coins)
    ensures Spends(ctx, v, tx) && ValueIn(v, tx.inputs) == 5
  {
    OneForOneEffect(v, tx, txid, prev, ctx.height, false);
    assert tx.inputs[..|tx.inputs| - 1] == [] && AllSpendable(ctx, v, []) && ValueIn(v, []) == 0;
    assert Spendable(ctx, v, prev);
    assert ctx.scripts(tx, CoinsOf(v, tx.inputs));
  }

  /** A block the chain accepts where it does not look for older coins, as at the two exempt heights: disconnecting
      it loses the older coin. */
  lemma {:induction false} DisconnectLosesOverwritten() returns (ctx: Context, u: Utxos, txs: seq<Tx>)
    ensures Identified(ctx, u, txs) && BlockAccepted(ctx, u, txs)
    ensures Reversed(After(u, txs, ctx.height, |txs|), BatchOf(u, txs, ctx.height, |txs|).spent,
                     CreatedBy(txs, ctx.height, |txs|).Keys) != u
  {
    ctx := PlainContext(91842, false);
    u := map[OutPoint(1, 0) := Coin(5, [0x51], 91812, true)];
    var coinbase := Tx(1, 1, 0, [TxIn(NULL_OUTPOINT, 0)], [TxOut(5, [0x51])], 0, 0);
    txs := [coinbase];
    OneAccepted(ctx, u, txs, 1);
    AcceptedReplays(ctx, u, txs, |txs|);
    OneForOneEffect(u, coinbase, 1, NULL_OUTPOINT, ctx.height, true);
    assert OutPoint(1, 0) in CreatedBy(txs, ctx.height, |txs|);
    ReversedRestoresWhen(u, txs, ctx.height);
  }

  /** One input, one spendable output worth 5. */
  ghost predicate OneForOne(tx: Tx, txid: Txid, prev: OutPoint)
  {
    && tx.txid == txid && tx.lockTime == 0 && |tx.inputs| == |tx.outputs| == 1 && tx.inputs[0].prev == prev
    && tx.outputs[0].value == 5 && !IsOpReturn(tx.outputs[0].script)
  }

  lemma {:induction false} OneForOneEffect(u: Utxos, tx: Tx, txid: Txid, prev: OutPoint, height: nat, coinbase: bool)
    requires OneForOne(tx, txid, prev)
    ensures Created(tx, height, coinbase).Keys == {OutPoint(txid, 0)}
    ensures Prevouts(tx) == {prev} && DistinctInputs(tx.inputs) && SumOutputs(tx.outputs) == 5
    ensures ApplyTx(u, tx, height, coinbase).Keys ==
            (if coinbase then u.Keys else u.Keys - {prev}) + {OutPoint(txid, 0)}
    ensures ApplyTx(u, tx, height, coinbase)[OutPoint(txid, 0)].amount == 5
    ensures forall op :: op in u && op != prev && op.txid != txid ==>
              op in ApplyTx(u, tx, height, coinbase) && ApplyTx(u, tx, height, coinbase)[op] == u[op]
  {
    OnePrevout(tx.inputs);
    OutputsAre(tx, height, coinbase, 1);
    assert Created(tx, height, coinbase).Keys == {OutPoint(txid, 0)};
    assert tx.outputs[..0] == [];
  }

  lemma {:induction false} OneAccepted(ctx: Context, u: Utxos, txs: seq<Tx>, n: nat)
    requires n == 1 <= |txs| && OneForOne(txs[0], 1, NULL_OUTPOINT)
    requires ctx.allowed(txs[0]) && ctx.sigops(txs[0], []) == 0
    requires ctx.bip30 ==> NotYetCreated(u, txs[0])
    ensures WellFormed(txs[0]) && IsCoinbase(txs[0]) && TxsAccepted(ctx, u, txs, n) && Sigops(ctx, u, txs, n) == 0
    ensures |txs| == 1 && ctx.subsidy >= 5 ==> BlockAccepted(ctx, u, txs)
    ensures |txs| == 1 && NULL_OUTPOINT !in u ==> Identified(ctx, u, txs)
  {
    OneForOneEffect(u, txs[0], 1, NULL_OUTPOINT, ctx.height, true);
    assert TxsAccepted(ctx, u, txs, n - 1) && TxAccepted(ctx, u, txs, n - 1);
    assert Sigops(ctx, u, txs, n) == Sigops(ctx, u, txs, n - 1) + ctx.sigops(txs[0], []);
    assert SpentBy(txs, n) == {};
  }

  lemma {:induction false} NextAccepted(ctx: Context, u: Utxos, txs: seq<Tx>, k: nat, n: nat, txid: Txid,
                                        prev: OutPoint)
    requires 0 < k < |txs| && n == k + 1 && TxsAccepted(ctx, u, txs, k) && OneForOne(txs[k], txid, prev)
    requires prev != NULL_OUTPOINT && prev in After(u, txs, ctx.height, k)
    requires After(u, txs, ctx.height, k)[prev].amount == 5
    requires ctx == PlainContext(ctx.height, true) && NotYetCreated(u, txs[k])
    ensures TxsAccepted(ctx, u, txs, n) && Sigops(ctx, u, txs, n) == Sigops(ctx, u, txs, k)
    ensures Fees(ctx.height, u, txs, n) == Fees(ctx.height, u, txs, k)
  {
    OneForOneEffect(u, txs[k], txid, prev, ctx.height, false);
    OneForOneSpends(ctx, After(u, txs, ctx.height, k), txs[k], txid, prev);
    assert WellFormed(txs[k]);
    assert TxAccepted(ctx, u, txs, k);
  }

  lemma {:induction false} ThreeAccepted(ctx: Context, u: Utxos, txs: seq<Tx>, n: nat)
    requires n == |txs| == 3 && ctx == PlainContext(ctx.height, true)
    requires u.Keys == {OutPoint(9, 0)} && u[OutPoint(9, 0)].amount == 5
    requires OneForOne(txs[0], 1, NULL_OUTPOINT) && OneForOne(txs[1], 2, OutPoint(9, 0))
    requires OneForOne(txs[2], 3, OutPoint(2, 0))
    ensures Identified(ctx, u, txs) && BlockAccepted(ctx, u, txs)
  {
    var one, two := n - 2, n - 1;
    OneAccepted(ctx, u, txs, one);
    ThreeViews(u, txs, ctx.height, one, two);
    NextAccepted(ctx, u, txs, one, two, 2, OutPoint(9, 0));
    NextAccepted(ctx, u, txs, two, n, 3, OutPoint(2, 0));
    assert Fees(ctx.height, u, txs, one) == 0;
  }

  lemma {:induction false} ThreeViews(u: Utxos, txs: seq<Tx>, height: nat, one: nat, two: nat)
    requires one == 1 && two == 2 && |txs| == 3
    requires u.Keys == {OutPoint(9, 0)} && u[OutPoint(9, 0)].amount == 5
    requires OneForOne(txs[0], 1, NULL_OUTPOINT) && OneForOne(txs[1], 2, OutPoint(9, 0))
    ensures var v := After(u, txs, height, one); OutPoint(9, 0) in v && v[OutPoint(9, 0)].amount == 5
    ensures var v := After(u, txs, height, two); OutPoint(2, 0) in v && v[OutPoint(2, 0)].amount == 5
    ensures SumOutputs(txs[0].outputs) == 5
  {
    assert After(u, txs, height, one - 1) == u;
    OneForOneEffect(u, txs[0], 1, NULL_OUTPOINT, height, true);
    OneForOneEffect(After(u, txs, height, one), txs[1], 2, OutPoint(9, 0), height, false);
  }

  lemma {:induction false} OwnSpend(txs: seq<Tx>, height: nat, n: nat)
    requires n == |txs| == 3 && OneForOne(txs[1], 2, OutPoint(9, 0)) && OneForOne(txs[2], 3, OutPoint(2, 0))
    ensures SpendsOwn(txs, height)
  {
    OneForOneEffect(map[], txs[1], 2, OutPoint(9, 0), height, false);
    OneForOneEffect(map[], txs[2], 3, OutPoint(2, 0), height, false);
    assert OutPoint(2, 0) in CreatedBy(txs, height, n - 1);
    assert OutPoint(2, 0) in CreatedBy(txs, height, n).Keys;
    assert OutPoint(2, 0) in SpentBy(txs, n);
  }

  // ----- The active chain

  /** What is kept about a connected block so that it can be taken back. */
  datatype Undo = Undo(spent: seq<(OutPoint, Coin)>, created: seq<OutPoint>, prev: nat)

  function Tip(genesis: nat, chain: seq<Block>): nat
  {
    if |chain| == 0 then genesis else chain[|chain| - 1].hash
  }

  /** The coins after replaying a chain from genesis, one transaction at a time. */
  function Coins(chain: seq<Block>): Utxos
  {
    if |chain| == 0 then map[]
    else
      var last := chain[|chain| - 1];
      After(Coins(chain[..|chain| - 1]), last.txs, |chain|, |last.txs|)
  }

  /** The blocks link up, every one of them replays, no more value exists than was minted, and the null outpoint is
      not a coin. */
  ghost predicate Sound(genesis: nat, interval: nat, chain: seq<Block>)
    requires interval > 0
  {
    |chain| == 0 ||
    var front, last := chain[..|chain| - 1], chain[|chain| - 1];
    && Sound(genesis, interval, front)
    && last.prev == Tip(genesis, front)
    && Replays(Coins(front), last.txs, |chain|, |last.txs|)
    && Total(Coins(chain)) <= Minted(interval, |chain|)
    && NULL_OUTPOINT !in Coins(chain)
  }

  lemma {:induction false} ValueMinted(genesis: nat, interval: nat, chain: seq<Block>)
    requires 0 < interval <= 210_000 && Sound(genesis, interval, chain)
    ensures Total(Coins(chain)) <= Minted(interval, |chain|) < MAX_MONEY
  {
    MintedBelowMaxMoney(interval, |chain|);
    assert Total(map[]) == 0;
  }

  /** The record lists what a block spent and what it created. */
  ghost predicate Describes(r: Undo, u: Utxos, block: Block, height: nat)
  {
    && r.spent == BatchOf(u, block.txs, height, |block.txs|).spent
    && SetOf(r.created) == CreatedBy(block.txs, height, |block.txs|).Keys
    && r.prev == block.prev
  }

  /** Where an undo record of an active block is present, it is the right one. */
  ghost predicate UndoSound(chain: seq<Block>, undo: map<nat, Undo>)
  {
    |chain| == 0 ||
    var front, last := chain[..|chain| - 1], chain[|chain| - 1];
    && UndoSound(front, undo)
    && (last.hash in undo ==> Describes(undo[last.hash], Coins(front), last, |chain|))
  }

  function Hashes(chain: seq<Block>): set<nat>
  {
    if |chain| == 0 then {} else Hashes(chain[..|chain| - 1]) + {chain[|chain| - 1].hash}
  }

  lemma {:induction false} UndoAdded(chain: seq<Block>, undo: map<nat, Undo>, hash: nat, r: Undo)
    requires UndoSound(chain, undo) && hash !in Hashes(chain)
    ensures UndoSound(chain, undo[hash := r])
  {
    if |chain| > 0 {
      UndoAdded(chain[..|chain| - 1], undo, hash, r);
    }
  }

  lemma {:induction false} UndoDropped(chain: seq<Block>, undo: map<nat, Undo>, hash: nat)
    requires UndoSound(chain, undo)
    ensures UndoSound(chain, undo - {hash})
  {
    if |chain| > 0 {
      UndoDropped(chain[..|chain| - 1], undo, hash);
    }
  }

  /** An accepted block keeps the chain sound, and its batch takes the replayed coins one block further. */
  lemma {:induction false} Extended(genesis: nat, interval: nat, chain: seq<Block>, block: Block, longer: seq<Block>,
                                    ctx: Context)
    requires 0 < interval <= 210_000 && Sound(genesis, interval, chain) && block.prev == Tip(genesis, chain)
    requires longer == chain + [block] && ctx.height == |longer| && ctx.subsidy == BlockSubsidy(interval, |longer|)
    requires Identified(ctx, Coins(chain), block.txs) && BlockAccepted(ctx, Coins(chain), block.txs)
    ensures Sound(genesis, interval, longer) && Tip(genesis, longer) == block.hash
    ensures Coins(longer) == After(Coins(chain), block.txs, |longer|, |block.txs|)
    ensures Coins(longer) == ApplyBatch(Coins(chain), BatchOf(Coins(chain), block.txs, |longer|, |block.txs|))
  {
    assert longer[..|longer| - 1] == chain;
    AcceptedReplays(ctx, Coins(chain), block.txs, |block.txs|);
    BatchIsReplay(Coins(chain), block.txs, |longer|);
    SupplyGrowsBySubsidy(ctx, Coins(chain), block.txs);
    ValueMinted(genesis, interval, chain);
    NullNotMade(Coins(chain), block.txs, |longer|, |block.txs|);
  }

  lemma {:induction false} UndoExtended(chain: seq<Block>, undo: map<nat, Undo>, block: Block, longer: seq<Block>,
                                        r: Undo)
    requires UndoSound(chain, undo) && block.hash !in Hashes(chain) && longer == chain + [block]
    requires Describes(r, Coins(chain), block, |longer|)
    ensures UndoSound(longer, undo[block.hash := r])
  {
    assert longer[..|longer| - 1] == chain;
    UndoAdded(chain, undo, block.hash, r);
  }

  /** The outpoints of queued inserts. */
  method InsertedOps(inserts: seq<(OutPoint, Coin)>) returns (ops: seq<OutPoint>)
    ensures SetOf(ops) == MapOf(inserts).Keys
  {
    ops := [];
    var i := 0;
    while i < |inserts|
      invariant 0 <= i <= |inserts| && SetOf(ops) == MapOf(inserts[..i]).Keys
    {
      assert inserts[..i + 1][..i] == inserts[..i];
      SetOfConcat(ops, [inserts[i].0]);
      ops := ops + [inserts[i].0];
      i := i + 1;
    }
    assert inserts[..i] == inserts;
  }

  /** The outpoints of a transaction's spendable outputs. */
  method SpendableOps(tx: Tx, ghost height: nat, ghost coinbase: bool) returns (ops: seq<OutPoint>)
    ensures SetOf(ops) == Created(tx, height, coinbase).Keys
  {
    ops := [];
    var v := 0;
    while v < |tx.outputs|
      invariant 0 <= v <= |tx.outputs| && SetOf(ops) == Outputs(tx, height, coinbase, v).Keys
    {
      if !IsOpReturn(tx.outputs[v].script) {
        SetOfConcat(ops, [OutPoint(tx.txid, v)]);
        ops := ops + [OutPoint(tx.txid, v)];
      }
      v := v + 1;
    }
  }

  /** The outpoints a block creates, last transaction first. */
  method CreatedOps(txs: seq<Tx>, ghost height: nat) returns (ops: seq<OutPoint>)
    ensures SetOf(ops) == CreatedBy(txs, height, |txs|).Keys
  {
    ops := [];
    var i := |txs|;
    while i > 0
      invariant 0 <= i <= |txs|
      invariant SetOf(ops) + CreatedBy(txs, height, i).Keys == CreatedBy(txs, height, |txs|).Keys
    {
      var more := SpendableOps(txs[i - 1], height, i == 1);
      SetOfConcat(ops, more);
      ops := ops + more;
      i := i - 1;
    }
  }

  lemma {:induction false} Shortened(genesis: nat, interval: nat, chain: seq<Block>, undo: map<nat, Undo>, r: Undo)
    requires 0 < interval && |chain| > 0 && Sound(genesis, interval, chain) && UndoSound(chain, undo)
    requires Tip(genesis, chain) in undo && r == undo[Tip(genesis, chain)]
    ensures var front, last := chain[..|chain| - 1], chain[|chain| - 1];
            && Sound(genesis, interval, front) && last.prev == Tip(genesis, front)
            && Describes(r, Coins(front), last, |chain|)
            && (Reversed(Coins(chain), r.spent, CreatedBy(last.txs, |chain|, |last.txs|).Keys) == Coins(front)) ==
               !Overwrites(Coins(front), last.txs, |chain|)
            && UndoSound(front, undo - {last.hash})
  {
    var front, last := chain[..|chain| - 1], chain[|chain| - 1];
    ReversedRestoresWhen(Coins(front), last.txs, |chain|);
    UndoDropped(front, undo, last.hash);
  }

  lemma {:induction false} ShortenedBack(genesis: nat, interval: nat, chain: seq<Block>, undo: map<nat, Undo>, r: Undo)
    requires 0 < interval && |chain| > 0 && Sound(genesis, interval, chain) && UndoSound(chain, undo)
    requires Tip(genesis, chain) in undo && r == undo[Tip(genesis, chain)]
    ensures var front, last := chain[..|chain| - 1], chain[|chain| - 1];
            && Sound(genesis, interval, front) && r.prev == Tip(genesis, front)
            && (RolledBack(Coins(chain), r.spent, SetOf(r.created)) == Coins(front)) ==
               (!SpendsOwn(last.txs, |chain|) && !Overwrites(Coins(front), last.txs, |chain|))
            && UndoSound(front, undo - {last.hash})
  {
    var front, last := chain[..|chain| - 1], chain[|chain| - 1];
    Shortened(genesis, interval, chain, undo, r);
    RollbackRestoresWhen(Coins(front), last.txs, |chain|);
  }

  /** One less, but not less than zero. */
  function Below(height: nat): nat
  {
    if height == 0 then 0 else height - 1
  }

  class ChainState {
    const genesis: nat
    const interval: nat
    var utxo: Utxos
    var undo: map<nat, Undo>
    var bestHeight: nat
    var bestHash: nat
    /** The connected blocks above genesis. */
    ghost var chain: seq<Block>

    /** The set is the replay of the active chain, and holds no more than was minted. */
    ghost predicate Valid()
      reads this
    {
      && 0 < interval <= 210_000
      && bestHeight == |chain| && bestHash == Tip(genesis, chain)
      && utxo == Coins(chain)
      && Sound(genesis, interval, chain)
      && UndoSound(chain, undo) && genesis !in undo
    }

    constructor (genesis: nat, interval: nat)
      requires 0 < interval <= 210_000
      ensures Valid() && chain == [] && this.genesis == genesis && this.interval == interval
    {
      this.genesis, this.interval := genesis, interval;
      utxo, undo, bestHeight, bestHash, chain := map[], map[], 0, genesis, [];
    }

    /** Connect a block on top of the tip; `headerOk` stands for the checks on the header, the Merkle root, the weight
        and the witness commitment. A rejected block changes nothing. Any block is judged by the rule of the pass; where
        transaction ids identify transactions and the block spends no coin it remakes, that is the rule one transaction
        at a time, and the set stays the replay of the chain. */
    method ConnectBlock(block: Block, ctx: Context, headerOk: bool) returns (ok: bool)
      requires Valid()
      requires block.prev == bestHash && block.hash !in Hashes(chain) && block.hash != genesis
      requires ctx.height == bestHeight + 1 && ctx.subsidy == BlockSubsidy(interval, ctx.height)
      modifies this
      ensures ok <==> headerOk && PassVerdict(ctx, old(utxo), block.txs) == Accept
      ensures ok ==> chain == old(chain) + [block] && block.hash in undo
      ensures ok ==> utxo == ApplyBatch(old(utxo), PassBatch(old(utxo), block.txs, ctx.height, |block.txs|))
      ensures !ok ==> unchanged(this)
      ensures Identified(ctx, old(utxo), block.txs) ==> Valid()
      ensures Identified(ctx, old(utxo), block.txs) ==> (ok <==> headerOk && BlockAccepted(ctx, old(utxo), block.txs))
      ensures Identified(ctx, old(utxo), block.txs) && ok ==>
                utxo == After(old(utxo), block.txs, ctx.height, |block.txs|)
    {
      if !headerOk {
        return false;
      }
      var batch, record;
      ok, batch, record := CheckBlock(block, ctx);
      if !ok {
        return;
      }
      ghost var longer := chain + [block];
      if Identified(ctx, utxo, block.txs) {
        Extended(genesis, interval, chain, block, longer, ctx);
        UndoExtended(chain, undo, block, longer, record);
      }
      Commit(block.hash, ctx.height, batch, record, longer);
    }

    /** Write the batch, the undo record and the new tip. */
    method Commit(hash: nat, height: nat, batch: Batch, record: Undo, ghost longer: seq<Block>)
      modifies this
      ensures chain == longer && utxo == ApplyBatch(old(utxo), batch) && undo == old(undo)[hash := record]
      ensures bestHeight == height && bestHash == hash
    {
      undo := undo[hash := record];
      utxo := ApplyBatch(utxo, batch);
      bestHeight, bestHash, chain := height, hash, longer;
    }

    /** Validate the transactions and build the batch and the undo record. */
    method CheckBlock(block: Block, ctx: Context) returns (ok: bool, batch: Batch, record: Undo)
      requires Valid() && ctx.subsidy == BlockSubsidy(interval, ctx.height)
      ensures ok <==> PassVerdict(ctx, utxo, block.txs) == Accept
      ensures ok ==> batch == PassBatch(utxo, block.txs, ctx.height, |block.txs|)
      ensures Identified(ctx, utxo, block.txs) ==> (ok <==> BlockAccepted(ctx, utxo, block.txs))
      ensures Identified(ctx, utxo, block.txs) && ok ==>
                batch == BatchOf(utxo, block.txs, ctx.height, |block.txs|) && Describes(record, utxo, block, ctx.height)
    {
      ValueMinted(genesis, interval, chain);
      SubsidyInRange(interval, ctx.height);
      ok, batch := ValidateTransactions(ctx, utxo, block.txs);
      InsertsAre(utxo, block.txs, ctx.height, |block.txs|);
      var created := InsertedOps(batch.inserts);
      record := Undo(batch.spent, created, block.prev);
    }

    /** Disconnect the tip. Without its undo record, or for any other block, nothing changes. The set equals the replay
        of the shorter chain exactly when the block made no coin over an older one. */
    method DisconnectBlock(block: Block, height: nat) returns (ok: bool)
      requires Valid()
      requires block.hash == bestHash && |chain| > 0 ==> block == chain[|chain| - 1]
      modifies this
      ensures ok <==> block.hash == old(bestHash) && height == old(bestHeight) && block.hash in old(undo)
      ensures ok ==> |old(chain)| > 0 && chain == old(chain)[..|old(chain)| - 1] && undo == old(undo) - {block.hash}
      ensures ok ==> Valid() == !Overwrites(Coins(chain), block.txs, height)
      ensures !ok ==> unchanged(this)
    {
      if block.hash != bestHash || height != bestHeight || block.hash !in undo {
        return false;
      }
      var r := undo[block.hash];
      Shortened(genesis, interval, chain, undo, r);
      var removals := CreatedOps(block.txs, height);
      StepBack(ApplyBatch(utxo, Batch(r.spent, removals, [])), block.prev, chain[..|chain| - 1]);
      ok := true;
    }

    /** Take the tip back from its undo record alone. The set equals the replay of the shorter chain exactly when the
        block spends none of the coins it creates itself and made none over an older one. */
    method RollbackBlock() returns (ok: bool)
      requires Valid()
      modifies this
      ensures ok <==> old(bestHash) in old(undo)
      ensures ok ==> |old(chain)| > 0 && chain == old(chain)[..|old(chain)| - 1] && undo == old(undo) - {old(bestHash)}
      ensures ok ==> var last := old(chain)[|old(chain)| - 1].txs;
                     Valid() == (!SpendsOwn(last, |old(chain)|) && !Overwrites(Coins(chain), last, |old(chain)|))
      ensures !ok ==> unchanged(this)
    {
      if bestHash !in undo {
        return false;
      }
      var r := undo[bestHash];
      ShortenedBack(genesis, interval, chain, undo, r);
      StepBack(RolledBack(utxo, r.spent, SetOf(r.created)), r.prev, chain[..|chain| - 1]);
      ok := true;
    }

    /** Write the older set and tip. */
    method StepBack(older: Utxos, prev: nat, ghost front: seq<Block>)
      requires 0 < interval <= 210_000 && Sound(genesis, interval, front) && prev == Tip(genesis, front)
      requires Below(bestHeight) == |front| && UndoSound(front, undo - {bestHash}) && genesis !in undo
      modifies this
      ensures chain == front && undo == old(undo) - {old(bestHash)}
      ensures Valid() <==> older == Coins(front)
    {
      utxo := older;
      undo := undo - {bestHash};
      bestHeight, bestHash, chain := Below(bestHeight), prev, front;
    }
  }
}
