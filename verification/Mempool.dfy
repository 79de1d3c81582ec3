/** The transaction pool: its index, its memory accounting, and the operations that change it. */
module Mempool {
  import opened Powers
  import opened Options
  import opened Sums
  import opened Transactions
  import opened TimeLocks
  import opened Ledger
  import opened Reachability
  import opened MempoolGraph
  import opened MempoolWalks
  import opened MempoolAdmission
  import BlockValidation

  // ----- Memory accounting

  /** The counters agree with the entries. */
  ghost predicate Accounted(txs: Pool, spent: Index, totalBytes: nat)
  {
    Count(spent.Keys) == Weight(Slots, txs) && totalBytes == Weight(Bytes, txs)
  }

  function Usage(perEntry: nat, perInput: nat, entries: nat, slots: nat, bytes: nat): nat
  {
    entries * perEntry + slots * perInput + bytes
  }

  /** The estimate computed from the counters is the sum of the entry costs. */
  lemma {:induction false} UsageIsCost(perEntry: nat, perInput: nat, txs: Pool)
    ensures Usage(perEntry, perInput, |txs|, Weight(Slots, txs), Weight(Bytes, txs)) ==
            Weight(Cost(perEntry, perInput), txs)
    decreases txs.Keys
  {
    if txs != map[] {
      var id := PickOne(txs.Keys);
      UsageIsCost(perEntry, perInput, txs - {id});
      OneEntryLess(txs, id);
      WeightWithout(Slots, txs, id);
      WeightWithout(Bytes, txs, id);
      WeightWithout(Cost(perEntry, perInput), txs, id);
      AddUsage(perEntry, perInput, |txs - {id}|, Weight(Slots, txs - {id}), Weight(Bytes, txs - {id}),
               |txs[id].tx.inputs|, txs[id].tx.size);
    }
  }

  lemma {:induction false} OneEntryLess(txs: Pool, id: Txid)
    requires id in txs
    ensures |txs| == |txs - {id}| + 1
  {
    assert (txs - {id}).Keys == txs.Keys - {id};
  }

  lemma {:induction false} AddUsage(perEntry: nat, perInput: nat, entries: nat, slots: nat, bytes: nat, inputs: nat,
                                    size: nat)
    ensures Usage(perEntry, perInput, entries + 1, slots + inputs, bytes + size) ==
            Usage(perEntry, perInput, entries, slots, bytes) + EntryCost(perEntry, perInput, inputs, size)
  {}

  lemma {:induction false} DistinctCount(inputs: seq<TxIn>)
    requires DistinctInputs(inputs)
    ensures |PrevoutSet(inputs)| == |inputs|
  {
    if |inputs| > 0 {
      DistinctCount(inputs[..|inputs| - 1]);
    }
  }

  lemma {:induction false} FewerSlots(spent: Index, ops: set<OutPoint>)
    requires ops <= spent.Keys
    ensures Count((spent - ops).Keys) == Count(spent.Keys) - |ops|
  {
    assert (spent - ops).Keys == spent.Keys - ops;
    CountIsSize(spent.Keys);
    CountIsSize((spent - ops).Keys);
  }

  /** Removing an entry and its inputs keeps the counters right. */
  lemma {:induction false} AccountRemoval(txs: Pool, spent: Index, totalBytes: nat, id: Txid)
    requires Sane(txs) && Inverse(txs, spent) && Accounted(txs, spent, totalBytes) && id in txs
    ensures totalBytes >= txs[id].tx.size
    ensures Accounted(txs - {id}, spent - Prevouts(txs[id].tx), totalBytes - txs[id].tx.size)
  {
    RemoveOne(txs, spent, id);
    assert EntrySane(id, txs[id]);
    DistinctCount(txs[id].tx.inputs);
    FewerSlots(spent, Prevouts(txs[id].tx));
    WeightWithout(Slots, txs, id);
    WeightWithout(Bytes, txs, id);
  }

  lemma {:induction false} DropOneMore(txs: Pool, gone: set<Txid>, id: Txid)
    ensures (txs - gone) - {id} == txs - (gone + {id})
  {}

  lemma {:induction false} DropTwice(txs: Pool, gone: set<Txid>, more: set<Txid>)
    ensures (txs - gone) - more == txs - (gone + more)
  {}

  lemma {:induction false} DropNothing(txs: Pool)
    ensures txs - {} == txs
  {}

  /** What the state of a pool keeps apart from the chain: entries, index and counters agree. */
  ghost predicate Kept(txs: Pool, spent: Index, totalBytes: nat)
  {
    Sane(txs) && Inverse(txs, spent) && Accounted(txs, spent, totalBytes)
  }

  lemma {:induction false} KeptRemoval(txs: Pool, spent: Index, totalBytes: nat, id: Txid)
    requires Kept(txs, spent, totalBytes) && id in txs
    ensures totalBytes >= txs[id].tx.size
    ensures Kept(txs - {id}, spent - Prevouts(txs[id].tx), totalBytes - txs[id].tx.size)
  {
    RemoveOne(txs, spent, id);
    AccountRemoval(txs, spent, totalBytes, id);
  }

  /** The index entries of a transaction. */
  function IndexFor(inputs: seq<TxIn>, id: Txid): Index
  {
    if |inputs| == 0 then map[] else IndexFor(inputs[..|inputs| - 1], id)[inputs[|inputs| - 1].prev := id]
  }

  lemma {:induction false} IndexForIs(inputs: seq<TxIn>, id: Txid)
    ensures IndexFor(inputs, id).Keys == PrevoutSet(inputs)
    ensures forall op :: op in IndexFor(inputs, id) ==> IndexFor(inputs, id)[op] == id
  {
    if |inputs| > 0 {
      IndexForIs(inputs[..|inputs| - 1], id);
    }
  }

  lemma {:induction false} MoreSlots(spent: Index, inputs: seq<TxIn>, id: Txid)
    requires DistinctInputs(inputs) && PrevoutSet(inputs) !! spent.Keys
    ensures Count((spent + IndexFor(inputs, id)).Keys) == Count(spent.Keys) + |inputs|
  {
    if |inputs| == 0 {
      assert spent + IndexFor(inputs, id) == spent;
    } else {
      var front, op := inputs[..|inputs| - 1], inputs[|inputs| - 1].prev;
      MoreSlots(spent, front, id);
      IndexForIs(front, id);
      var less, more := spent + IndexFor(front, id), spent + IndexFor(inputs, id);
      assert more == less[op := id];
      assert more.Keys == less.Keys + {op};
      CountWith(less.Keys, op);
    }
  }

  lemma {:induction false} AccountInsert(txs: Pool, spent: Index, totalBytes: nat, id: Txid, e: Entry)
    requires Accounted(txs, spent, totalBytes) && id !in txs
    requires DistinctInputs(e.tx.inputs) && Prevouts(e.tx) !! spent.Keys
    ensures Accounted(txs[id := e], spent + IndexFor(e.tx.inputs, id), totalBytes + e.tx.size)
  {
    MoreSlots(spent, e.tx.inputs, id);
    WeightWith(Slots, txs, id, e);
    WeightWith(Bytes, txs, id, e);
  }

  /** Adding an entry whose inputs nobody spends keeps entries, index and counters in agreement. */
  lemma {:induction false} KeptInsert(txs: Pool, spent: Index, totalBytes: nat, id: Txid, e: Entry)
    requires Kept(txs, spent, totalBytes) && id !in txs && EntrySane(id, e) && Conflicts(txs, Prevouts(e.tx)) == {}
    ensures Kept(txs[id := e], spent + IndexFor(e.tx.inputs, id), totalBytes + e.tx.size)
  {
    IndexForIs(e.tx.inputs, id);
    ApartFrom(txs, spent, Prevouts(e.tx));
    InverseInsert(txs, spent, id, e, IndexFor(e.tx.inputs, id));
    AccountInsert(txs, spent, totalBytes, id, e);
    assert forall c :: c in txs ==> EntrySane(c, txs[c]);
  }

  lemma {:induction false} SpenderConflicts(txs: Pool, spent: Index, ops: set<OutPoint>, op: OutPoint)
    requires Inverse(txs, spent) && op in spent && op in ops
    ensures spent[op] in Conflicts(txs, ops)
  {
    assert IsSpender(txs, spent[op], op);
  }

  lemma {:induction false} ApartFrom(txs: Pool, spent: Index, ops: set<OutPoint>)
    requires Inverse(txs, spent) && Conflicts(txs, ops) == {}
    ensures ops !! spent.Keys
  {
    forall op | op in ops
      ensures op !in spent
    {
      if op in spent {
        SpenderConflicts(txs, spent, ops, op);
      }
    }
  }

  lemma {:induction false} InverseInsert(txs: Pool, spent: Index, id: Txid, e: Entry, index: Index)
    requires Inverse(txs, spent) && id !in txs && index.Keys == Prevouts(e.tx) && index.Keys !! spent.Keys
    requires forall op :: op in index ==> index[op] == id
    ensures Inverse(txs[id := e], spent + index)
  {
    var more := txs[id := e];
    forall c | c in more
      ensures EntryIndexed(spent + index, c, more[c])
    {
      if c != id {
        assert EntryIndexed(spent, c, txs[c]);
      }
    }
    forall op | op in spent + index
      ensures IsSpender(more, (spent + index)[op], op)
    {
      if op in spent {
        assert IsSpender(txs, spent[op], op);
      }
    }
  }

  method AddInputs(spent: Index, inputs: seq<TxIn>, id: Txid) returns (more: Index)
    ensures more == spent + IndexFor(inputs, id)
  {
    more := spent;
    var i := 0;
    while i < |inputs|
      invariant 0 <= i <= |inputs| && more == spent + IndexFor(inputs[..i], id)
    {
      assert inputs[..i + 1][..i] == inputs[..i];
      more := more[inputs[i].prev := id];
      i := i + 1;
    }
    assert inputs[..i] == inputs;
  }

  /** The index without some inputs. */
  method DropInputs(spent: Index, inputs: seq<TxIn>) returns (less: Index)
    ensures less == spent - PrevoutSet(inputs)
  {
    less := spent;
    var i := 0;
    while i < |inputs|
      invariant 0 <= i <= |inputs| && less == spent - PrevoutSet(inputs[..i])
    {
      assert inputs[..i + 1][..i] == inputs[..i];
      less := less - {inputs[i].prev};
      i := i + 1;
    }
    assert inputs[..i] == inputs;
  }

  /** The budget and the package limits. */
  ghost predicate Bounded(txs: Pool, cost: Measure, maxBytes: nat)
  {
    Weight(cost, txs) <= maxBytes && Limited(txs)
  }

  lemma {:induction false} BoundedLess(txs: Pool, gone: set<Txid>, cost: Measure, maxBytes: nat)
    requires Bounded(txs, cost, maxBytes)
    ensures Bounded(txs - gone, cost, maxBytes)
  {
    WeightLess(cost, txs, gone);
    LimitedLess(txs, gone);
  }

  lemma {:induction false} NothingKept()
    ensures Kept(map[], map[], 0)
  {
    var none: set<OutPoint> := {};
    assert Count(none) == 0;
  }

  lemma {:induction false} NoTreeOutside(txs: Pool, id: Txid)
    requires id !in txs
    ensures Tree(txs, {id}) == {} && txs - Tree(txs, {id}) == txs
  {
    assert {id} * txs.Keys == {};
    NoTree(txs);
  }

  lemma {:induction false} ExploredTree(txs: Pool, id: Txid, gone: set<Txid>)
    requires id in txs && Exploring(Down(txs), {id}, gone, {})
    ensures gone == Tree(txs, {id})
  {
    ExploreDone(Down(txs), {id}, gone);
    ClosureIsTree(txs, {id}, gone);
  }

  /** One more tree. */
  lemma {:induction false} TreeStep(before: Pool, roots: set<Txid>, id: Txid, txs: Pool)
    requires txs == before - Tree(before, roots)
    ensures txs - Tree(txs, {id}) == before - Tree(before, roots + {id})
  {
    TreeSplit(before, roots, {id});
  }

  /** Removing trees leaves no orphans and breaks no bound. */
  lemma {:induction false} TreesGone(u: Utxos, txs: Pool, roots: set<Txid>, cost: Measure, maxBytes: nat)
    requires Grounded(u, txs) && Bounded(txs, cost, maxBytes)
    ensures var rest := txs - Tree(txs, roots); Grounded(u, rest) && Bounded(rest, cost, maxBytes)
  {
    TreeClosed(txs, roots);
    RemoveClosed(u, txs, Tree(txs, roots));
    BoundedLess(txs, Tree(txs, roots), cost, maxBytes);
  }

  // ----- Expiry

  const DEFAULT_MEMPOOL_EXPIRY: nat := 14 * 24 * 60 * 60

  predicate IsExpired(e: Entry, now: nat)
  {
    SaturatingSub(now, e.time) > DEFAULT_MEMPOOL_EXPIRY
  }

  function Expired(txs: Pool, now: nat): set<Txid>
  {
    set id | id in txs && IsExpired(txs[id], now)
  }

  // ----- Connected blocks

  lemma {:induction false} IndexedStep(spent: Index, inputs: seq<TxIn>, i: nat) returns (roots: set<Txid>)
    requires i < |inputs|
    ensures var op, before := inputs[i].prev, Indexed(spent, inputs[..i]);
            roots == Indexed(spent, inputs[..i + 1]) == if op in spent then before + {spent[op]} else before
  {
    assert inputs[..i + 1][..i] == inputs[..i];
    roots := Indexed(spent, inputs[..i + 1]);
  }

  /** What is left of the index after entries are gone. */
  lemma {:induction false} SpenderStays(txs: Pool, spent: Index, gone: set<Txid>, less: Index, op: OutPoint)
    requires Inverse(txs, spent) && Inverse(txs - gone, less)
    ensures op in less ==> op in spent && less[op] == spent[op]
    ensures op in spent && spent[op] in txs - gone ==> op in less
  {
    if op in less {
      assert IsSpender(txs - gone, less[op], op);
      assert EntryIndexed(spent, less[op], txs[less[op]]);
    }
    if op in spent && spent[op] in txs - gone {
      assert IsSpender(txs, spent[op], op);
      assert EntryIndexed(less, spent[op], (txs - gone)[spent[op]]);
    }
  }

  lemma {:induction false} ConflictStep(before: Pool, index: Index, roots: set<Txid>, txs: Pool, spent: Index,
                                        op: OutPoint)
    requires Inverse(before, index) && txs == before - Tree(before, roots) && Inverse(txs, spent)
    ensures op in spent ==> op in index && spent[op] == index[op]
    ensures op in spent ==> txs - Tree(txs, {spent[op]}) == before - Tree(before, roots + {index[op]})
    ensures op !in spent ==> txs == before - Tree(before, if op in index then roots + {index[op]} else roots)
  {
    SpenderStays(before, index, Tree(before, roots), spent, op);
    if op in index {
      TreeStep(before, roots, index[op], txs);
      if op !in spent {
        NoTreeOutside(txs, index[op]);
      }
    }
  }

  /** One transaction of a block: its own entry goes, and so does everything that conflicts with it. */
  ghost function DropTx(txs: Pool, tx: Tx): Pool
  {
    var rest := txs - {tx.txid};
    rest - Tree(rest, Conflicts(rest, Prevouts(tx)))
  }

  ghost function DropBlock(txs: Pool, block: seq<Tx>, k: nat): Pool
    requires k <= |block|
  {
    if k == 0 then txs else DropTx(DropBlock(txs, block, k - 1), block[k - 1])
  }

  /** A transaction takes the coins `u` to the coins `after`. */
  ghost predicate Confirms(u: Utxos, tx: Tx, height: nat, coinbase: bool, after: Utxos)
  {
    && after == ApplyTx(u, tx, height, coinbase)
    && (coinbase || (Prevouts(tx) <= u.Keys && Created(tx, height, false).Keys !! Prevouts(tx)))
  }

  /** An entry under the id of a transaction is that transaction. */
  ghost predicate SameTx(txs: Pool, tx: Tx)
  {
    tx.txid in txs ==> txs[tx.txid].tx == tx
  }

  lemma {:induction false} NoConflictsLeft(txs: Pool, ops: set<OutPoint>)
    ensures Conflicts(txs - Tree(txs, Conflicts(txs, ops)), ops) == {}
  {
    var rest := txs - Tree(txs, Conflicts(txs, ops));
    forall c
      ensures c !in Conflicts(rest, ops)
    {
      if c in Conflicts(txs, ops) {
        TreeHasRoot(txs, Conflicts(txs, ops), c);
      }
    }
  }

  lemma {:induction false} SpendOrCreateFirst(u: Utxos, tx: Tx, height: nat)
    requires Created(tx, height, false).Keys !! Prevouts(tx)
    ensures (u + Created(tx, height, false)) - Prevouts(tx) == ApplyTx(u, tx, height, false)
  {
    OutputsAre(tx, height, false, |tx.outputs|);
    Commute(u, Created(tx, height, false), Prevouts(tx));
  }

  lemma {:induction false} Commute(u: Utxos, created: Utxos, gone: set<OutPoint>)
    requires gone !! created.Keys
    ensures (u + created) - gone == (u - gone) + created
  {}

  /** Dropping a confirmed transaction and its rivals keeps the pool fit for the new coins. */
  lemma {:induction false} DropTxGrounded(u: Utxos, txs: Pool, tx: Tx, height: nat, coinbase: bool, after: Utxos)
    requires Grounded(u, txs) && SameTx(txs, tx) && Confirms(u, tx, height, coinbase, after)
    ensures Grounded(after, DropTx(txs, tx))
  {
    var coins, rest := u + Created(tx, height, coinbase), txs - {tx.txid};
    ConfirmBacked(u, txs, tx, height, coinbase);
    var gone := Tree(rest, Conflicts(rest, Prevouts(tx)));
    TreeClosed(rest, Conflicts(rest, Prevouts(tx)));
    RemoveClosed(coins, rest, gone);
    if !coinbase {
      NoConflictsLeft(rest, Prevouts(tx));
      SpendBacked(coins, rest - gone, Prevouts(tx));
      SpendOrCreateFirst(u, tx, height);
    }
  }

  lemma {:induction false} DropTxBounded(txs: Pool, tx: Tx, cost: Measure, maxBytes: nat)
    requires Bounded(txs, cost, maxBytes)
    ensures Bounded(DropTx(txs, tx), cost, maxBytes)
  {
    var rest := txs - {tx.txid};
    BoundedLess(txs, {tx.txid}, cost, maxBytes);
    BoundedLess(rest, Tree(rest, Conflicts(rest, Prevouts(tx))), cost, maxBytes);
  }

  lemma {:induction false} SameTxKept(before: Pool, block: seq<Tx>, k: nat, tx: Tx)
    requires k <= |block| && SameTx(before, tx)
    ensures SameTx(DropBlock(before, block, k), tx)
  {
    if k > 0 {
      SameTxKept(before, block, k - 1, tx);
    }
  }

  /** The coins before and after each transaction of a block. */
  ghost predicate BlockRun(views: seq<Utxos>, block: seq<Tx>, height: nat)
  {
    |views| == |block| + 1 && forall k :: 0 <= k < |block| ==> ConfirmsAt(views, block, height, k)
  }

  ghost predicate ConfirmsAt(views: seq<Utxos>, block: seq<Tx>, height: nat, k: nat)
    requires k < |block| && |views| == |block| + 1
  {
    Confirms(views[k], block[k], height, k == 0, views[k + 1])
  }

  ghost function Views(u: Utxos, block: seq<Tx>, height: nat, k: nat): seq<Utxos>
    requires k <= |block|
  {
    if k == 0 then [u] else Views(u, block, height, k - 1) + [After(u, block, height, k)]
  }

  lemma {:induction false} ViewsAre(u: Utxos, block: seq<Tx>, height: nat, k: nat, j: nat)
    requires j <= k <= |block|
    ensures |Views(u, block, height, k)| == k + 1 && Views(u, block, height, k)[j] == After(u, block, height, j)
  {
    if k > 0 {
      ViewsAre(u, block, height, k - 1, if j < k then j else 0);
    }
  }

  lemma {:induction false} ReplayAt(u: Utxos, block: seq<Tx>, height: nat, k: nat, n: nat)
    requires k < n <= |block| && Replays(u, block, height, n)
    ensures Replays(u, block, height, k) && Follows(u, block, height, k)
  {
    if k < n - 1 {
      ReplayAt(u, block, height, k, n - 1);
    }
  }

  /** A block that replays is a run from the coins before it to the coins after it. */
  lemma {:induction false} ReplayRuns(u: Utxos, block: seq<Tx>, height: nat)
    requires Replays(u, block, height, |block|)
    ensures var views := Views(u, block, height, |block|);
            BlockRun(views, block, height) && views[0] == u && views[|block|] == After(u, block, height, |block|)
  {
    var n := |block|;
    var views := Views(u, block, height, n);
    ViewsAre(u, block, height, n, 0);
    ViewsAre(u, block, height, n, n);
    forall k | 0 <= k < n
      ensures ConfirmsAt(views, block, height, k)
    {
      ViewsAre(u, block, height, n, k);
      ViewsAre(u, block, height, n, k + 1);
      ReplayConfirms(u, block, height, k, n);
    }
  }

  lemma {:induction false} ReplayConfirms(u: Utxos, block: seq<Tx>, height: nat, k: nat, n: nat)
    requires k < n == |block| && Replays(u, block, height, n)
    ensures Confirms(After(u, block, height, k), block[k], height, k == 0, After(u, block, height, k + 1))
  {
    ReplayAt(u, block, height, k, n);
    TracksAll(u, block, height, k);
    OwnAll(u, block, height, k);
    OutputsAreClear(u, block, height, k, CreatedBy(block, height, k));
  }

  /** Dropping a whole block keeps the pool fit for the coins after it. */
  lemma {:induction false} DropBlockOk(views: seq<Utxos>, block: seq<Tx>, height: nat, txs: Pool, k: nat, cost: Measure,
                                       maxBytes: nat)
    requires BlockRun(views, block, height) && k <= |block| && forall j :: 0 <= j < |block| ==> SameTx(txs, block[j])
    requires Grounded(views[0], txs) && Bounded(txs, cost, maxBytes)
    ensures Grounded(views[k], DropBlock(txs, block, k)) && Bounded(DropBlock(txs, block, k), cost, maxBytes)
  {
    if k > 0 {
      var j := k - 1;
      DropBlockOk(views, block, height, txs, j, cost, maxBytes);
      assert ConfirmsAt(views, block, height, j) && SameTx(txs, block[j]);
      SameTxKept(txs, block, j, block[j]);
      DropTxGrounded(views[j], DropBlock(txs, block, j), block[j], height, j == 0, views[k]);
      DropTxBounded(DropBlock(txs, block, j), block[j], cost, maxBytes);
    }
  }

  lemma {:induction false} DropFromEmpty(block: seq<Tx>, k: nat)
    requires k <= |block|
    ensures DropBlock(map[], block, k) == map[]
  {
    if k > 0 {
      DropFromEmpty(block, k - 1);
    }
  }

  // ----- Admission

  /** The inputs exist, their locks are open, and they are worth the outputs. */
  ghost predicate InputsPass(u: Utxos, ctx: PoolContext, txs: Pool, spent: Index, tx: Tx)
  {
    && AllUsable(u, txs, spent, ctx.tipHeight + 1, tx.inputs)
    && PoolLocksOpen(ctx, tx, PrevCoins(u, txs, ctx.tipHeight + 1, tx.inputs))
    && SumOutputs(tx.outputs) <= PrevValue(u, txs, ctx.tipHeight + 1, tx.inputs)
  }

  /** The transaction is valid on top of the chain and the pool. */
  ghost predicate Eligible(u: Utxos, ctx: PoolContext, txs: Pool, spent: Index, tx: Tx)
  {
    && !IsCoinbase(tx) && WellFormed(tx) && ctx.policy(tx) && IsFinalTx(tx, ctx.tipHeight + 1, ctx.tipMtp)
    && InputsPass(u, ctx, txs, spent, tx)
    && ctx.scripts(tx, PrevCoins(u, txs, ctx.tipHeight + 1, tx.inputs))
  }

  /** The entry of an eligible transaction: its fee and its lock point. */
  ghost predicate Candidate(u: Utxos, ctx: PoolContext, txs: Pool, spent: Index, e: Entry)
  {
    && Eligible(u, ctx, txs, spent, e.tx)
    && e.fee + SumOutputs(e.tx.outputs) == PrevValue(u, txs, ctx.tipHeight + 1, e.tx.inputs)
    && HasLockPoint(ctx, PrevCoins(u, txs, ctx.tipHeight + 1, e.tx.inputs), e)
  }

  ghost predicate HasLockPoint(ctx: PoolContext, coins: seq<Coin>, e: Entry)
  {
    exists times :: LockedAs(ctx, coins, times, e)
  }

  /** The entry's lock point stands for its relative locks, which are open in the next block. */
  ghost predicate LockedAs(ctx: PoolContext, coins: seq<Coin>, times: seq<nat>, e: Entry)
  {
    && IsLockPointOf(e.tx, Heights(coins), times, e.lockHeight, e.lockTime)
    && (ctx.csv ==> e.lockHeight <= ctx.tipHeight + 1 && e.lockTime <= ctx.tipMtp)
    && (ctx.csv && NeedsTimes(e.tx) ==> Times(TimeReference(ctx), coins) == Some(times))
  }

  function RateOf(fee: nat, weight: nat): real
    requires weight > 0
  {
    fee as real / VirtualSize(weight) as real
  }

  /** It pays enough, outbids what it replaces, and fits the package limits. */
  ghost predicate Competes(ctx: PoolContext, txs: Pool, e: Entry, evicted: set<Txid>)
  {
    && e.tx.weight > 0 && e.rate == RateOf(e.fee, e.tx.weight)
    && e.rate >= MIN_RELAY_FEE_RATE && e.rate >= ctx.floor
    && Replaces(txs, e.tx, evicted) && PaysMore(txs, e.fee, e.rate, evicted)
    && WithinPackage(txs, e.tx.inputs)
  }

  /** There is room for it, made by trimming the cheapest entries. */
  ghost predicate HasRoom(txs: Pool, cost: Measure, maxBytes: nat, floor: real, e: Entry, evicted: set<Txid>, p: Plan,
                          plans: seq<Plan>)
  {
    && Planned(txs, cost, e.rate, AncestorsOf(txs, e.tx.inputs), evicted, p)
    && TrimRun(txs, cost, Weigh(cost, e), maxBytes, evicted, floor, plans) && p == plans[|plans| - 1]
    && !OverBudget(txs, cost, Weigh(cost, e), maxBytes, p)
  }

  /** Trimming the cheapest entries got stuck before there was room. */
  ghost predicate Jammed(txs: Pool, cost: Measure, maxBytes: nat, floor: real, e: Entry, plans: seq<Plan>)
  {
    && TrimRun(txs, cost, Weigh(cost, e), maxBytes, Rivals(txs, e.tx), floor, plans)
    && OverBudget(txs, cost, Weigh(cost, e), maxBytes, plans[|plans| - 1])
    && Stuck(txs, e.rate, AncestorsOf(txs, e.tx.inputs), plans[|plans| - 1].slated)
  }

  /** The entries a transaction would replace. */
  ghost function Rivals(txs: Pool, tx: Tx): set<Txid>
  {
    Tree(txs, Conflicts(txs, Prevouts(tx)))
  }

  /** What the checks on a candidate establish: its entry, what it replaces, and what is trimmed for it. */
  ghost predicate Admissible(u: Utxos, ctx: PoolContext, txs: Pool, spent: Index, cost: Measure, maxBytes: nat,
                             floor: real, e: Entry, evicted: set<Txid>, p: Plan, plans: seq<Plan>)
  {
    && Candidate(u, ctx, txs, spent, e) && Competes(ctx, txs, e, evicted)
    && HasRoom(txs, cost, maxBytes, floor, e, evicted, p, plans)
  }

  /** Why a transaction is turned away: it is not valid, does not compete, or there is no room to be made. */
  ghost predicate Refused(u: Utxos, ctx: PoolContext, txs: Pool, spent: Index, cost: Measure, maxBytes: nat,
                          floor: real, tx: Tx, e: Entry, plans: seq<Plan>)
  {
    Eligible(u, ctx, txs, spent, tx) ==>
      && Candidate(u, ctx, txs, spent, e) && e.tx == tx && tx.weight > 0 && e.rate == RateOf(e.fee, tx.weight)
      && (Competes(ctx, txs, e, Rivals(txs, tx)) ==> Jammed(txs, cost, maxBytes, floor, e, plans))
  }

  ghost predicate WithinPackage(txs: Pool, inputs: seq<TxIn>)
  {
    Count(AncestorsOf(txs, inputs)) <= MAX_ANCESTORS && RoomBelow(txs, AncestorsOf(txs, inputs))
  }

  lemma {:induction false} SameCandidate(u: Utxos, ctx: PoolContext, txs: Pool, spent: Index, e0: Entry, e: Entry)
    requires Candidate(u, ctx, txs, spent, e0) && e == e0.(rate := e.rate)
    ensures Candidate(u, ctx, txs, spent, e)
  {
    var coins := PrevCoins(u, txs, ctx.tipHeight + 1, e.tx.inputs);
    var times :| LockedAs(ctx, coins, times, e0);
    assert LockedAs(ctx, coins, times, e);
  }

  /** Admitting an admissible entry keeps the pool fit. */
  lemma {:induction false} AdmitFits(u: Utxos, ctx: PoolContext, txs: Pool, spent: Index, cost: Measure, maxBytes: nat,
                                     floor: real, e: Entry, evicted: set<Txid>, p: Plan, plans: seq<Plan>)
    requires Grounded(u, txs) && Bounded(txs, cost, maxBytes) && Unknown(u, txs, e.tx.txid) && RejectsOpReturn(ctx)
    requires Admissible(u, ctx, txs, spent, cost, maxBytes, floor, e, evicted, p, plans)
    ensures var all := (txs - p.slated)[e.tx.txid := e]; Grounded(u, all) && Bounded(all, cost, maxBytes)
  {
    var rest, id := txs - p.slated, e.tx.txid;
    UsableIsBacked(u, ctx, txs, spent, e);
    StillBacked(u, txs, e, evicted, p.slated);
    RemoveClosed(u, txs, p.slated);
    InsertGrounded(u, rest, id, e);
    BoundedLess(txs, p.slated, cost, maxBytes);
    RoomBelowLess(txs, p.slated, e.tx.inputs);
    InsertLimited(u, rest, id, e);
    WeightWith(cost, rest, id, e);
  }

  lemma {:induction false} NoRivalsLeft(txs: Pool, tx: Tx, evicted: set<Txid>, slated: set<Txid>)
    requires Replaces(txs, tx, evicted) && evicted <= slated
    ensures Conflicts(txs - slated, Prevouts(tx)) == {}
  {
    var rest := txs - slated;
    forall c
      ensures c !in Conflicts(rest, Prevouts(tx))
    {
      if c in Conflicts(txs, Prevouts(tx)) {
        TreeHasRoot(txs, Conflicts(txs, Prevouts(tx)), c);
      }
    }
  }

  lemma {:induction false} SaneCandidate(tx: Tx, e: Entry)
    requires WellFormed(tx) && !IsCoinbase(tx) && e.tx == tx
    ensures EntrySane(tx.txid, e)
  {}

  class Mempool {
    const perEntry: nat
    const perInput: nat
    const maxBytes: nat
    var txs: Pool
    var spent: Index
    var totalBytes: nat
    /** The acceptance fee rate raised by budget evictions. */
    var floor: real

    /** Entries, index and counters agree. */
    ghost predicate Valid()
      reads this
    {
      Kept(txs, spent, totalBytes)
    }

    /** The pool fits the chain's coins, its budget and its limits. */
    ghost predicate Fits(u: Utxos)
      reads this
    {
      Grounded(u, txs) && Bounded(txs, Cost(perEntry, perInput), maxBytes)
    }

    constructor (perEntry: nat, perInput: nat, maxBytes: nat)
      ensures Valid() && txs == map[] && this.maxBytes == maxBytes
      ensures forall u :: Fits(u)
    {
      this.perEntry, this.perInput, this.maxBytes := perEntry, perInput, maxBytes;
      txs, spent, totalBytes, floor := map[], map[], 0, 0.0;
      new;
      NothingKept();
    }

    /** The estimate kept in counters is the sum of the entry costs. */
    method MemoryUsage() returns (usage: nat)
      requires Valid()
      ensures usage == Weight(Cost(perEntry, perInput), txs)
    {
      CountIsSize(spent.Keys);
      UsageIsCost(perEntry, perInput, txs);
      usage := Usage(perEntry, perInput, |txs|, |spent|, totalBytes);
    }

    /** Remove one entry and its inputs from index and counters. */
    method RemoveEntry(id: Txid) returns (r: Option<Entry>)
      requires Valid()
      modifies this
      ensures Valid() && floor == old(floor) && txs == old(txs) - {id}
      ensures r == if id in old(txs) then Some(old(txs)[id]) else None
      ensures id !in old(txs) ==> unchanged(this)
    {
      if id !in txs {
        assert txs - {id} == txs;
        return None;
      }
      var e := txs[id];
      KeptRemoval(txs, spent, totalBytes, id);
      txs := txs - {id};
      spent := DropInputs(spent, e.tx.inputs);
      totalBytes := SaturatingSub(totalBytes, e.tx.size);
      return Some(e);
    }

    /** One step of removing a tree: take out the last queued transaction, if it is still there, and queue its
        children. */
    method RemoveQueued(ghost before: Pool, ghost id: Txid, ghost gone: set<Txid>, queue: seq<Txid>)
      returns (hit: bool, queue': seq<Txid>, ghost gone': set<Txid>)
      requires |queue| > 0 && Valid() && txs == before - gone
      requires Exploring(Down(before), {id}, gone, Members(queue)) && Members(queue) <= before.Keys
      modifies this
      ensures Valid() && txs == before - gone' && floor == old(floor)
      ensures Exploring(Down(before), {id}, gone', Members(queue')) && Members(queue') <= before.Keys
      ensures hit ==> txs.Keys < old(txs).Keys && Count(gone') == Count(gone) + 1
      ensures !hit ==> unchanged(this) && gone' == gone && |queue'| < |queue|
    {
      var current := queue[|queue| - 1];
      MembersPop(queue);
      queue' := queue[..|queue| - 1];
      ghost var rest := Members(queue');
      var r := RemoveEntry(current);
      hit := r.Some?;
      if hit {
        gone' := gone + {current};
        ExploreStep(Down(before), {id}, gone, Members(queue), current, rest);
        CountWith(gone, current);
        DropOneMore(before, gone, current);
        SpendersLeft(before, gone', spent, current);
        DownIs(before, current);
        queue' := QueueSpenders(spent, current, |r.value.tx.outputs|, queue');
        ExploreLess(Down(before), {id}, gone', rest + Next(Down(before), current), Members(queue'));
      } else {
        gone' := gone;
        ExploreLess(Down(before), {id}, gone, Members(queue), rest);
      }
    }

    method RemoveAllQueued(ghost id: Txid, queue: seq<Txid>) returns (removed: nat, ghost gone: set<Txid>)
      requires Valid() && Members(queue) == {id} <= txs.Keys
      modifies this
      ensures Valid() && floor == old(floor)
      ensures txs == old(txs) - gone && removed == Count(gone)
      ensures Exploring(Down(old(txs)), {id}, gone, {})
    {
      removed, gone := 0, {};
      ghost var before := txs;
      DropNothing(txs);
      ExploreStart(Down(before), {id});
      var left := queue;
      while |left| > 0
        invariant Valid() && floor == old(floor)
        invariant txs == before - gone && removed == Count(gone)
        invariant Exploring(Down(before), {id}, gone, Members(left)) && Members(left) <= before.Keys
        decreases txs.Keys, |left|
      {
        var hit;
        hit, left, gone := RemoveQueued(before, id, gone, left);
        removed := if hit then removed + 1 else removed;
      }
      assert Members(left) == {};
    }

    /** Remove a transaction and exactly its in-pool descendants. */
    method RemoveWithDescendants(id: Txid) returns (removed: nat)
      requires Valid()
      modifies this
      ensures Valid() && floor == old(floor)
      ensures txs == old(txs) - Tree(old(txs), {id}) && removed == Count(Tree(old(txs), {id}))
    {
      if id !in txs {
        NoTreeOutside(txs, id);
        return 0;
      }
      assert Members([id]) == {id};
      ghost var gone;
      removed, gone := RemoveAllQueued(id, [id]);
      ExploredTree(old(txs), id, gone);
    }

    /** Remove some transactions, each with its descendants. */
    method RemoveEach(ids: set<Txid>)
      requires Valid()
      modifies this
      ensures Valid() && floor == old(floor) && txs == old(txs) - Tree(old(txs), ids)
    {
      ghost var before, done := txs, {};
      var left := ids;
      NoTree(txs);
      DropNothing(txs);
      while left != {}
        invariant Valid() && floor == old(floor)
        invariant done + left == ids && txs == before - Tree(before, done)
        decreases left
      {
        var id :| id in left;
        TreeStep(before, done, id, txs);
        var _ := RemoveWithDescendants(id);
        left, done := left - {id}, done + {id};
      }
      assert done == ids;
    }

    /** Drop every expired entry with its descendants, and nothing else. */
    method ExpireOldTransactions(ghost u: Utxos, now: nat)
      requires Valid() && Fits(u)
      modifies this
      ensures Valid() && Fits(u) && floor == old(floor)
      ensures txs == old(txs) - Tree(old(txs), Expired(old(txs), now))
    {
      TreesGone(u, txs, Expired(txs, now), Cost(perEntry, perInput), maxBytes);
      RemoveEach(Expired(txs, now));
    }

    /** Drop the entry that spends an outpoint, if any, with its descendants. */
    method RemoveConflict(ghost before: Pool, ghost index: Index, ghost roots: set<Txid>, op: OutPoint)
      requires Valid() && Inverse(before, index) && txs == before - Tree(before, roots)
      modifies this
      ensures Valid() && floor == old(floor)
      ensures txs == before - Tree(before, if op in index then roots + {index[op]} else roots)
    {
      ConflictStep(before, index, roots, txs, spent, op);
      if op in spent {
        var _ := RemoveWithDescendants(spent[op]);
      }
    }

    /** Drop every entry that spends an input of a confirmed transaction, with its descendants. */
    method RemoveConflicts(inputs: seq<TxIn>)
      requires Valid()
      modifies this
      ensures Valid() && floor == old(floor)
      ensures txs == old(txs) - Tree(old(txs), Conflicts(old(txs), PrevoutSet(inputs)))
    {
      ghost var before, index, roots := txs, spent, {};
      NoTree(txs);
      DropNothing(txs);
      var i := 0;
      while i < |inputs|
        invariant 0 <= i <= |inputs| && roots == Indexed(index, inputs[..i])
        invariant Valid() && floor == old(floor) && txs == before - Tree(before, roots)
      {
        ghost var more := IndexedStep(index, inputs, i);
        RemoveConflict(before, index, roots, inputs[i].prev);
        roots := more;
        i := i + 1;
      }
      assert inputs[..i] == inputs;
      IndexedAre(before, index, inputs);
    }

    /** One transaction of a connected block. */
    method ConfirmTx(tx: Tx)
      requires Valid()
      modifies this
      ensures Valid() && floor == old(floor) && txs == DropTx(old(txs), tx)
    {
      var _ := RemoveEntry(tx.txid);
      RemoveConflicts(tx.inputs);
    }

    method ConfirmAll(block: seq<Tx>)
      requires Valid()
      modifies this
      ensures Valid() && floor == old(floor) && txs == DropBlock(old(txs), block, |block|)
    {
      var k := 0;
      while k < |block|
        invariant 0 <= k <= |block| && Valid() && floor == old(floor)
        invariant txs == DropBlock(old(txs), block, k)
      {
        ConfirmTx(block[k]);
        k := k + 1;
      }
    }

    /** After a block is connected the pool fits the new coins: confirmed entries are gone, and so is whatever
        conflicts with the block, with its descendants. */
    method RemoveForBlock(ghost views: seq<Utxos>, block: seq<Tx>, ghost height: nat)
      requires Valid() && BlockRun(views, block, height) && Fits(views[0])
      requires forall k :: 0 <= k < |block| ==> SameTx(txs, block[k])
      modifies this
      ensures Valid() && Fits(views[|block|]) && floor == old(floor)
      ensures txs == DropBlock(old(txs), block, |block|)
    {
      DropBlockOk(views, block, height, txs, |block|, Cost(perEntry, perInput), maxBytes);
      if txs == map[] && spent == map[] {
        DropFromEmpty(block, |block|);
        return;
      }
      ConfirmAll(block);
    }

    /** Inputs, locks and fee of a candidate. */
    method CheckInputs(u: Utxos, ctx: PoolContext, tx: Tx) returns (ok: bool, s: Scan, e: Entry)
      requires WellFormed(tx)
      ensures ok <==> InputsPass(u, ctx, txs, spent, tx)
      ensures ok ==> Scanned(u, txs, spent, ctx.tipHeight + 1, tx.inputs, s)
      ensures ok ==> e.tx == tx && e.fee + SumOutputs(tx.outputs) == s.sum && HasLockPoint(ctx, s.coins, e)
    {
      e := Entry(tx, 0, 0.0, ctx.now, 0, 0);
      ok, s := ScanInputs(u, txs, spent, ctx.tipHeight + 1, tx.inputs);
      if !ok {
        return;
      }
      var lockHeight, lockTime;
      ghost var times;
      ok, lockHeight, lockTime, times := CheckLocks(ctx, tx, s.coins);
      if !ok {
        return;
      }
      var outputs := BlockValidation.OutputValue(tx);
      if outputs > s.sum {
        return false, s, e;
      }
      e := Entry(tx, s.sum - outputs, 0.0, ctx.now, lockHeight, lockTime);
      assert LockedAs(ctx, s.coins, times, e);
    }

    /** The candidate on its own. */
    method CheckCandidate(u: Utxos, ctx: PoolContext, tx: Tx) returns (ok: bool, conflicts: seq<Txid>, e: Entry)
      ensures ok <==> Eligible(u, ctx, txs, spent, tx)
      ensures ok ==> Candidate(u, ctx, txs, spent, e) && e.tx == tx && Members(conflicts) == Indexed(spent, tx.inputs)
    {
      conflicts, e := [], Entry(tx, 0, 0.0, 0, 0, 0);
      ok := CheckAlone(ctx, tx);
      if !ok {
        return;
      }
      var s;
      ok, s, e := CheckInputs(u, ctx, tx);
      if ok {
        conflicts, ok := s.conflicts, ctx.scripts(tx, s.coins);
      }
    }

    /** Replacement, fees and package of a candidate. */
    method CheckPolicy(ctx: PoolContext, conflicts: seq<Txid>, e0: Entry)
      returns (ok: bool, e: Entry, evict: seq<Txid>, ancestors: set<Txid>)
      requires Valid() && e0.tx.weight > 0 && Members(conflicts) == Indexed(spent, e0.tx.inputs)
      ensures e == e0.(rate := RateOf(e0.fee, e0.tx.weight)) && Members(evict) == Rivals(txs, e.tx)
      ensures ok <==> Competes(ctx, txs, e, Members(evict))
      ensures Members(evict) <= txs.Keys && NoDup(evict) && ClosedDown(txs, Members(evict))
      ensures ok ==> ancestors == AncestorsOf(txs, e0.tx.inputs)
    {
      var evicted, rate;
      ok, evict, evicted := PlanReplacement(txs, spent, Cost(perEntry, perInput), e0.tx, conflicts);
      e, ancestors := e0.(rate := RateOf(e0.fee, e0.tx.weight)), {};
      if !ok {
        return;
      }
      ok, rate := CheckFees(ctx, txs, e0.fee, e0.tx.weight, evict);
      if !ok {
        return;
      }
      ok, ancestors := CheckPackage(txs, spent, e0.tx.inputs);
    }

    /** The memory budget. */
    method CheckBudget(e: Entry, evict: seq<Txid>, ancestors: set<Txid>)
      returns (ok: bool, p: Plan, ghost plans: seq<Plan>)
      requires Valid() && ancestors == AncestorsOf(txs, e.tx.inputs) && Members(evict) == Rivals(txs, e.tx)
      requires Members(evict) <= txs.Keys && NoDup(evict) && ClosedDown(txs, Members(evict))
      ensures ok ==> HasRoom(txs, Cost(perEntry, perInput), maxBytes, floor, e, Members(evict), p, plans)
      ensures !ok ==> Jammed(txs, Cost(perEntry, perInput), maxBytes, floor, e, plans)
      ensures Members(evict) + Members(p.trimmed) == p.slated
      ensures floor <= p.floor && (p.trimmed == [] ==> p.floor == floor)
    {
      var usage := MemoryUsage();
      var freed := AddUp(txs, Cost(perEntry, perInput), evict);
      var newCost := EntryCost(perEntry, perInput, |e.tx.inputs|, e.tx.size);
      ok, p, plans := MakeRoom(txs, spent, Cost(perEntry, perInput), usage, newCost, maxBytes, e.rate, ancestors,
                               Members(evict), freed, floor);
    }

    /** Everything that is checked before the pool changes. */
    method Assess(u: Utxos, ctx: PoolContext, tx: Tx)
      returns (ok: bool, e: Entry, evict: seq<Txid>, p: Plan, ghost plans: seq<Plan>)
      requires Valid() && tx.weight > 0
      ensures ok ==> e.tx == tx && Members(evict) + Members(p.trimmed) == p.slated
      ensures ok ==> floor <= p.floor && (p.trimmed == [] ==> p.floor == floor)
      ensures ok ==>
                Admissible(u, ctx, txs, spent, Cost(perEntry, perInput), maxBytes, floor, e, Members(evict), p, plans)
      ensures !ok ==> Refused(u, ctx, txs, spent, Cost(perEntry, perInput), maxBytes, floor, tx, e, plans)
    {
      evict, p, plans := [], Plan([], {}, 0, floor), [];
      var conflicts, ancestors;
      ok, conflicts, e := CheckCandidate(u, ctx, tx);
      if !ok {
        return;
      }
      ghost var e0 := e;
      ok, e, evict, ancestors := CheckPolicy(ctx, conflicts, e);
      SameCandidate(u, ctx, txs, spent, e0, e);
      if !ok {
        return;
      }
      ok, p, plans := CheckBudget(e, evict, ancestors);
    }

    /** Remove listed entries. */
    method RemoveListed(ids: seq<Txid>)
      requires Valid()
      modifies this
      ensures Valid() && floor == old(floor) && txs == old(txs) - Members(ids)
    {
      var i := 0;
      ghost var gone: set<Txid> := {};
      DropNothing(txs);
      while i < |ids|
        invariant 0 <= i <= |ids| && gone == Members(ids[..i])
        invariant Valid() && floor == old(floor) && txs == old(txs) - gone
      {
        MembersPop(ids[..i + 1]);
        assert ids[..i + 1][..i] == ids[..i];
        var _ := RemoveEntry(ids[i]);
        DropOneMore(old(txs), gone, ids[i]);
        gone := gone + {ids[i]};
        i := i + 1;
      }
      assert ids[..i] == ids;
    }

    /** File a new entry. */
    method InsertEntry(e: Entry)
      requires Valid() && e.tx.txid !in txs && EntrySane(e.tx.txid, e) && Conflicts(txs, Prevouts(e.tx)) == {}
      modifies this
      ensures Valid() && floor == old(floor) && txs == old(txs)[e.tx.txid := e]
    {
      KeptInsert(txs, spent, totalBytes, e.tx.txid, e);
      var index := AddInputs(spent, e.tx.inputs, e.tx.txid);
      txs, spent, totalBytes := txs[e.tx.txid := e], index, totalBytes + e.tx.size;
    }

    /** Admit a transaction, or leave the pool as it is. What it replaces it must outbid; the cheapest entries are
        trimmed for it while there is no room; no ancestor of it is touched. It is turned away only for a reason. */
    method AddTransaction(u: Utxos, ctx: PoolContext, tx: Tx)
      returns (ok: bool, ghost e: Entry, ghost evicted: set<Txid>, ghost p: Plan, ghost plans: seq<Plan>)
      requires Valid() && Fits(u) && tx.weight > 0 && RejectsOpReturn(ctx)
      requires tx.txid !in txs && Eligible(u, ctx, txs, spent, tx) ==> Unknown(u, txs, tx.txid)
      modifies this
      ensures Valid() && Fits(u)
      ensures tx.txid in old(txs) ==> ok
      ensures !ok || tx.txid in old(txs) ==> unchanged(this)
      ensures !ok ==>
                Refused(u, ctx, old(txs), old(spent), Cost(perEntry, perInput), maxBytes, old(floor), tx, e, plans)
      ensures ok && tx.txid !in old(txs) ==>
                e.tx == tx && txs == (old(txs) - p.slated)[tx.txid := e] && floor == p.floor
      ensures ok && tx.txid !in old(txs) ==>
                Admissible(u, ctx, old(txs), old(spent), Cost(perEntry, perInput), maxBytes, old(floor), e, evicted, p,
                           plans)
    {
      e, evicted, p, plans := Entry(tx, 0, 0.0, 0, 0, 0), {}, Plan([], {}, 0, floor), [];
      if tx.txid in txs {
        return true, e, evicted, p, plans;
      }
      var entry, evict, plan;
      ghost var run;
      ok, entry, evict, plan, run := Assess(u, ctx, tx);
      e, evicted, p, plans := entry, Members(evict), plan, run;
      if !ok {
        return;
      }
      AdmitFits(u, ctx, txs, spent, Cost(perEntry, perInput), maxBytes, floor, e, evicted, p, plans);
      Commit(entry, evict, plan);
    }

    /** Carry the plan out. */
    method Commit(e: Entry, evict: seq<Txid>, p: Plan)
      requires Valid() && e.tx.txid !in txs && WellFormed(e.tx) && !IsCoinbase(e.tx)
      requires Replaces(txs, e.tx, Members(evict)) && Members(evict) + Members(p.trimmed) == p.slated
      requires p.trimmed == [] ==> p.floor == floor
      modifies this
      ensures Valid() && txs == (old(txs) - p.slated)[e.tx.txid := e] && floor == p.floor
    {
      NoRivalsLeft(txs, e.tx, Members(evict), p.slated);
      SaneCandidate(e.tx, e);
      RemoveListed(evict);
      RemoveListed(p.trimmed);
      DropTwice(old(txs), Members(evict), Members(p.trimmed));
      if |p.trimmed| > 0 {
        floor := p.floor;
      }
      InsertEntry(e);
    }
  }
}
