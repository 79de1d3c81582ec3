/** What admission found out about an entry, and why it stays true until the entry is mined. */
module PoolVetting {
  import opened Bytes
  import opened Options
  import opened Transactions
  import opened TimeLocks
  import opened Ledger
  import opened MempoolGraph
  import opened MempoolWalks
  import opened MempoolAdmission
  import opened Mempool

  /** What has been enforced all along: checks on a transaction alone and on the outputs it spends, if any, and whether
      relative locks count; and the time references of the heights. */
  datatype Rules = Rules(
    allowed: Tx -> bool, verify: (Tx, seq<TxOut>) -> bool, csv: bool, timeAt: nat -> Option<nat>)

  // ----- The outputs an entry spends

  /** The output at an outpoint, confirmed or not. */
  function OutOf(u: Utxos, txs: Pool, op: OutPoint): TxOut
  {
    if op in u then TxOut(u[op].amount, u[op].script)
    else if op.txid in txs && op.vout < |txs[op.txid].tx.outputs| then txs[op.txid].tx.outputs[op.vout]
    else TxOut(0, [])
  }

  function Outs(u: Utxos, txs: Pool, inputs: seq<TxIn>): seq<TxOut>
  {
    if |inputs| == 0 then [] else Outs(u, txs, inputs[..|inputs| - 1]) + [OutOf(u, txs, inputs[|inputs| - 1].prev)]
  }

  lemma {:induction false} OutsSame(u: Utxos, txs: Pool, u': Utxos, txs': Pool, inputs: seq<TxIn>)
    requires forall op :: op in PrevoutSet(inputs) ==> OutOf(u', txs', op) == OutOf(u, txs, op)
    ensures Outs(u', txs', inputs) == Outs(u, txs, inputs)
  {
    if |inputs| > 0 {
      OutsSame(u, txs, u', txs', inputs[..|inputs| - 1]);
    }
  }

  function Plain(coins: seq<Coin>): seq<TxOut>
  {
    if |coins| == 0 then []
    else Plain(coins[..|coins| - 1]) + [TxOut(coins[|coins| - 1].amount, coins[|coins| - 1].script)]
  }

  lemma {:induction false} PlainMore(coins: seq<Coin>, c: Coin)
    ensures Plain(coins + [c]) == Plain(coins) + [TxOut(c.amount, c.script)]
  {
    assert (coins + [c])[..|coins|] == coins;
  }

  lemma {:induction false} WorthMore(outs: seq<TxOut>, out: TxOut)
    ensures SumOutputs(outs + [out]) == SumOutputs(outs) + out.value
  {
    assert (outs + [out])[..|outs|] == outs;
  }

  // ----- Relative locks that stay open

  /** The lock of input `i` is off, asks for nothing, or is on a confirmed coin and covered by the lock point. */
  ghost predicate LockKept(timeAt: nat -> Option<nat>, u: Utxos, e: Entry, i: nat)
    requires i < |e.tx.inputs|
  {
    var sequence, op := e.tx.inputs[i].sequence, e.tx.inputs[i].prev;
    || LockDisabled(sequence) || Masked(sequence) == 0
    || (op in u && if IsTimeLock(sequence)
                   then timeAt(u[op].height).Some? && timeAt(u[op].height).value + Masked(sequence) * 512 <= e.lockTime
                   else u[op].height + Masked(sequence) <= e.lockHeight)
  }

  ghost predicate LocksKept(timeAt: nat -> Option<nat>, u: Utxos, e: Entry)
  {
    e.tx.version < 2 || forall i :: 0 <= i < |e.tx.inputs| ==> LockKept(timeAt, u, e, i)
  }

  /** The entry is a valid transaction, its fee is the value it leaves, its scripts allow the spends, and its lock point
      covers its locks. */
  ghost predicate EntryVetted(r: Rules, u: Utxos, txs: Pool, e: Entry)
  {
    && WellFormed(e.tx) && !IsCoinbase(e.tx) && r.allowed(e.tx)
    && e.fee + SumOutputs(e.tx.outputs) == SumOutputs(Outs(u, txs, e.tx.inputs))
    && r.verify(e.tx, Outs(u, txs, e.tx.inputs))
    && (r.csv ==> LocksKept(r.timeAt, u, e))
  }

  ghost predicate Vetted(r: Rules, u: Utxos, txs: Pool)
  {
    forall id {:trigger EntryVetted(r, u, txs, txs[id])} :: id in txs ==> EntryVetted(r, u, txs, txs[id])
  }

  // ----- Vetting lasts

  /** Nothing an entry spends has changed. */
  ghost predicate SameSources(u: Utxos, txs: Pool, u': Utxos, txs': Pool, e: Entry)
  {
    forall op :: op in Prevouts(e.tx) ==>
      OutOf(u', txs', op) == OutOf(u, txs, op) && (op in u ==> op in u' && u'[op] == u[op])
  }

  lemma {:induction false} StillVetted(r: Rules, u: Utxos, txs: Pool, u': Utxos, txs': Pool, e: Entry)
    requires EntryVetted(r, u, txs, e) && SameSources(u, txs, u', txs', e)
    ensures EntryVetted(r, u', txs', e)
  {
    OutsSame(u, txs, u', txs', e.tx.inputs);
    PrevoutsAre(e.tx.inputs);
    if r.csv && e.tx.version >= 2 {
      forall i | 0 <= i < |e.tx.inputs|
        ensures LockKept(r.timeAt, u', e, i)
      {
        assert LockKept(r.timeAt, u, e, i);
        assert e.tx.inputs[i].prev in Prevouts(e.tx);
      }
    }
  }

  lemma {:induction false} SourcesAfterRemoval(u: Utxos, txs: Pool, gone: set<Txid>, id: Txid)
    requires Grounded(u, txs) && ClosedDown(txs, gone) && id in txs && id !in gone
    ensures SameSources(u, txs, u, txs - gone, txs[id])
  {
    assert EntryBacked(u, txs, txs[id]);
    forall op | op in Prevouts(txs[id].tx)
      ensures OutOf(u, txs - gone, op) == OutOf(u, txs, op)
    {
      if op !in u && op.txid in gone {
        ChildGone(txs, gone, op, id);
      }
    }
  }

  /** Removing entries with all their descendants. */
  lemma {:induction false} VettedLess(r: Rules, u: Utxos, txs: Pool, gone: set<Txid>)
    requires Vetted(r, u, txs) && Grounded(u, txs) && ClosedDown(txs, gone)
    ensures Vetted(r, u, txs - gone)
  {
    forall id | id in txs - gone
      ensures EntryVetted(r, u, txs - gone, (txs - gone)[id])
    {
      SourcesAfterRemoval(u, txs, gone, id);
      StillVetted(r, u, txs, u, txs - gone, txs[id]);
    }
  }

  lemma {:induction false} VettedTreesGone(r: Rules, u: Utxos, txs: Pool, roots: set<Txid>)
    requires Vetted(r, u, txs) && Grounded(u, txs)
    ensures Vetted(r, u, txs - Tree(txs, roots))
  {
    TreeClosed(txs, roots);
    VettedLess(r, u, txs, Tree(txs, roots));
  }

  lemma {:induction false} SourcesAfterConfirm(u: Utxos, txs: Pool, tx: Tx, height: nat, coinbase: bool, id: Txid)
    requires Grounded(u, txs) && SameTx(txs, tx) && NotYetCreated(u, tx) && id in txs && id != tx.txid
    ensures SameSources(u, txs, u + Created(tx, height, coinbase), txs - {tx.txid}, txs[id])
  {
    var u', rest := u + Created(tx, height, coinbase), txs - {tx.txid};
    OutputsAre(tx, height, coinbase, |tx.outputs|);
    assert EntryBacked(u, txs, txs[id]);
    forall op | op in Prevouts(txs[id].tx)
      ensures OutOf(u', rest, op) == OutOf(u, txs, op) && (op in u ==> op in u' && u'[op] == u[op])
    {
      if op in u {
        assert op !in Created(tx, height, coinbase);
      } else if op.txid == tx.txid {
        assert PoolCoin(txs, op) && op in Created(tx, height, coinbase);
      }
    }
  }

  /** Outputs of a confirmed entry turn into coins. */
  lemma {:induction false} VettedConfirm(r: Rules, u: Utxos, txs: Pool, tx: Tx, height: nat, coinbase: bool)
    requires Vetted(r, u, txs) && Grounded(u, txs) && SameTx(txs, tx) && NotYetCreated(u, tx)
    ensures Vetted(r, u + Created(tx, height, coinbase), txs - {tx.txid})
  {
    var u', rest := u + Created(tx, height, coinbase), txs - {tx.txid};
    forall id | id in rest
      ensures EntryVetted(r, u', rest, rest[id])
    {
      SourcesAfterConfirm(u, txs, tx, height, coinbase, id);
      StillVetted(r, u, txs, u', rest, txs[id]);
    }
  }

  /** Coins go that no entry spends. */
  lemma {:induction false} VettedSpend(r: Rules, u: Utxos, txs: Pool, ops: set<OutPoint>)
    requires Vetted(r, u, txs) && Conflicts(txs, ops) == {}
    ensures Vetted(r, u - ops, txs)
  {
    forall id | id in txs
      ensures EntryVetted(r, u - ops, txs, txs[id])
    {
      assert id !in Conflicts(txs, ops);
      StillVetted(r, u, txs, u - ops, txs, txs[id]);
    }
  }

  // ----- Connected blocks

  /** Dropping a confirmed transaction and its rivals keeps the rest vetted. */
  lemma {:induction false} VettedDropTx(r: Rules, u: Utxos, txs: Pool, tx: Tx, height: nat, coinbase: bool,
                                        after: Utxos)
    requires Vetted(r, u, txs) && Grounded(u, txs) && SameTx(txs, tx) && NotYetCreated(u, tx)
    requires Confirms(u, tx, height, coinbase, after)
    ensures Vetted(r, after, DropTx(txs, tx))
  {
    var coins, rest := u + Created(tx, height, coinbase), txs - {tx.txid};
    ConfirmBacked(u, txs, tx, height, coinbase);
    VettedConfirm(r, u, txs, tx, height, coinbase);
    VettedTreesGone(r, coins, rest, Conflicts(rest, Prevouts(tx)));
    if !coinbase {
      NoConflictsLeft(rest, Prevouts(tx));
      VettedSpend(r, coins, DropTx(txs, tx), Prevouts(tx));
      SpendOrCreateFirst(u, tx, height);
    }
  }

  /** A connected block that remakes no unspent coin keeps the rest of the pool vetted. */
  lemma {:induction false} VettedDropBlock(r: Rules, views: seq<Utxos>, block: seq<Tx>, height: nat, txs: Pool, k: nat,
                                           cost: Measure, maxBytes: nat)
    requires BlockRun(views, block, height) && k <= |block|
    requires forall j :: 0 <= j < |block| ==> SameTx(txs, block[j]) && NotYetCreated(views[j], block[j])
    requires Vetted(r, views[0], txs) && Grounded(views[0], txs) && Bounded(txs, cost, maxBytes)
    ensures Vetted(r, views[k], DropBlock(txs, block, k))
  {
    if k > 0 {
      var j := k - 1;
      VettedDropBlock(r, views, block, height, txs, j, cost, maxBytes);
      DropBlockOk(views, block, height, txs, j, cost, maxBytes);
      assert ConfirmsAt(views, block, height, j) && SameTx(txs, block[j]);
      SameTxKept(txs, block, j, block[j]);
      VettedDropTx(r, views[j], DropBlock(txs, block, j), block[j], height, j == 0, views[k]);
    }
  }

  // ----- Admission

  lemma {:induction false} HeightsAt(coins: seq<Coin>, i: nat)
    requires i < |coins|
    ensures |Heights(coins)| == |coins| && Heights(coins)[i] == coins[i].height
  {
    if |coins| > 1 {
      HeightsAt(coins[..|coins| - 1], if i < |coins| - 1 then i else 0);
    }
  }

  lemma {:induction false} TimesAt(timeAt: nat -> Option<nat>, coins: seq<Coin>, i: nat)
    requires i < |coins| && Times(timeAt, coins).Some?
    ensures |Times(timeAt, coins).value| == |coins| && timeAt(coins[i].height) == Some(Times(timeAt, coins).value[i])
  {
    if |coins| > 1 {
      TimesAt(timeAt, coins[..|coins| - 1], if i < |coins| - 1 then i else 0);
    }
  }

  /** Every outpoint is a coin or an output of an entry. */
  ghost predicate AllFound(u: Utxos, txs: Pool, ops: set<OutPoint>)
  {
    forall op :: op in ops ==> op in u || (op.txid in txs && op.vout < |txs[op.txid].tx.outputs|)
  }

  lemma {:induction false} UsableAreFound(u: Utxos, txs: Pool, spent: Index, nextHeight: nat, inputs: seq<TxIn>)
    requires AllUsable(u, txs, spent, nextHeight, inputs)
    ensures AllFound(u, txs, PrevoutSet(inputs))
  {
    forall op | op in PrevoutSet(inputs)
      ensures op in u || (op.txid in txs && op.vout < |txs[op.txid].tx.outputs|)
    {
      UsableAt(u, txs, spent, nextHeight, inputs, op);
    }
  }

  /** The coins looked up are the outputs spent. */
  lemma {:induction false} PrevCoinsPlain(u: Utxos, txs: Pool, nextHeight: nat, inputs: seq<TxIn>)
    requires AllFound(u, txs, PrevoutSet(inputs))
    ensures Plain(PrevCoins(u, txs, nextHeight, inputs)) == Outs(u, txs, inputs)
  {
    if |inputs| > 0 {
      var front, op := inputs[..|inputs| - 1], inputs[|inputs| - 1].prev;
      PrevCoinsPlain(u, txs, nextHeight, front);
      var coin := PrevCoin(u, txs, nextHeight, op).value;
      assert TxOut(coin.amount, coin.script) == OutOf(u, txs, op);
      PlainMore(PrevCoins(u, txs, nextHeight, front), coin);
    }
  }

  lemma {:induction false} PrevValueIs(u: Utxos, txs: Pool, spent: Index, nextHeight: nat, inputs: seq<TxIn>)
    requires AllUsable(u, txs, spent, nextHeight, inputs)
    ensures PrevValue(u, txs, nextHeight, inputs) == SumOutputs(Outs(u, txs, inputs))
  {
    if |inputs| > 0 {
      var front, op := inputs[..|inputs| - 1], inputs[|inputs| - 1].prev;
      PrevValueIs(u, txs, spent, nextHeight, front);
      WorthMore(Outs(u, txs, front), OutOf(u, txs, op));
    }
  }

  lemma {:induction false} PrevCoinsAt(u: Utxos, txs: Pool, spent: Index, nextHeight: nat, inputs: seq<TxIn>, i: nat)
    requires AllUsable(u, txs, spent, nextHeight, inputs) && i < |inputs|
    ensures var coins := PrevCoins(u, txs, nextHeight, inputs);
            |coins| == |inputs| && PrevCoin(u, txs, nextHeight, inputs[i].prev) == Some(coins[i])
  {
    if |inputs| > 1 {
      PrevCoinsAt(u, txs, spent, nextHeight, inputs[..|inputs| - 1], if i < |inputs| - 1 then i else 0);
    }
  }

  /** Heights and times are far from the end of the 32-bit range. */
  ghost predicate InRange(ctx: PoolContext, u: Utxos)
  {
    && ctx.tipHeight + 1 + 0xffff < U32 && ctx.tipMtp + 0xffff * 512 < U32
    && forall op :: op in u ==> u[op].height <= ctx.tipHeight && TimeInRange(ctx, u[op].height)
  }

  ghost predicate TimeInRange(ctx: PoolContext, height: nat)
  {
    ctx.timeAt(height).Some? ==> ctx.timeAt(height).value <= ctx.tipMtp
  }

  /** Admission checks at least what the rules ask for. */
  ghost predicate Enforces(ctx: PoolContext, r: Rules)
  {
    && (r.csv ==> ctx.csv) && (forall tx: Tx :: ctx.policy(tx) ==> r.allowed(tx))
    && (forall tx: Tx, coins: seq<Coin> :: ctx.scripts(tx, coins) ==> r.verify(tx, Plain(coins)))
    && forall h: nat :: h <= ctx.tipHeight ==> r.timeAt(h) == ctx.timeAt(h)
  }

  /** A lock point reached by the next block is reached for good: an unconfirmed parent leaves no lock to wait for. */
  lemma {:induction false} PointCoversLock(ctx: PoolContext, r: Rules, u: Utxos, e: Entry, i: nat, coin: Coin,
                                           heights: seq<nat>, times: seq<nat>)
    requires Enforces(ctx, r) && InRange(ctx, u) && i < |e.tx.inputs| && i < |heights| && heights[i] == coin.height
    requires InputUnlocked(e.tx, heights, times, e.lockHeight, e.lockTime, i)
    requires e.lockHeight <= ctx.tipHeight + 1 && e.lockTime <= ctx.tipMtp
    requires !LockDisabled(e.tx.inputs[i].sequence) && IsTimeLock(e.tx.inputs[i].sequence) ==>
               i < |times| && TimeReference(ctx)(coin.height) == Some(times[i])
    requires if e.tx.inputs[i].prev in u then coin == u[e.tx.inputs[i].prev] else coin.height == ctx.tipHeight + 1
    ensures LockKept(r.timeAt, u, e, i)
  {
    var op := e.tx.inputs[i].prev;
    assert op in u ==> coin.height <= ctx.tipHeight && TimeInRange(ctx, u[op].height);
    assert !LockDisabled(e.tx.inputs[i].sequence) ==> TrueOpens(e.tx, heights, times, i) < U32;
  }

  lemma {:induction false} CandidateLocks(ctx: PoolContext, r: Rules, u: Utxos, txs: Pool, spent: Index, e: Entry)
    requires Candidate(u, ctx, txs, spent, e) && Enforces(ctx, r) && InRange(ctx, u) && ctx.csv
    ensures LocksKept(r.timeAt, u, e)
  {
    var coins := PrevCoins(u, txs, ctx.tipHeight + 1, e.tx.inputs);
    var times :| LockedAs(ctx, coins, times, e);
    assert LocksOpen(e.tx, Heights(coins), times, e.lockHeight, e.lockTime);
    if e.tx.version >= 2 {
      forall i | 0 <= i < |e.tx.inputs|
        ensures LockKept(r.timeAt, u, e, i)
      {
        PrevCoinsAt(u, txs, spent, ctx.tipHeight + 1, e.tx.inputs, i);
        HeightsAt(coins, i);
        if NeedsTimes(e.tx) {
          TimesAt(TimeReference(ctx), coins, i);
        }
        PointCoversLock(ctx, r, u, e, i, coins[i], Heights(coins), times);
      }
    }
  }

  /** What passes admission is vetted. */
  lemma {:induction false} CandidateVetted(ctx: PoolContext, r: Rules, u: Utxos, txs: Pool, spent: Index, e: Entry)
    requires Candidate(u, ctx, txs, spent, e) && Enforces(ctx, r) && InRange(ctx, u)
    ensures EntryVetted(r, u, txs, e)
  {
    UsableAreFound(u, txs, spent, ctx.tipHeight + 1, e.tx.inputs);
    PrevCoinsPlain(u, txs, ctx.tipHeight + 1, e.tx.inputs);
    PrevValueIs(u, txs, spent, ctx.tipHeight + 1, e.tx.inputs);
    if r.csv {
      CandidateLocks(ctx, r, u, txs, spent, e);
    }
  }

  lemma {:induction false} SourcesAfterInsert(u: Utxos, txs: Pool, id: Txid, e: Entry, e': Entry)
    requires Unknown(u, txs, id) && EntryBacked(u, txs, e')
    ensures SameSources(u, txs, u, txs[id := e], e')
  {}

  /** A parent of a new entry is not removed for it. */
  lemma {:induction false} SourcesAfterPlan(u: Utxos, txs: Pool, e: Entry, slated: set<Txid>)
    requires EntryBacked(u, txs - slated, e)
    ensures SameSources(u, txs, u, txs - slated, e)
  {}

  lemma {:induction false} VettedInsert(r: Rules, u: Utxos, txs: Pool, id: Txid, e: Entry, e': Entry)
    requires Unknown(u, txs, id) && EntryBacked(u, txs, e') && EntryVetted(r, u, txs, e')
    ensures EntryVetted(r, u, txs[id := e], e')
  {
    SourcesAfterInsert(u, txs, id, e, e');
    StillVetted(r, u, txs, u, txs[id := e], e');
  }

  /** A vetted entry takes the place of a closed set. */
  lemma {:induction false} VettedExchange(r: Rules, u: Utxos, txs: Pool, slated: set<Txid>, id: Txid, e: Entry)
    requires Vetted(r, u, txs) && Grounded(u, txs) && Unknown(u, txs, id) && ClosedDown(txs, slated)
    requires EntryVetted(r, u, txs, e) && EntryBacked(u, txs - slated, e)
    ensures Vetted(r, u, (txs - slated)[id := e])
  {
    var rest := txs - slated;
    RemoveClosed(u, txs, slated);
    VettedLess(r, u, txs, slated);
    SourcesAfterPlan(u, txs, e, slated);
    StillVetted(r, u, txs, u, rest, e);
    var more := rest[id := e];
    forall c | c in more
      ensures EntryVetted(r, u, more, more[c])
    {
      assert EntryBacked(u, rest, more[c]) && EntryVetted(r, u, rest, more[c]);
      VettedInsert(r, u, rest, id, e, more[c]);
    }
  }

  lemma {:induction false} AdmittedIsBacked(u: Utxos, ctx: PoolContext, txs: Pool, spent: Index, cost: Measure,
                                            maxBytes: nat, floor: real, e: Entry, evicted: set<Txid>, p: Plan,
                                            plans: seq<Plan>)
    requires Grounded(u, txs) && RejectsOpReturn(ctx)
    requires Admissible(u, ctx, txs, spent, cost, maxBytes, floor, e, evicted, p, plans)
    ensures EntryBacked(u, txs - p.slated, e) && ClosedDown(txs, p.slated)
  {
    UsableIsBacked(u, ctx, txs, spent, e);
    StillBacked(u, txs, e, evicted, p.slated);
  }

  /** Admission keeps the pool vetted. */
  lemma {:induction false} VettedAdmit(r: Rules, u: Utxos, ctx: PoolContext, txs: Pool, spent: Index, cost: Measure,
                                       maxBytes: nat, floor: real, e: Entry, evicted: set<Txid>, p: Plan,
                                       plans: seq<Plan>)
    requires Vetted(r, u, txs) && Grounded(u, txs) && Unknown(u, txs, e.tx.txid) && RejectsOpReturn(ctx)
    requires Enforces(ctx, r) && InRange(ctx, u)
    requires Admissible(u, ctx, txs, spent, cost, maxBytes, floor, e, evicted, p, plans)
    ensures Vetted(r, u, (txs - p.slated)[e.tx.txid := e])
  {
    AdmittedIsBacked(u, ctx, txs, spent, cost, maxBytes, floor, e, evicted, p, plans);
    CandidateVetted(ctx, r, u, txs, spent, e);
    VettedExchange(r, u, txs, p.slated, e.tx.txid, e);
  }
}
