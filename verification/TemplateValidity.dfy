/** A block template against the rules for blocks: exactly what can spoil it, whatever was admitted before. */
module TemplateValidity {
  import opened Options
  import opened Transactions
  import opened TimeLocks
  import opened Ledger
  import opened MempoolGraph
  import opened MempoolWalks
  import opened MempoolAdmission
  import opened Mempool
  import opened BlockTemplate
  import opened PoolVetting

  // ----- The coins a template transaction sees

  /** The coin at an outpoint is the one the pool would look up for a block at that height. */
  ghost predicate SeesAt(u: Utxos, txs: Pool, height: nat, view: Utxos, op: OutPoint)
  {
    op in view && PrevCoin(u, txs, height, op) == Some(view[op])
  }

  ghost predicate Sees(u: Utxos, txs: Pool, height: nat, view: Utxos, ops: set<OutPoint>)
  {
    forall op :: op in ops ==> SeesAt(u, txs, height, view, op)
  }

  lemma {:induction false} SeesConfirmed(u: Utxos, txs: Pool, block: seq<Tx>, height: nat, k: nat, op: OutPoint)
    requires 0 < k < |block| && Replays(u, block, height, k) && op in Prevouts(block[k]) && op in u
    requires op !in SpentBy(block, k)
    ensures SeesAt(u, txs, height, After(u, block, height, k), op)
  {
    TracksAll(u, block, height, k);
    OwnAll(u, block, height, k);
    SpentGrows(block, k, |block|);
  }

  lemma {:induction false} SeesParent(u: Utxos, txs: Pool, ids: seq<Txid>, coinbase: Tx, block: seq<Tx>, height: nat,
                                      k: nat, op: OutPoint)
    requires Sane(txs) && IsBlockOf(txs, ids, coinbase, block) && 0 < k < |block| && Replays(u, block, height, k)
    requires op !in u && op !in SpentBy(block, k) && op.txid in Members(ids[..k - 1]) && PoolCoin(txs, op)
    ensures SeesAt(u, txs, height, After(u, block, height, k), op)
  {
    TracksAll(u, block, height, k);
    var j := MemberAt(ids[..k - 1], op.txid);
    assert ids[j] == op.txid && EntrySane(op.txid, txs[op.txid]);
    var tx := block[j + 1];
    assert tx == txs[ids[j]].tx;
    OutputsAre(tx, height, false, |tx.outputs|);
    CreatedStays(u, block, height, j + 1, k, op);
  }

  /** Each entry of a template finds in the block what it found at admission. */
  lemma {:induction false} TemplateSees(u: Utxos, txs: Pool, spent: Index, ids: seq<Txid>, coinbase: Tx, block: seq<Tx>,
                                        height: nat, k: nat)
    requires Grounded(u, txs) && Sane(txs) && Inverse(txs, spent) && IsBlockOf(txs, ids, coinbase, block)
    requires NoDup(ids) && ParentsFirst(txs, ids) && 0 < k < |block| && Replays(u, block, height, k)
    ensures Sees(u, txs, height, After(u, block, height, k), Prevouts(block[k]))
  {
    var i := k - 1;
    var id := ids[i];
    NoDupAt(ids, i);
    ParentsFirstAt(txs, ids, i);
    UnspentSoFar(txs, spent, ids, coinbase, block, k, id);
    assert block[i + 1] == txs[id].tx;
    assert EntryBacked(u, txs, txs[id]);
    ParentIdsAre(txs[id].tx.inputs);
    forall op | op in Prevouts(block[k])
      ensures SeesAt(u, txs, height, After(u, block, height, k), op)
    {
      if op in u {
        SeesConfirmed(u, txs, block, height, k, op);
      } else {
        SeesParent(u, txs, ids, coinbase, block, height, k, op);
      }
    }
  }

  // ----- Value, scripts and locks in the block

  lemma {:induction false} CoinsFound(u: Utxos, txs: Pool, height: nat, view: Utxos, inputs: seq<TxIn>)
    requires Sees(u, txs, height, view, PrevoutSet(inputs))
    ensures CoinsOf(view, inputs) == PrevCoins(u, txs, height, inputs)
  {
    if |inputs| > 0 {
      CoinsFound(u, txs, height, view, inputs[..|inputs| - 1]);
      assert SeesAt(u, txs, height, view, inputs[|inputs| - 1].prev);
    }
  }

  lemma {:induction false} ValueInIs(u: Utxos, txs: Pool, height: nat, view: Utxos, inputs: seq<TxIn>)
    requires Sees(u, txs, height, view, PrevoutSet(inputs))
    ensures ValueIn(view, inputs) == SumOutputs(Outs(u, txs, inputs))
  {
    if |inputs| > 0 {
      var front, op := inputs[..|inputs| - 1], inputs[|inputs| - 1].prev;
      ValueInIs(u, txs, height, view, front);
      assert SeesAt(u, txs, height, view, op);
      WorthMore(Outs(u, txs, front), OutOf(u, txs, op));
    }
  }

  lemma {:induction false} CoinsLength(view: Utxos, inputs: seq<TxIn>)
    ensures |CoinsOf(view, inputs)| == |inputs|
  {
    if |inputs| > 0 {
      CoinsLength(view, inputs[..|inputs| - 1]);
    }
  }

  lemma {:induction false} CoinsAt(view: Utxos, inputs: seq<TxIn>, i: nat)
    requires i < |inputs|
    ensures |CoinsOf(view, inputs)| == |inputs| && CoinsOf(view, inputs)[i] == CoinAt(view, inputs[i].prev)
  {
    if |inputs| > 1 {
      CoinsAt(view, inputs[..|inputs| - 1], if i < |inputs| - 1 then i else 0);
    }
  }

  /** No coin is from a later block, and the time reference of each height up to the block's is known and past. */
  ghost predicate Dated(ctx: Context, u: Utxos)
  {
    && (forall op :: op in u ==> u[op].height <= ctx.height)
    && forall h: nat :: h <= ctx.height ==> Past(ctx, h)
  }

  ghost predicate Past(ctx: Context, h: nat)
  {
    ctx.timeAt(h).Some? && ctx.timeAt(h).value <= ctx.mtp
  }

  lemma {:induction false} TimesKnown(ctx: Context, coins: seq<Coin>)
    requires forall h: nat :: h <= ctx.height ==> Past(ctx, h)
    requires forall i :: 0 <= i < |coins| ==> coins[i].height <= ctx.height
    ensures Times(ctx.timeAt, coins).Some?
  {
    if |coins| > 0 {
      TimesKnown(ctx, coins[..|coins| - 1]);
      assert Past(ctx, coins[|coins| - 1].height);
    }
  }

  ghost predicate SameTimes(ctx: Context, r: Rules)
  {
    forall h: nat :: h <= ctx.height ==> ctx.timeAt(h) == r.timeAt(h)
  }

  /** A covered lock is open in any block past the lock point. */
  lemma {:induction false} CoveredIsOpen(ctx: Context, r: Rules, u: Utxos, e: Entry, i: nat, coin: Coin,
                                         heights: seq<nat>, times: seq<nat>)
    requires SameTimes(ctx, r) && i < |e.tx.inputs| && i < |heights| && heights[i] == coin.height <= ctx.height
    requires LockKept(r.timeAt, u, e, i) && e.lockHeight <= ctx.height && e.lockTime <= ctx.mtp
    requires !LockDisabled(e.tx.inputs[i].sequence) && IsTimeLock(e.tx.inputs[i].sequence) ==>
               i < |times| && ctx.timeAt(coin.height) == Some(times[i]) && times[i] <= ctx.mtp
    requires e.tx.inputs[i].prev in u ==> coin == u[e.tx.inputs[i].prev]
    ensures InputUnlocked(e.tx, heights, times, ctx.height, ctx.mtp, i)
  {
    assert Opens(e.tx, heights, times, i) <= TrueOpens(e.tx, heights, times, i);
  }

  lemma {:induction false} SeenAreOld(ctx: Context, u: Utxos, txs: Pool, view: Utxos, inputs: seq<TxIn>)
    requires Dated(ctx, u) && Sees(u, txs, ctx.height, view, PrevoutSet(inputs))
    ensures forall i :: 0 <= i < |inputs| ==> inputs[i].prev in view && view[inputs[i].prev].height <= ctx.height
  {
    PrevoutsAre(inputs);
    forall i | 0 <= i < |inputs|
      ensures inputs[i].prev in view && view[inputs[i].prev].height <= ctx.height
    {
      assert SeesAt(u, txs, ctx.height, view, inputs[i].prev);
    }
  }

  /** One input's lock, whether or not times are looked up. */
  lemma {:induction false} InputOpens(ctx: Context, r: Rules, u: Utxos, txs: Pool, e: Entry, view: Utxos,
                                      times: seq<nat>, i: nat)
    requires SameTimes(ctx, r) && Dated(ctx, u) && Sees(u, txs, ctx.height, view, Prevouts(e.tx))
    requires i < |e.tx.inputs| && LockKept(r.timeAt, u, e, i) && e.lockHeight <= ctx.height && e.lockTime <= ctx.mtp
    requires if NeedsTimes(e.tx) then Times(ctx.timeAt, CoinsOf(view, e.tx.inputs)) == Some(times) else times == []
    requires e.tx.version >= 2
    ensures InputUnlocked(e.tx, Heights(CoinsOf(view, e.tx.inputs)), times, ctx.height, ctx.mtp, i)
  {
    var coins, op := CoinsOf(view, e.tx.inputs), e.tx.inputs[i].prev;
    SeenAreOld(ctx, u, txs, view, e.tx.inputs);
    PrevoutsAre(e.tx.inputs);
    assert SeesAt(u, txs, ctx.height, view, op);
    CoinsAt(view, e.tx.inputs, i);
    HeightsAt(coins, i);
    if NeedsTimes(e.tx) {
      TimesAt(ctx.timeAt, coins, i);
      assert Past(ctx, coins[i].height);
    }
    CoveredIsOpen(ctx, r, u, e, i, coins[i], Heights(coins), times);
  }

  /** Locks covered by the lock point are open in the block. */
  lemma {:induction false} LocksOpenInBlock(ctx: Context, r: Rules, u: Utxos, txs: Pool, e: Entry, view: Utxos)
    requires SameTimes(ctx, r) && Dated(ctx, u) && Sees(u, txs, ctx.height, view, Prevouts(e.tx))
    requires LocksKept(r.timeAt, u, e) && e.lockHeight <= ctx.height && e.lockTime <= ctx.mtp
    ensures RelativeLocksOpen(ctx, e.tx, CoinsOf(view, e.tx.inputs))
  {
    var coins := CoinsOf(view, e.tx.inputs);
    if ctx.csv && e.tx.version >= 2 {
      SeenAreOld(ctx, u, txs, view, e.tx.inputs);
      CoinsLength(view, e.tx.inputs);
      forall i | 0 <= i < |coins|
        ensures coins[i].height <= ctx.height
      {
        CoinsAt(view, e.tx.inputs, i);
      }
      TimesKnown(ctx, coins);
      var times := if NeedsTimes(e.tx) then Times(ctx.timeAt, coins).value else [];
      forall i | 0 <= i < |e.tx.inputs|
        ensures InputUnlocked(e.tx, Heights(coins), times, ctx.height, ctx.mtp, i)
      {
        InputOpens(ctx, r, u, txs, e, view, times, i);
      }
    }
  }

  // ----- The template against the block rules

  /** Every coinbase coin among the confirmed coins a transaction spends is old enough. */
  ghost predicate SpendsMature(ctx: Context, u: Utxos, tx: Tx)
  {
    forall op :: op in Prevouts(tx) && op in u ==> Mature(ctx, u[op])
  }

  lemma {:induction false} SpendableWhen(ctx: Context, u: Utxos, txs: Pool, view: Utxos, inputs: seq<TxIn>)
    requires Sees(u, txs, ctx.height, view, PrevoutSet(inputs))
    ensures AllSpendable(ctx, view, inputs) <==> forall op :: op in PrevoutSet(inputs) && op in u ==> Mature(ctx, u[op])
  {
    if |inputs| > 0 {
      SpendableWhen(ctx, u, txs, view, inputs[..|inputs| - 1]);
      assert SeesAt(u, txs, ctx.height, view, inputs[|inputs| - 1].prev);
    }
  }

  /** The block's own checks on an entry's transaction, with the coins as the pool looks them up: coinbase coins are
      mature, the transaction and its scripts are allowed, and locks that were not enforced all along are open. */
  ghost predicate Fit(ctx: Context, r: Rules, u: Utxos, txs: Pool, tx: Tx)
  {
    var coins := PrevCoins(u, txs, ctx.height, tx.inputs);
    && SpendsMature(ctx, u, tx) && ctx.allowed(tx) && ctx.scripts(tx, coins)
    && (r.csv || RelativeLocksOpen(ctx, tx, coins))
  }

  /** A vetted entry past its lock point passes exactly when it is fit for the block, and pays its recorded fee. */
  lemma {:induction false} EntrySpendsWhen(ctx: Context, r: Rules, u: Utxos, txs: Pool, e: Entry, view: Utxos)
    requires SameTimes(ctx, r) && Dated(ctx, u) && Sees(u, txs, ctx.height, view, Prevouts(e.tx))
    requires EntryVetted(r, u, txs, e) && FinalForBlock(e, ctx.height, ctx.mtp) && ctx.mtp <= ctx.lockTimeRef
    ensures Spends(ctx, view, e.tx) && ctx.allowed(e.tx) <==> Fit(ctx, r, u, txs, e.tx)
    ensures ValueIn(view, e.tx.inputs) == e.fee + SumOutputs(e.tx.outputs)
    ensures CoinsOf(view, e.tx.inputs) == PrevCoins(u, txs, ctx.height, e.tx.inputs)
  {
    FinalStaysFinal(e.tx, ctx.height, ctx.mtp, ctx.height, ctx.lockTimeRef);
    CoinsFound(u, txs, ctx.height, view, e.tx.inputs);
    ValueInIs(u, txs, ctx.height, view, e.tx.inputs);
    if r.csv {
      LocksOpenInBlock(ctx, r, u, txs, e, view);
    }
    SpendableWhen(ctx, u, txs, view, e.tx.inputs);
  }

  /** A block built on a template, with a coinbase that is fine on its own. */
  ghost predicate Built(ctx: Context, u: Utxos, txs: Pool, spent: Index, ids: seq<Txid>, coinbase: Tx, block: seq<Tx>)
  {
    && Grounded(u, txs) && Sane(txs) && Inverse(txs, spent) && IsBlockOf(txs, ids, coinbase, block)
    && NoDup(ids) && ParentsFirst(txs, ids) && Members(ids) <= FinalIds(txs, ctx.height, ctx.mtp)
    && coinbase.txid !in txs && NotYetCreated(u, coinbase) && Standalone(ctx, u, coinbase)
  }

  /** The block's clock goes with the pool's. */
  ghost predicate Agrees(ctx: Context, r: Rules, u: Utxos)
  {
    SameTimes(ctx, r) && Dated(ctx, u) && ctx.mtp <= ctx.lockTimeRef
  }

  /** Transaction `k` passes exactly when it is fit for the block. */
  ghost predicate PassesWhen(ctx: Context, r: Rules, u: Utxos, txs: Pool, block: seq<Tx>, k: nat)
    requires k < |block|
  {
    TxVerdict(ctx, u, block, k) == Accept <==> Fit(ctx, r, u, txs, block[k])
  }

  /** Transaction `k` finds the coins the pool looks up, and pays the fee recorded in its entry. */
  ghost predicate Pays(height: nat, u: Utxos, txs: Pool, ids: seq<Txid>, block: seq<Tx>, k: nat)
    requires 0 < k < |block| <= |ids| + 1
  {
    && ids[k - 1] in txs && block[k] == txs[ids[k - 1]].tx
    && ValueIn(After(u, block, height, k), block[k].inputs) == txs[ids[k - 1]].fee + SumOutputs(block[k].outputs)
    && CoinsOf(After(u, block, height, k), block[k].inputs) == PrevCoins(u, txs, height, block[k].inputs)
  }

  lemma {:induction false} VerdictWhen(ctx: Context, u: Utxos, block: seq<Tx>, k: nat, fit: bool)
    requires 0 < k < |block| && WellFormed(block[k]) && NotYetCreated(u, block[k])
    requires Spends(ctx, After(u, block, ctx.height, k), block[k]) && ctx.allowed(block[k]) <==> fit
    ensures TxVerdict(ctx, u, block, k) == Accept <==> fit
  {}

  /** One transaction of the block. */
  lemma {:induction false} TemplateTxWhen(ctx: Context, r: Rules, u: Utxos, txs: Pool, spent: Index, ids: seq<Txid>,
                                          coinbase: Tx, block: seq<Tx>, k: nat)
    requires Built(ctx, u, txs, spent, ids, coinbase, block) && Agrees(ctx, r, u) && Vetted(r, u, txs)
    requires 0 < k < |block|
    ensures PassesWhen(ctx, r, u, txs, block, k) && Pays(ctx.height, u, txs, ids, block, k)
  {
    var i := k - 1;
    var e := txs[ids[i]];
    assert block[i + 1] == e.tx;
    NoDupAt(ids, i);
    assert EntryVetted(r, u, txs, txs[ids[i]]) && EntrySane(ids[i], e);
    TemplateReplays(u, txs, spent, ids, coinbase, block, ctx.height, k);
    TemplateSees(u, txs, spent, ids, coinbase, block, ctx.height, k);
    EntrySpendsWhen(ctx, r, u, txs, e, After(u, block, ctx.height, k));
    VerdictWhen(ctx, u, block, k, Fit(ctx, r, u, txs, e.tx));
  }

  /** Every selected transaction is fit for the block. */
  ghost predicate AllFit(ctx: Context, r: Rules, u: Utxos, txs: Pool, block: seq<Tx>, n: nat)
    requires n <= |block|
  {
    forall k {:trigger Fit(ctx, r, u, txs, block[k])} :: 0 < k < n ==> Fit(ctx, r, u, txs, block[k])
  }

  lemma {:induction false} AllPassWhen(ctx: Context, r: Rules, u: Utxos, txs: Pool, block: seq<Tx>, n: nat)
    requires n <= |block| && (n > 0 ==> TxAccepted(ctx, u, block, 0))
    requires forall k {:trigger PassesWhen(ctx, r, u, txs, block, k)} ::
               0 < k < n ==> PassesWhen(ctx, r, u, txs, block, k)
    ensures TxsVerdict(ctx, u, block, n) == Accept <==> AllFit(ctx, r, u, txs, block, n)
  {
    if n > 1 {
      var k := n - 1;
      AllPassWhen(ctx, r, u, txs, block, k);
      assert PassesWhen(ctx, r, u, txs, block, k);
      AllFitStep(ctx, r, u, txs, block, k, n);
    }
  }

  lemma {:induction false} AllFitStep(ctx: Context, r: Rules, u: Utxos, txs: Pool, block: seq<Tx>, k: nat, n: nat)
    requires 0 < k && n == k + 1 <= |block|
    ensures AllFit(ctx, r, u, txs, block, n) <==> AllFit(ctx, r, u, txs, block, k) && Fit(ctx, r, u, txs, block[k])
  {}

  /** The fees of listed entries. */
  function FeesOf(txs: Pool, ids: seq<Txid>): nat
  {
    if |ids| == 0 then 0
    else FeesOf(txs, ids[..|ids| - 1]) + if ids[|ids| - 1] in txs then txs[ids[|ids| - 1]].fee else 0
  }

  /** Their signature operations, with the coins as the pool looks them up. */
  function SigopsOf(ctx: Context, u: Utxos, txs: Pool, ids: seq<Txid>): nat
  {
    if |ids| == 0 then 0
    else
      var id := ids[|ids| - 1];
      SigopsOf(ctx, u, txs, ids[..|ids| - 1]) +
      if id in txs then ctx.sigops(txs[id].tx, PrevCoins(u, txs, ctx.height, txs[id].tx.inputs)) else 0
  }

  /** The block's fees and signature operations are those of the entries. */
  lemma {:induction false} SumsAre(ctx: Context, u: Utxos, txs: Pool, ids: seq<Txid>, block: seq<Tx>, n: nat)
    requires 0 < n <= |block| <= |ids| + 1
    requires forall k {:trigger Pays(ctx.height, u, txs, ids, block, k)} ::
               0 < k < n ==> Pays(ctx.height, u, txs, ids, block, k)
    ensures Fees(ctx.height, u, block, n) == FeesOf(txs, ids[..n - 1])
    ensures Sigops(ctx, u, block, n) == ctx.sigops(block[0], []) + SigopsOf(ctx, u, txs, ids[..n - 1])
  {
    if n == 1 {
      assert Sigops(ctx, u, block, n - 1) == 0;
    } else {
      var k := n - 1;
      SumsAre(ctx, u, txs, ids, block, k);
      assert Pays(ctx.height, u, txs, ids, block, k);
      assert ids[..k][..k - 1] == ids[..k - 1];
    }
  }

  /** The limits on the whole block, from what the pool knows. */
  ghost predicate FitTogether(ctx: Context, u: Utxos, txs: Pool, ids: seq<Txid>, coinbase: Tx)
  {
    && ctx.sigops(coinbase, []) + SigopsOf(ctx, u, txs, ids) <= MAX_BLOCK_SIGOPS_COST
    && SumOutputs(coinbase.outputs) <= ctx.subsidy + FeesOf(txs, ids)
  }

  /** A template of a vetted pool makes an acceptable block exactly when every selected transaction is fit for the block
      and its signature operations and its coinbase's claim are within the limits. */
  lemma {:induction false} TemplateAcceptedWhen(ctx: Context, r: Rules, u: Utxos, txs: Pool, spent: Index,
                                                ids: seq<Txid>, coinbase: Tx, block: seq<Tx>)
    requires Built(ctx, u, txs, spent, ids, coinbase, block) && Agrees(ctx, r, u) && Vetted(r, u, txs)
    ensures BlockAccepted(ctx, u, block) <==>
            AllFit(ctx, r, u, txs, block, |block|) && FitTogether(ctx, u, txs, ids, coinbase)
  {
    var n := |block|;
    forall k | 0 < k < n
      ensures PassesWhen(ctx, r, u, txs, block, k) && Pays(ctx.height, u, txs, ids, block, k)
    {
      TemplateTxWhen(ctx, r, u, txs, spent, ids, coinbase, block, k);
    }
    assert TxAccepted(ctx, u, block, 0);
    AllPassWhen(ctx, r, u, txs, block, n);
    SumsAre(ctx, u, txs, ids, block, n);
    assert ids[..n - 1] == ids;
  }

  // ----- Rules that have not changed

  /** What has been enforced all along is all that the block asks of a transaction and the outputs it spends. */
  ghost predicate Steady(ctx: Context, r: Rules)
  {
    && (ctx.csv ==> r.csv) && (forall tx: Tx :: r.allowed(tx) ==> ctx.allowed(tx))
    && (forall tx: Tx, coins: seq<Coin> :: r.verify(tx, Plain(coins)) ==> ctx.scripts(tx, coins))
  }

  /** Then a vetted entry is fit exactly when the coinbase coins it spends are mature. */
  lemma {:induction false} SteadyFitWhen(ctx: Context, r: Rules, u: Utxos, txs: Pool, e: Entry)
    requires Steady(ctx, r) && EntryVetted(r, u, txs, e) && EntryBacked(u, txs, e)
    ensures Fit(ctx, r, u, txs, e.tx) <==> SpendsMature(ctx, u, e.tx)
  {
    PrevCoinsPlain(u, txs, ctx.height, e.tx.inputs);
  }

  // ----- Whole histories of a pool

  datatype State = State(u: Utxos, txs: Pool)

  /** What happens to a pool: a transaction is admitted, old entries expire, a block is connected. */
  datatype Event =
    | Admit(ctx: PoolContext, spent: Index, floor: real, e: Entry, evicted: set<Txid>, p: Plan, plans: seq<Plan>)
    | Expire(now: nat)
    | Connect(views: seq<Utxos>, block: seq<Tx>, height: nat)

  ghost predicate Admits(r: Rules, cost: Measure, maxBytes: nat, s: State, ev: Event, s': State)
    requires ev.Admit?
  {
    && RejectsOpReturn(ev.ctx) && Enforces(ev.ctx, r) && InRange(ev.ctx, s.u) && Unknown(s.u, s.txs, ev.e.tx.txid)
    && Admissible(s.u, ev.ctx, s.txs, ev.spent, cost, maxBytes, ev.floor, ev.e, ev.evicted, ev.p, ev.plans)
    && s' == State(s.u, (s.txs - ev.p.slated)[ev.e.tx.txid := ev.e])
  }

  ghost predicate Connects(s: State, ev: Event, s': State)
    requires ev.Connect?
  {
    && BlockRun(ev.views, ev.block, ev.height) && ev.views[0] == s.u
    && (forall j :: 0 <= j < |ev.block| ==> SameTx(s.txs, ev.block[j]) && NotYetCreated(ev.views[j], ev.block[j]))
    && s' == State(ev.views[|ev.block|], DropBlock(s.txs, ev.block, |ev.block|))
  }

  ghost predicate Happens(r: Rules, cost: Measure, maxBytes: nat, s: State, ev: Event, s': State)
  {
    match ev
    case Admit(_, _, _, _, _, _, _) => Admits(r, cost, maxBytes, s, ev, s')
    case Expire(now) => s' == State(s.u, s.txs - Tree(s.txs, Expired(s.txs, now)))
    case Connect(_, _, _) => Connects(s, ev, s')
  }

  /** What every history keeps. */
  ghost predicate Sound(r: Rules, cost: Measure, maxBytes: nat, s: State)
  {
    Sane(s.txs) && Grounded(s.u, s.txs) && Bounded(s.txs, cost, maxBytes) && Vetted(r, s.u, s.txs)
  }

  lemma {:induction false} DropBlockSane(txs: Pool, block: seq<Tx>, k: nat)
    requires Sane(txs) && k <= |block|
    ensures Sane(DropBlock(txs, block, k))
  {
    if k > 0 {
      DropBlockSane(txs, block, k - 1);
    }
  }

  lemma {:induction false} AdmitKeeps(r: Rules, cost: Measure, maxBytes: nat, s: State, ev: Event, s': State)
    requires Sound(r, cost, maxBytes, s) && ev.Admit? && Admits(r, cost, maxBytes, s, ev, s')
    ensures Sound(r, cost, maxBytes, s')
  {
    AdmitFits(s.u, ev.ctx, s.txs, ev.spent, cost, maxBytes, ev.floor, ev.e, ev.evicted, ev.p, ev.plans);
    VettedAdmit(r, s.u, ev.ctx, s.txs, ev.spent, cost, maxBytes, ev.floor, ev.e, ev.evicted, ev.p, ev.plans);
    SaneCandidate(ev.e.tx, ev.e);
  }

  lemma {:induction false} ExpireKeeps(r: Rules, cost: Measure, maxBytes: nat, s: State, now: nat)
    requires Sound(r, cost, maxBytes, s)
    ensures Sound(r, cost, maxBytes, State(s.u, s.txs - Tree(s.txs, Expired(s.txs, now))))
  {
    TreesGone(s.u, s.txs, Expired(s.txs, now), cost, maxBytes);
    VettedTreesGone(r, s.u, s.txs, Expired(s.txs, now));
  }

  lemma {:induction false} ConnectKeeps(r: Rules, cost: Measure, maxBytes: nat, s: State, ev: Event, s': State)
    requires Sound(r, cost, maxBytes, s) && ev.Connect? && Connects(s, ev, s')
    ensures Sound(r, cost, maxBytes, s')
  {
    var n := |ev.block|;
    DropBlockSane(s.txs, ev.block, n);
    DropBlockOk(ev.views, ev.block, ev.height, s.txs, n, cost, maxBytes);
    VettedDropBlock(r, ev.views, ev.block, ev.height, s.txs, n, cost, maxBytes);
  }

  /** The states a history goes through, from an empty pool on. */
  ghost predicate IsHistory(r: Rules, cost: Measure, maxBytes: nat, states: seq<State>, events: seq<Event>)
  {
    && |states| == |events| + 1 && states[0].txs == map[]
    && forall i :: 0 <= i < |events| ==> Happens(r, cost, maxBytes, states[i], events[i], states[i + 1])
  }

  /** Every reachable pool is sound. */
  lemma {:induction false} HistoryKeeps(r: Rules, cost: Measure, maxBytes: nat, states: seq<State>, events: seq<Event>,
                                        n: nat)
    requires IsHistory(r, cost, maxBytes, states, events) && n <= |events|
    ensures Sound(r, cost, maxBytes, states[n])
  {
    if n > 0 {
      var i := n - 1;
      HistoryKeeps(r, cost, maxBytes, states, events, i);
      assert Happens(r, cost, maxBytes, states[i], events[i], states[i + 1]);
      match events[i]
      case Admit(_, _, _, _, _, _, _) => AdmitKeeps(r, cost, maxBytes, states[i], events[i], states[n]);
      case Expire(now) => ExpireKeeps(r, cost, maxBytes, states[i], now);
      case Connect(_, _, _) => ConnectKeeps(r, cost, maxBytes, states[i], events[i], states[n]);
    }
  }

  /** A selected template becomes a block, with a coinbase that is fine on its own. */
  ghost predicate Mines(r: Rules, ctx: Context, s: State, spent: Index, maxWeight: nat, maxCount: nat, ids: seq<Txid>,
                        coinbase: Tx, block: seq<Tx>)
  {
    && Inverse(s.txs, spent) && IsTemplate(s.txs, ctx.height, ctx.mtp, maxWeight, maxCount, ids)
    && IsBlockOf(s.txs, ids, coinbase, block) && Agrees(ctx, r, s.u)
    && coinbase.txid !in s.txs && NotYetCreated(s.u, coinbase) && Standalone(ctx, s.u, coinbase)
  }

  /** Whatever was admitted, expired and connected before, a selected template makes an acceptable block exactly when
      every selected transaction is fit for the block and the limits on the whole block hold. */
  lemma {:induction false} EveryTemplateWhen(r: Rules, cost: Measure, maxBytes: nat, states: seq<State>,
                                             events: seq<Event>, n: nat, ctx: Context, spent: Index, maxWeight: nat,
                                             maxCount: nat, ids: seq<Txid>, coinbase: Tx, block: seq<Tx>)
    requires IsHistory(r, cost, maxBytes, states, events) && n <= |events|
    requires Mines(r, ctx, states[n], spent, maxWeight, maxCount, ids, coinbase, block)
    ensures BlockAccepted(ctx, states[n].u, block) <==>
            AllFit(ctx, r, states[n].u, states[n].txs, block, |block|) &&
            FitTogether(ctx, states[n].u, states[n].txs, ids, coinbase)
  {
    var s := states[n];
    HistoryKeeps(r, cost, maxBytes, states, events, n);
    TemplateAcceptedWhen(ctx, r, s.u, s.txs, spent, ids, coinbase, block);
  }

  // ----- What does spoil a template

  const COIN: OutPoint := OutPoint(1, 0)

  /** A transaction that leaves its one coin to the miner. */
  ghost predicate Alone(e: Entry, script: Script)
  {
    && e.tx == Tx(2, 1, 0, [TxIn(COIN, 0xffff_ffff)], [TxOut(0, script)], 4, 1)
    && e.fee == 5 && e.rate == 5.0 && e.lockHeight == e.lockTime == 0
  }

  ghost predicate OneCoin(u: Utxos)
  {
    u.Keys == {COIN} && u[COIN].amount == 5 && !IsOpReturn(u[COIN].script)
  }

  lemma {:induction false} AloneInputs(e: Entry, script: Script)
    requires Alone(e, script)
    ensures Prevouts(e.tx) == {COIN} && WellFormed(e.tx) && !IsCoinbase(e.tx) && SumOutputs(e.tx.outputs) == 0
  {
    var inputs := e.tx.inputs;
    assert inputs[..0] == [] && PrevoutSet([]) == {};
    assert PrevoutSet(inputs) == PrevoutSet(inputs[..0]) + {COIN};
    assert e.tx.outputs[..0] == [];
  }

  lemma {:induction false} AloneIsCandidate(u: Utxos, ctx: PoolContext, e: Entry, script: Script)
    requires Alone(e, script) && OneCoin(u) && !ctx.csv && ctx.policy(e.tx) && ctx.scripts(e.tx, [u[COIN]])
    ensures Candidate(u, ctx, map[], map[], e)
  {
    var inputs, next := e.tx.inputs, ctx.tipHeight + 1;
    AloneInputs(e, script);
    assert inputs[..0] == [];
    assert Usable(u, map[], map[], next, COIN) && AllUsable(u, map[], map[], next, inputs[..0]);
    assert PrevCoins(u, map[], next, inputs) == [u[COIN]] && PrevValue(u, map[], next, inputs) == 5;
    assert LockedAs(ctx, [u[COIN]], [], e);
  }

  lemma {:induction false} AloneCompetes(ctx: PoolContext, e: Entry, script: Script)
    requires Alone(e, script) && ctx.floor == 0.0
    ensures Competes(ctx, map[], e, {})
  {
    assert VirtualSize(e.tx.weight) == 1;
    assert Conflicts(map[], Prevouts(e.tx)) == {};
    NoTree(map[]);
    assert AncestorsOf(map[], e.tx.inputs) == {};
  }

  lemma {:induction false} AloneHasRoom(cost: Measure, maxBytes: nat, e: Entry, p: Plan)
    requires Weigh(cost, e) <= maxBytes && p == Plan([], {}, 0, 0.0)
    ensures HasRoom(map[], cost, maxBytes, 0.0, e, {}, p, [p])
  {
    var none: Pool := map[];
    assert none - {} == none && Weights(cost, none) == map[];
    assert Members([]) == {};
  }

  /** Admission to an empty pool. */
  lemma {:induction false} AloneAdmitted(u: Utxos, e: Entry, script: Script, r: Rules, pool: PoolContext,
                                         cost: Measure, maxBytes: nat, p: Plan)
    requires Alone(e, script) && OneCoin(u) && !pool.csv && pool.floor == 0.0
    requires pool.policy(e.tx) && pool.scripts(e.tx, [u[COIN]])
    requires RejectsOpReturn(pool) && Enforces(pool, r) && InRange(pool, u)
    requires Weigh(cost, e) <= maxBytes && p == Plan([], {}, 0, 0.0)
    ensures Happens(r, cost, maxBytes, State(u, map[]), Admit(pool, map[], 0.0, e, {}, p, [p]),
                    State(u, map[2 := e]))
  {
    AloneIsCandidate(u, pool, e, script);
    AloneCompetes(pool, e, script);
    AloneHasRoom(cost, maxBytes, e, p);
    var none: Pool := map[];
    assert (none - p.slated)[2 := e] == map[2 := e];
  }

  lemma {:induction false} AloneIsTemplate(e: Entry, script: Script, txs: Pool, height: nat, mtp: nat, ids: seq<Txid>)
    requires Alone(e, script) && txs == map[2 := e] && ids == [2]
    ensures Inverse(txs, map[COIN := 2]) && IsTemplate(txs, height, mtp, 4, 1, ids)
  {
    AloneInputs(e, script);
    ParentIdsAre(e.tx.inputs);
    assert ids[..0] == [] && Members(ids[..0]) == {} && Members(ids) == {2};
    assert EntryIndexed(map[COIN := 2], 2, e) && IsSpender(txs, 2, COIN);
    assert 2 !in ParentIds(e.tx.inputs) && ParentsFirst(txs, ids[..0]) && Ready(txs, {}, ids[0]);
    assert WeightOf(txs, ids) == WeightOf(txs, ids[..0]) + 4;
  }

  function PlainCoinbase(txid: Txid): Tx
  {
    Tx(txid, 1, 0, [TxIn(NULL_OUTPOINT, 0)], [TxOut(5, [0x51])], 0, 0)
  }

  lemma {:induction false} AloneMined(r: Rules, ctx: Context, u: Utxos, e: Entry, script: Script)
    requires Alone(e, script) && Agrees(ctx, r, u)
    requires ctx.allowed(PlainCoinbase(3)) && NotYetCreated(u, PlainCoinbase(3))
    ensures Mines(r, ctx, State(u, map[2 := e]), map[COIN := 2], 4, 1, [2], PlainCoinbase(3), [PlainCoinbase(3), e.tx])
  {
    AloneIsTemplate(e, script, map[2 := e], ctx.height, ctx.mtp, [2]);
    AloneInputs(e, script);
    assert PlainCoinbase(3).outputs[..0] == [];
  }

  lemma {:induction false} AloneLimits(ctx: Context, u: Utxos, e: Entry, ids: seq<Txid>)
    requires ids == [2] && ctx.subsidy == 5 && forall tx: Tx, coins: seq<Coin> :: ctx.sigops(tx, coins) == 0
    ensures FitTogether(ctx, u, map[2 := e], ids, PlainCoinbase(3))
  {
    assert ids[..0] == [];
    assert SigopsOf(ctx, u, map[2 := e], ids[..0]) == 0;
    assert PlainCoinbase(3).outputs[..0] == [];
  }

  lemma {:induction false} AloneUnfit(r: Rules, ctx: Context, u: Utxos, e: Entry, script: Script, block: seq<Tx>)
    requires Alone(e, script) && block == [PlainCoinbase(3), e.tx]
    requires !ctx.allowed(e.tx) || (COIN in u && !Mature(ctx, u[COIN]))
    ensures !AllFit(ctx, r, u, map[2 := e], block, |block|)
  {
    AloneInputs(e, script);
    assert !Fit(ctx, r, u, map[2 := e], block[1]);
  }

  /** A tip that knows no later block, and rules that leave the rest open. */
  function Clock(last: nat): nat -> Option<nat>
  {
    (h: nat) => if h <= last then Some(0) else None
  }

  function FreeRules(): Rules
  {
    Rules((tx: Tx) => true, (tx: Tx, outs: seq<TxOut>) => true, false, (h: nat) => Some(0))
  }

  ghost function FreePool(tip: nat): PoolContext
  {
    PoolContext(tip, 0, false, Clock(tip), 0, 0.0, (tx: Tx) => true,
                (tx: Tx, coins: seq<Coin>) => NoOpReturn(coins))
  }

  function BlockAt(height: nat, allowed: Tx -> bool): Context
  {
    Context(height, 0, 0, false, Clock(height), 100, true, 5, allowed, (tx: Tx, coins: seq<Coin>) => 0,
            (tx: Tx, coins: seq<Coin>) => true)
  }

  lemma {:induction false} FreePoolFits(u: Utxos, tip: nat)
    requires tip < 1000 && forall op :: op in u ==> u[op].height <= tip
    ensures RejectsOpReturn(FreePool(tip)) && Enforces(FreePool(tip), FreeRules()) && InRange(FreePool(tip), u)
  {}

  lemma {:induction false} BlockAgrees(u: Utxos, height: nat, allowed: Tx -> bool)
    requires forall op :: op in u ==> u[op].height <= height
    ensures Agrees(BlockAt(height, allowed), FreeRules(), u)
  {}

  function AloneEntry(script: Script): Entry
  {
    Entry(Tx(2, 1, 0, [TxIn(COIN, 0xffff_ffff)], [TxOut(0, script)], 4, 1), 5, 5.0, 0, 0, 0)
  }

  /** A pool that admitted a spend of a coinbase coin one block old, and the block on its template: rejected. */
  lemma {:induction false} ImmatureSpoils()
    returns (cost: Measure, states: seq<State>, events: seq<Event>, ctx: Context)
    ensures IsHistory(FreeRules(), cost, 100, states, events) && |events| == 1
    ensures Steady(ctx, FreeRules())
    ensures var s, coinbase, tx := states[1], PlainCoinbase(3), AloneEntry([0x51]).tx;
            && Mines(FreeRules(), ctx, s, map[COIN := 2], 4, 1, [2], coinbase, [coinbase, tx])
            && FitTogether(ctx, s.u, s.txs, [2], coinbase) && !BlockAccepted(ctx, s.u, [coinbase, tx])
  {
    var u: Utxos := map[COIN := Coin(5, [0x51], 1, true)];
    var e, p := AloneEntry([0x51]), Plan([], {}, 0, 0.0);
    cost, ctx := Cost(10, 10), BlockAt(2, (tx: Tx) => true);
    FreePoolFits(u, 1);
    AloneAdmitted(u, e, [0x51], FreeRules(), FreePool(1), cost, 100, p);
    events := [Admit(FreePool(1), map[], 0.0, e, {}, p, [p])];
    states := [State(u, map[]), State(u, map[2 := e])];
    BlockAgrees(u, 2, ctx.allowed);
    AloneSpoils(FreeRules(), cost, states, events, 1, ctx, e, [0x51]);
  }

  /** An unfit entry spoils the template of whatever history led to a pool of it alone. */
  lemma {:induction false} AloneSpoils(r: Rules, cost: Measure, states: seq<State>, events: seq<Event>, n: nat,
                                       ctx: Context, e: Entry, script: Script)
    requires Alone(e, script) && IsHistory(r, cost, 100, states, events) && n <= |events|
    requires states[n].txs == map[2 := e] && Agrees(ctx, r, states[n].u)
    requires ctx.allowed(PlainCoinbase(3)) && NotYetCreated(states[n].u, PlainCoinbase(3))
    requires ctx.subsidy == 5 && forall tx: Tx, coins: seq<Coin> :: ctx.sigops(tx, coins) == 0
    requires !ctx.allowed(e.tx) || (COIN in states[n].u && !Mature(ctx, states[n].u[COIN]))
    ensures var s, block := states[n], [PlainCoinbase(3), e.tx];
            && Mines(r, ctx, s, map[COIN := 2], 4, 1, [2], PlainCoinbase(3), block)
            && FitTogether(ctx, s.u, s.txs, [2], PlainCoinbase(3)) && !BlockAccepted(ctx, s.u, block)
  {
    var s, block := states[n], [PlainCoinbase(3), e.tx];
    AloneMined(r, ctx, s.u, e, script);
    AloneLimits(ctx, s.u, e, [2]);
    AloneUnfit(r, ctx, s.u, e, script, block);
    EveryTemplateWhen(r, cost, 100, states, events, n, ctx, map[COIN := 2], 4, 1, [2], PlainCoinbase(3), block);
  }

  /** BIP 110 rule 1: no output script is over 34 bytes, or 83 if it is unspendable. */
  predicate SmallOutputs(tx: Tx)
  {
    forall i :: 0 <= i < |tx.outputs| ==>
                  |tx.outputs[i].script| <= if IsOpReturn(tx.outputs[i].script) then 83 else 34
  }

  lemma {:induction false} AloneStays(u: Utxos, e: Entry, script: Script, txs: Pool, block: seq<Tx>, height: nat,
                                      views: seq<Utxos>)
    requires Alone(e, script) && OneCoin(u) && txs == map[2 := e] && block == [PlainCoinbase(9)]
    requires views == [u, ApplyTx(u, PlainCoinbase(9), height, true)]
    ensures Connects(State(u, txs), Connect(views, block, height), State(views[1], txs))
  {
    var tx := PlainCoinbase(9);
    AloneInputs(e, script);
    assert Prevouts(tx) == PrevoutSet(tx.inputs[..0]) + {NULL_OUTPOINT};
    assert txs - {tx.txid} == txs && Conflicts(txs, Prevouts(tx)) == {};
    NoTree(txs);
    assert txs - {} == txs;
    assert DropBlock(txs, block, 0) == txs;
    assert DropBlock(txs, block, 1) == DropTx(txs, tx);
    assert ConfirmsAt(views, block, height, 0);
  }

  lemma {:induction false} TwoSteps(r: Rules, cost: Measure, maxBytes: nat, s: State, a: Event, t: State, b: Event,
                                    v: State)
    requires s.txs == map[] && Happens(r, cost, maxBytes, s, a, t) && Happens(r, cost, maxBytes, t, b, v)
    ensures IsHistory(r, cost, maxBytes, [s, t, v], [a, b])
  {}

  /** Admission, then an empty block. */
  lemma {:induction false} AloneThenBlock(u: Utxos, e: Entry, script: Script, cost: Measure, after: Utxos)
    returns (states: seq<State>, events: seq<Event>)
    requires Alone(e, script) && OneCoin(u) && u[COIN].height <= 1 && Weigh(cost, e) <= 100
    requires after == ApplyTx(u, PlainCoinbase(9), 2, true)
    ensures IsHistory(FreeRules(), cost, 100, states, events) && |events| == 2
    ensures states[2] == State(after, map[2 := e])
    ensures events[0].Admit? && events[0].ctx == FreePool(1) && events[1].Connect?
  {
    var p := Plan([], {}, 0, 0.0);
    FreePoolFits(u, 1);
    AloneAdmitted(u, e, script, FreeRules(), FreePool(1), cost, 100, p);
    AloneStays(u, e, script, map[2 := e], [PlainCoinbase(9)], 2, [u, after]);
    var a, b := Admit(FreePool(1), map[], 0.0, e, {}, p, [p]), Connect([u, after], [PlainCoinbase(9)], 2);
    TwoSteps(FreeRules(), cost, 100, State(u, map[]), a, State(u, map[2 := e]), b, State(after, map[2 := e]));
    states, events := [State(u, map[]), State(u, map[2 := e]), State(after, map[2 := e])], [a, b];
  }

  lemma {:induction false} AfterCoinbase(u: Utxos, after: Utxos)
    requires OneCoin(u) && after == ApplyTx(u, PlainCoinbase(9), 2, true)
    ensures after.Keys == {COIN, OutPoint(9, 0)} && after[COIN] == u[COIN] && after[OutPoint(9, 0)].height == 2
  {
    OutputsAre(PlainCoinbase(9), 2, true, 1);
    assert OutPoint(9, 0) in Created(PlainCoinbase(9), 2, true);
  }

  lemma {:induction false} AloneIsBig(script: Script, e: Entry)
    requires |script| > 34 && !IsOpReturn(script) && e == AloneEntry(script)
    ensures !SmallOutputs(e.tx) && SmallOutputs(PlainCoinbase(3)) && Prevouts(e.tx) == {COIN}
  {
    assert e.tx.outputs[0].script == script;
    AloneInputs(e, script);
  }

  /** A pool that admitted a transaction before BIP 110 was active, at a tip that knew no later block, then a block, and
      then the block on the template under rule 1: rejected, although it spends no coinbase coin. Any output script that
      the rule forbids will do. */
  lemma {:induction false} StricterSpoils(script: Script)
    returns (cost: Measure, states: seq<State>, events: seq<Event>, ctx: Context)
    requires |script| > 34 && !IsOpReturn(script)
    ensures IsHistory(FreeRules(), cost, 100, states, events) && |events| == 2
    ensures events[0].Admit? && events[0].ctx == FreePool(1) && events[1].Connect?
    ensures var s, coinbase, tx := states[2], PlainCoinbase(3), AloneEntry(script).tx;
            && Mines(FreeRules(), ctx, s, map[COIN := 2], 4, 1, [2], coinbase, [coinbase, tx])
            && FitTogether(ctx, s.u, s.txs, [2], coinbase) && !BlockAccepted(ctx, s.u, [coinbase, tx])
            && SpendsMature(ctx, s.u, tx) && SmallOutputs(coinbase) && !SmallOutputs(tx)
  {
    var u: Utxos := map[COIN := Coin(5, [0x51], 1, false)];
    var e, after := AloneEntry(script), ApplyTx(u, PlainCoinbase(9), 2, true);
    cost, ctx := Cost(10, 10), BlockAt(3, (tx: Tx) => SmallOutputs(tx));
    states, events := AloneThenBlock(u, e, script, cost, after);
    AfterCoinbase(u, after);
    BlockAgrees(after, 3, ctx.allowed);
    AloneIsBig(script, e);
    AloneSpoils(FreeRules(), cost, states, events, 2, ctx, e, script);
  }
}
