/** Admitting a transaction to the pool: its inputs, what it replaces, and the room made for it. */
module MempoolAdmission {
  import opened Options
  import opened Sums
  import opened Transactions
  import opened TimeLocks
  import opened Ledger
  import opened Reachability
  import opened MempoolGraph
  import opened MempoolWalks
  import BlockValidation

  // ----- Inputs

  /** BIP 125: some input opts in to replacement. */
  predicate SignalsRbf(tx: Tx)
  {
    exists i :: 0 <= i < |tx.inputs| && tx.inputs[i].sequence < 0xffff_fffe
  }

  /** The output an input spends: a coin of the chain, or an output of an entry, which counts as confirming next. */
  function PrevCoin(u: Utxos, txs: Pool, nextHeight: nat, op: OutPoint): Option<Coin>
  {
    if op in u then Some(u[op])
    else if op.txid in txs && op.vout < |txs[op.txid].tx.outputs| then
      var out := txs[op.txid].tx.outputs[op.vout];
      Some(Coin(out.value, out.script, nextHeight, false))
    else None
  }

  /** Every input exists, and whatever already spends it may be replaced. */
  predicate Usable(u: Utxos, txs: Pool, spent: Index, nextHeight: nat, op: OutPoint)
  {
    && (op in spent ==> spent[op] in txs && SignalsRbf(txs[spent[op]].tx))
    && PrevCoin(u, txs, nextHeight, op).Some?
  }

  predicate AllUsable(u: Utxos, txs: Pool, spent: Index, nextHeight: nat, inputs: seq<TxIn>)
  {
    |inputs| == 0 ||
    (AllUsable(u, txs, spent, nextHeight, inputs[..|inputs| - 1]) &&
     Usable(u, txs, spent, nextHeight, inputs[|inputs| - 1].prev))
  }

  function PrevCoins(u: Utxos, txs: Pool, nextHeight: nat, inputs: seq<TxIn>): seq<Coin>
  {
    if |inputs| == 0 then []
    else
      PrevCoins(u, txs, nextHeight, inputs[..|inputs| - 1]) +
      match PrevCoin(u, txs, nextHeight, inputs[|inputs| - 1].prev) case Some(c) => [c] case None => []
  }

  /** Their value. */
  function PrevValue(u: Utxos, txs: Pool, nextHeight: nat, inputs: seq<TxIn>): nat
  {
    if |inputs| == 0 then 0
    else
      PrevValue(u, txs, nextHeight, inputs[..|inputs| - 1]) +
      match PrevCoin(u, txs, nextHeight, inputs[|inputs| - 1].prev) case Some(c) => c.amount case None => 0
  }

  /** The entries that spend one of these inputs, looked up in the index. */
  function Indexed(spent: Index, inputs: seq<TxIn>): set<Txid>
  {
    if |inputs| == 0 then {}
    else
      var op := inputs[|inputs| - 1].prev;
      Indexed(spent, inputs[..|inputs| - 1]) + if op in spent then {spent[op]} else {}
  }

  lemma {:induction false} IndexedAre(txs: Pool, spent: Index, inputs: seq<TxIn>)
    requires Inverse(txs, spent)
    ensures Indexed(spent, inputs) == Conflicts(txs, PrevoutSet(inputs))
  {
    if |inputs| > 0 {
      var front, op := inputs[..|inputs| - 1], inputs[|inputs| - 1].prev;
      IndexedAre(txs, spent, front);
      forall c | c in Conflicts(txs, PrevoutSet(inputs))
        ensures c in Indexed(spent, inputs)
      {
        assert EntryIndexed(spent, c, txs[c]);
      }
      if op in spent {
        assert IsSpender(txs, spent[op], op);
      }
    }
  }

  lemma {:induction false} NotAllUsable(u: Utxos, txs: Pool, spent: Index, nextHeight: nat, inputs: seq<TxIn>, i: nat)
    requires i < |inputs| && !Usable(u, txs, spent, nextHeight, inputs[i].prev)
    ensures !AllUsable(u, txs, spent, nextHeight, inputs)
  {
    if i < |inputs| - 1 {
      NotAllUsable(u, txs, spent, nextHeight, inputs[..|inputs| - 1], i);
    }
  }

  lemma {:induction false} UsableAt(u: Utxos, txs: Pool, spent: Index, nextHeight: nat, inputs: seq<TxIn>, op: OutPoint)
    requires AllUsable(u, txs, spent, nextHeight, inputs) && op in PrevoutSet(inputs)
    ensures Usable(u, txs, spent, nextHeight, op)
  {
    if op != inputs[|inputs| - 1].prev {
      UsableAt(u, txs, spent, nextHeight, inputs[..|inputs| - 1], op);
    }
  }

  /** What the scan has gathered from the inputs `done`. */
  datatype Scan = Scan(conflicts: seq<Txid>, coins: seq<Coin>, sum: nat)

  ghost predicate Scanned(u: Utxos, txs: Pool, spent: Index, nextHeight: nat, done: seq<TxIn>, s: Scan)
  {
    && AllUsable(u, txs, spent, nextHeight, done)
    && Members(s.conflicts) == Indexed(spent, done)
    && s.coins == PrevCoins(u, txs, nextHeight, done) && |s.coins| == |done|
    && s.sum == PrevValue(u, txs, nextHeight, done)
  }

  method ScanInput(u: Utxos, txs: Pool, spent: Index, nextHeight: nat, ghost done: seq<TxIn>, op: OutPoint, s: Scan)
    returns (ok: bool, s': Scan)
    requires |done| > 0 && op == done[|done| - 1].prev
    requires Scanned(u, txs, spent, nextHeight, done[..|done| - 1], s)
    ensures ok == Usable(u, txs, spent, nextHeight, op)
    ensures ok ==> Scanned(u, txs, spent, nextHeight, done, s')
  {
    var conflicts := s.conflicts;
    if op in spent {
      var other := spent[op];
      if other !in txs || !SignalsRbf(txs[other].tx) {
        return false, s;
      }
      if other !in conflicts {
        MembersConcat(conflicts, [other]);
        conflicts := conflicts + [other];
      }
    }
    var coin := PrevCoin(u, txs, nextHeight, op);
    if coin.None? {
      return false, s;
    }
    return true, Scan(conflicts, s.coins + [coin.value], s.sum + coin.value.amount);
  }

  /** Look every input up in the chain and in the pool, and collect the entries that already spend one. */
  method ScanInputs(u: Utxos, txs: Pool, spent: Index, nextHeight: nat, inputs: seq<TxIn>) returns (ok: bool, s: Scan)
    ensures ok == AllUsable(u, txs, spent, nextHeight, inputs)
    ensures ok ==> Scanned(u, txs, spent, nextHeight, inputs, s)
  {
    s := Scan([], [], 0);
    ghost var done := [];
    ScanNothing(u, txs, spent, nextHeight);
    var i := 0;
    while i < |inputs|
      invariant 0 <= i <= |inputs| && done == inputs[..i]
      invariant Scanned(u, txs, spent, nextHeight, done, s)
    {
      done := inputs[..i + 1];
      assert done[..i] == inputs[..i];
      ok, s := ScanInput(u, txs, spent, nextHeight, done, inputs[i].prev, s);
      if !ok {
        NotAllUsable(u, txs, spent, nextHeight, inputs, i);
        return;
      }
      i := i + 1;
    }
    assert done == inputs;
    ok := true;
  }

  lemma {:induction false} ScanNothing(u: Utxos, txs: Pool, spent: Index, nextHeight: nat)
    ensures Scanned(u, txs, spent, nextHeight, [], Scan([], [], 0))
  {}

  // ----- Fees of what is replaced

  /** The sum of a measure over listed entries is what the pool loses with them. */
  method AddUp(txs: Pool, q: Measure, ids: seq<Txid>) returns (sum: nat)
    requires NoDup(ids) && Members(ids) <= txs.Keys
    ensures sum + Weight(q, txs - Members(ids)) == Weight(q, txs)
  {
    sum := 0;
    var i := 0;
    assert Members(ids[..0]) == {} && txs - {} == txs;
    while i < |ids|
      invariant 0 <= i <= |ids| && NoDup(ids[..i])
      invariant sum + Weight(q, txs - Members(ids[..i])) == Weight(q, txs)
    {
      NoDupAt(ids, i);
      WeightWithoutOneMore(q, txs, Members(ids[..i]), ids[i]);
      sum := sum + Weigh(q, txs[ids[i]]);
      i := i + 1;
    }
    assert ids[..i] == ids;
  }

  /** The highest fee rate among listed entries, or zero. */
  method TopRate(txs: Pool, ids: seq<Txid>) returns (top: real)
    requires Members(ids) <= txs.Keys
    ensures forall id :: id in Members(ids) ==> txs[id].rate <= top
    ensures top == 0.0 || exists id :: id in Members(ids) && txs[id].rate == top
  {
    top := 0.0;
    var i := 0;
    while i < |ids|
      invariant 0 <= i <= |ids|
      invariant forall j :: 0 <= j < i ==> txs[ids[j]].rate <= top
      invariant top == 0.0 || exists id :: id in Members(ids) && txs[id].rate == top
    {
      if txs[ids[i]].rate > top {
        top := txs[ids[i]].rate;
        assert ids[i] in Members(ids);
      }
      i := i + 1;
    }
  }

  // ----- Package limits

  /** One more descendant fits every ancestor. */
  ghost predicate RoomBelow(txs: Pool, ancestors: set<Txid>)
  {
    forall a :: a in ancestors ==> Count(Descendants(txs, a)) + 1 <= MAX_DESCENDANTS
  }

  method CheckPackage(txs: Pool, spent: Index, inputs: seq<TxIn>) returns (ok: bool, ancestors: set<Txid>)
    requires Inverse(txs, spent)
    ensures ancestors == AncestorsOf(txs, inputs)
    ensures ok <==> Count(ancestors) <= MAX_ANCESTORS && RoomBelow(txs, ancestors)
  {
    ancestors := InMempoolAncestors(txs, inputs);
    CountIsSize(ancestors);
    if |ancestors| > MAX_ANCESTORS {
      return false, ancestors;
    }
    ok := CheckBelow(txs, spent, ancestors);
  }

  method CheckBelow(txs: Pool, spent: Index, ancestors: set<Txid>) returns (ok: bool)
    requires Inverse(txs, spent) && ancestors <= txs.Keys
    ensures ok <==> RoomBelow(txs, ancestors)
  {
    var left := ancestors;
    while left != {}
      invariant left <= ancestors && RoomBelow(txs, ancestors - left)
      decreases left
    {
      var a :| a in left;
      var below := CountDescendants(txs, spent, a);
      if below + 1 > MAX_DESCENDANTS {
        return false;
      }
      left := left - {a};
    }
    assert ancestors - left == ancestors;
    return true;
  }

  // ----- Room in the budget

  /** The cheapest entry not slated for removal yet. */
  method Cheapest(txs: Pool, slated: set<Txid>) returns (r: Option<Txid>)
    ensures r.None? <==> txs.Keys <= slated
    ensures r.Some? ==> r.value in txs && r.value !in slated
    ensures r.Some? ==> forall id :: id in txs && id !in slated ==> txs[r.value].rate <= txs[id].rate
  {
    var left := txs.Keys - slated;
    r := None;
    while left != {}
      invariant left <= txs.Keys - slated
      invariant r.None? ==> left == txs.Keys - slated
      invariant r.Some? ==> r.value in txs && r.value !in slated
      invariant r.Some? ==> forall id :: id in txs && id !in slated && id !in left ==> txs[r.value].rate <= txs[id].rate
      decreases left
    {
      var id :| id in left;
      if r.None? || txs[id].rate < txs[r.value].rate {
        r := Some(id);
      }
      left := left - {id};
    }
    assert r.None? ==> forall id :: id in txs ==> id !in txs.Keys - slated;
  }

  /** A removed entry hangs on one that pays less and is no ancestor. */
  ghost predicate Outbid(txs: Pool, rate: real, ancestors: set<Txid>, id: Txid)
  {
    exists r :: r in txs && r !in ancestors && txs[r].rate < rate && From(Down(txs), {r}, id)
  }

  ghost predicate AllOutbid(txs: Pool, rate: real, ancestors: set<Txid>, ids: set<Txid>)
  {
    forall id {:trigger Outbid(txs, rate, ancestors, id)} :: id in ids ==> Outbid(txs, rate, ancestors, id)
  }

  const INCREMENTAL_RELAY_FEE_RATE: real := 1.0

  function Max(a: real, b: real): real
  {
    if a < b then b else a
  }

  /** What has been slated for removal so far: the replaced entries and the ones trimmed for the budget. */
  datatype Plan = Plan(trimmed: seq<Txid>, slated: set<Txid>, freed: nat, floor: real)

  ghost predicate Planned(txs: Pool, cost: Measure, rate: real, ancestors: set<Txid>, evicted: set<Txid>, p: Plan)
  {
    && evicted <= p.slated <= txs.Keys && ClosedDown(txs, p.slated)
    && p.freed + Weight(cost, txs - p.slated) == Weight(cost, txs)
    && Members(p.trimmed) == p.slated - evicted
    && AllOutbid(txs, rate, ancestors, p.slated - evicted)
  }

  lemma {:induction false} PlanMore(txs: Pool, cost: Measure, rate: real, ancestors: set<Txid>, evicted: set<Txid>,
                                    p: Plan, victim: Txid, order: seq<Txid>, all: set<Txid>, freed: nat, floor: real)
    requires Planned(txs, cost, rate, ancestors, evicted, p)
    requires victim in txs && victim !in ancestors && txs[victim].rate < rate
    requires IsClosure(Down(txs), p.slated + {victim}, all) && ClosedDown(txs, all)
    requires Members(order) == all - p.slated && p.slated <= all <= txs.Keys
    requires freed + Weight(cost, txs - all) == Weight(cost, txs - p.slated)
    ensures Planned(txs, cost, rate, ancestors, evicted, Plan(p.trimmed + order, all, p.freed + freed, floor))
  {
    MembersConcat(p.trimmed, order);
    forall id | id in all - evicted
      ensures Outbid(txs, rate, ancestors, id)
    {
      if id !in p.slated {
        assert From(Down(txs), p.slated + {victim}, id);
        NewlySlated(txs, p.slated, victim, id);
      }
    }
  }

  lemma {:induction false} NewlySlated(txs: Pool, slated: set<Txid>, victim: Txid, id: Txid)
    requires ClosedDown(txs, slated) && id !in slated && From(Down(txs), slated + {victim}, id)
    ensures From(Down(txs), {victim}, id)
  {
    if id != victim {
      var r :| r in slated + {victim} && Reaches(Down(txs), r, id);
      if r in slated {
        ClosedReaches(Down(txs), slated, r, id);
      }
    }
  }

  /** The cheapest of the entries not slated yet. */
  ghost predicate IsCheapest(txs: Pool, slated: set<Txid>, victim: Txid)
  {
    victim in txs && victim !in slated && forall id :: id in txs && id !in slated ==> txs[victim].rate <= txs[id].rate
  }

  ghost predicate OverBudget(txs: Pool, cost: Measure, newCost: nat, maxBytes: nat, p: Plan)
  {
    Weight(cost, txs - p.slated) + newCost > maxBytes
  }

  /** One more victim, with its descendants: the cheapest entry left, because there is still no room. */
  ghost predicate TrimStep(txs: Pool, victim: Txid, p: Plan, q: Plan)
  {
    && IsCheapest(txs, p.slated, victim)
    && q.slated == p.slated + Tree(txs, {victim})
    && q.floor == Max(p.floor, txs[victim].rate + INCREMENTAL_RELAY_FEE_RATE)
  }

  ghost predicate Trims(txs: Pool, cost: Measure, newCost: nat, maxBytes: nat, p: Plan, q: Plan)
  {
    OverBudget(txs, cost, newCost, maxBytes, p) && exists victim :: TrimStep(txs, victim, p, q)
  }

  /** The plans made one after the other, from the replaced entries on. */
  ghost predicate TrimRun(txs: Pool, cost: Measure, newCost: nat, maxBytes: nat, evicted: set<Txid>, floor: real,
                          plans: seq<Plan>)
  {
    && |plans| > 0 && plans[0].slated == evicted && plans[0].floor == floor
    && forall i :: 0 < i < |plans| ==> Trims(txs, cost, newCost, maxBytes, plans[i - 1], plans[i])
  }

  lemma {:induction false} TrimMore(txs: Pool, cost: Measure, newCost: nat, maxBytes: nat, evicted: set<Txid>,
                                    floor: real, plans: seq<Plan>, p: Plan)
    requires TrimRun(txs, cost, newCost, maxBytes, evicted, floor, plans)
    requires Trims(txs, cost, newCost, maxBytes, plans[|plans| - 1], p)
    ensures TrimRun(txs, cost, newCost, maxBytes, evicted, floor, plans + [p])
  {
    var more := plans + [p];
    forall i | 0 < i < |more|
      ensures Trims(txs, cost, newCost, maxBytes, more[i - 1], more[i])
    {
      if i < |plans| {
        assert more[i - 1] == plans[i - 1] && more[i] == plans[i];
      }
    }
  }

  /** No further victim: nothing is left, or the cheapest entry left pays as much as the new one or is its ancestor. */
  ghost predicate Stuck(txs: Pool, rate: real, ancestors: set<Txid>, slated: set<Txid>)
  {
    txs.Keys <= slated || exists victim :: StuckAt(txs, rate, ancestors, slated, victim)
  }

  ghost predicate StuckAt(txs: Pool, rate: real, ancestors: set<Txid>, slated: set<Txid>, victim: Txid)
  {
    IsCheapest(txs, slated, victim) && (rate <= txs[victim].rate || victim in ancestors)
  }

  /** Slate the cheapest entries, with their descendants, until the new entry fits; give up when there is no further
      victim. */
  method MakeRoom(txs: Pool, spent: Index, cost: Measure, usage: nat, newCost: nat, maxBytes: nat, rate: real,
                  ancestors: set<Txid>, evicted: set<Txid>, freed: nat, floor: real)
    returns (ok: bool, p: Plan, ghost plans: seq<Plan>)
    requires Inverse(txs, spent) && usage == Weight(cost, txs) && evicted <= txs.Keys && ClosedDown(txs, evicted)
    requires freed + Weight(cost, txs - evicted) == Weight(cost, txs)
    ensures Planned(txs, cost, rate, ancestors, evicted, p)
    ensures TrimRun(txs, cost, newCost, maxBytes, evicted, floor, plans) && p == plans[|plans| - 1]
    ensures ok <==> !OverBudget(txs, cost, newCost, maxBytes, p)
    ensures !ok ==> Stuck(txs, rate, ancestors, p.slated)
    ensures floor <= p.floor && (p.trimmed == [] ==> p.floor == floor)
  {
    p := Plan([], evicted, freed, floor);
    plans := [p];
    while usage + newCost > maxBytes + p.freed
      invariant Planned(txs, cost, rate, ancestors, evicted, p)
      invariant TrimRun(txs, cost, newCost, maxBytes, evicted, floor, plans) && p == plans[|plans| - 1]
      invariant floor <= p.floor && (p.trimmed == [] ==> p.floor == floor)
      decreases txs.Keys - p.slated
    {
      var victim := Cheapest(txs, p.slated);
      if victim.None? {
        return false, p, plans;
      }
      if rate <= txs[victim.value].rate || victim.value in ancestors {
        assert StuckAt(txs, rate, ancestors, p.slated, victim.value);
        return false, p, plans;
      }
      ghost var before := p;
      p := Trim(txs, spent, cost, rate, ancestors, evicted, p, victim.value);
      assert TrimStep(txs, victim.value, before, p);
      TrimMore(txs, cost, newCost, maxBytes, evicted, floor, plans, p);
      plans := plans + [p];
    }
    ok := true;
  }

  method Trim(txs: Pool, spent: Index, cost: Measure, ghost rate: real, ghost ancestors: set<Txid>,
              ghost evicted: set<Txid>, p: Plan, victim: Txid)
    returns (p': Plan)
    requires Inverse(txs, spent) && Planned(txs, cost, rate, ancestors, evicted, p)
    requires IsCheapest(txs, p.slated, victim) && victim !in ancestors && txs[victim].rate < rate
    ensures Planned(txs, cost, rate, ancestors, evicted, p') && TrimStep(txs, victim, p, p')
    ensures p.floor <= p'.floor && |p'.trimmed| > 0 && p.slated < p'.slated
  {
    assert Members([victim]) == {victim};
    var order, all, freed := CollectDescendants(txs, spent, cost, [victim], p.slated);
    var floor := Max(p.floor, txs[victim].rate + INCREMENTAL_RELAY_FEE_RATE);
    assert From(Down(txs), p.slated + {victim}, victim);
    SlatedGrows(txs, p.slated, victim, all);
    PlanMore(txs, cost, rate, ancestors, evicted, p, victim, order, all, freed, floor);
    SlatedTree(txs, p.slated, victim, all);
    assert victim in Members(order);
    p' := Plan(p.trimmed + order, all, p.freed + freed, floor);
  }

  /** Slating a victim on top of a closed set adds its tree. */
  lemma {:induction false} SlatedTree(txs: Pool, slated: set<Txid>, victim: Txid, all: set<Txid>)
    requires ClosedDown(txs, slated) && slated <= txs.Keys && victim in txs && all <= txs.Keys
    requires IsClosure(Down(txs), slated + {victim}, all)
    ensures all == slated + Tree(txs, {victim})
  {
    var roots, tree := slated + {victim}, Tree(txs, {victim});
    assert {victim} * txs.Keys == {victim};
    forall id | id in all
      ensures id in slated || id in tree
    {
      assert From(Down(txs), roots, id);
      if id !in slated {
        NewlySlated(txs, slated, victim, id);
      }
    }
    forall id | id in slated + tree
      ensures id in all
    {
      assert From(Down(txs), roots, id) by {
        if id !in slated {
          FromMore(Down(txs), {victim}, roots, id);
        }
      }
    }
  }

  lemma {:induction false} SlatedGrows(txs: Pool, slated: set<Txid>, victim: Txid, all: set<Txid>)
    requires IsClosure(Down(txs), slated + {victim}, all) && victim !in slated
    ensures slated < all && victim in all
  {
    forall id | id in slated + {victim}
      ensures id in all
    {
      assert From(Down(txs), slated + {victim}, id);
    }
  }

  // ----- Inserting the new entry

  /** Nothing in the pool or among the coins comes from a transaction yet. */
  ghost predicate Unknown(u: Utxos, txs: Pool, id: Txid)
  {
    id !in txs && forall op :: op in u ==> op.txid != id
  }

  lemma {:induction false} InsertGrounded(u: Utxos, txs: Pool, id: Txid, e: Entry)
    requires Grounded(u, txs) && Unknown(u, txs, id) && EntryBacked(u, txs, e)
    ensures Grounded(u, txs[id := e])
  {
    var more := txs[id := e];
    forall c | c in more
      ensures EntryBacked(u, more, more[c])
    {
      assert EntryBacked(u, txs, more[c]);
    }
  }

  /** Nothing spends from a transaction that is not known yet. */
  lemma {:induction false} NobodySpends(u: Utxos, txs: Pool, id: Txid, e: Entry)
    requires Unknown(u, txs, id) && EntryBacked(u, txs, e)
    ensures id !in ParentIds(e.tx.inputs) && forall n: nat :: !SpendsFrom(id, n, e.tx)
  {
    ParentIdsAre(e.tx.inputs);
  }

  lemma {:induction false} InsertSink(u: Utxos, txs: Pool, id: Txid, e: Entry)
    requires Grounded(u, txs) && Unknown(u, txs, id) && EntryBacked(u, txs, e)
    ensures SinkAdded(Down(txs), Down(txs[id := e]), id)
  {
    var more := txs[id := e];
    forall c | c in more
      ensures forall n: nat :: !SpendsFrom(id, n, more[c].tx)
    {
      assert EntryBacked(u, txs, more[c]);
      NobodySpends(u, txs, id, more[c]);
    }
    assert ChildrenIn(more, id) == {};
    forall x
      ensures Next(Down(more), x) <= Next(Down(txs), x) + {id}
    {}
  }

  lemma {:induction false} InsertSource(u: Utxos, txs: Pool, id: Txid, e: Entry)
    requires Grounded(u, txs) && Unknown(u, txs, id) && EntryBacked(u, txs, e)
    ensures SourceAdded(Up(txs), Up(txs[id := e]), id)
  {
    var more := txs[id := e];
    forall x
      ensures id !in Next(Up(more), x) && (x != id ==> Next(Up(more), x) <= Next(Up(txs), x))
    {
      if x in more {
        assert EntryBacked(u, txs, more[x]);
        NobodySpends(u, txs, id, more[x]);
      }
    }
  }

  /** The new entry changes nobody's ancestors. */
  lemma {:induction false} InsertAncestors(u: Utxos, txs: Pool, id: Txid, e: Entry, inputs: seq<TxIn>)
    requires Grounded(u, txs) && Unknown(u, txs, id) && EntryBacked(u, txs, e) && id !in ParentIds(inputs)
    ensures AncestorsOf(txs[id := e], inputs) <= AncestorsOf(txs, inputs)
  {
    var more := txs[id := e];
    InsertSource(u, txs, id, e);
    forall a | a in AncestorsOf(more, inputs)
      ensures a in AncestorsOf(txs, inputs)
    {
      FromOthers(Up(txs), Up(more), id, ParentIds(inputs), a);
      NotSource(u, txs, id, e, inputs, a);
    }
  }

  lemma {:induction false} NotSource(u: Utxos, txs: Pool, id: Txid, e: Entry, inputs: seq<TxIn>, a: Txid)
    requires Grounded(u, txs) && Unknown(u, txs, id) && EntryBacked(u, txs, e) && id !in ParentIds(inputs)
    requires From(Up(txs), ParentIds(inputs), a)
    ensures a != id
  {
    if a == id {
      var r :| r in ParentIds(inputs) && Reaches(Up(txs), r, a);
      var n: nat :| Within(Up(txs), r, a, n);
      NeverReached(u, txs, id, r, n);
    }
  }

  lemma {:induction false} NeverReached(u: Utxos, txs: Pool, id: Txid, x: Txid, n: nat)
    requires Grounded(u, txs) && Unknown(u, txs, id)
    ensures !Within(Up(txs), x, id, n)
    decreases n
  {
    if Within(Up(txs), x, id, n) {
      if id in Next(Up(txs), x) {
        assert EntryBacked(u, txs, txs[x]);
        NobodySpends(u, txs, id, txs[x]);
      } else {
        var m :| m in Next(Up(txs), x) && Within(Up(txs), m, id, n - 1);
        NeverReached(u, txs, id, m, n - 1);
      }
    }
  }

  /** The only new descendant is the new entry, and only of its ancestors. */
  lemma {:induction false} InsertDescendants(u: Utxos, txs: Pool, id: Txid, e: Entry, a: Txid)
    requires Grounded(u, txs) && Unknown(u, txs, id) && EntryBacked(u, txs, e) && a in txs
    ensures Descendants(txs[id := e], a) <= Descendants(txs, a) + {id}
    ensures id in Descendants(txs[id := e], a) ==> a in AncestorsOf(txs, e.tx.inputs)
  {
    var more := txs[id := e];
    InsertSink(u, txs, id, e);
    forall d | d in Descendants(more, a) && d != id
      ensures d in Descendants(txs, a)
    {
      ReachesBeforeSink(Down(txs), Down(more), id, a, d);
    }
    if id in Descendants(more, a) {
      var p := ReachesSink(Down(txs), Down(more), id, a);
      NewParent(u, txs, id, e, p);
      AncestorsAreDual(u, txs, e.tx.inputs, a);
    }
  }

  lemma {:induction false} NewParent(u: Utxos, txs: Pool, id: Txid, e: Entry, p: Txid)
    requires Grounded(u, txs) && Unknown(u, txs, id) && EntryBacked(u, txs, e) && id in Next(Down(txs[id := e]), p)
    ensures p in ParentIds(e.tx.inputs)
  {
    var more := txs[id := e];
    var v :| 0 <= v < |more[p].tx.outputs| && OutPoint(p, v) in Prevouts(e.tx);
    ParentIdsAre(e.tx.inputs);
  }

  lemma {:induction false} NewHasNoDescendants(u: Utxos, txs: Pool, id: Txid, e: Entry)
    requires Grounded(u, txs) && Unknown(u, txs, id) && EntryBacked(u, txs, e)
    ensures Descendants(txs[id := e], id) == {}
  {
    var more := txs[id := e];
    InsertSink(u, txs, id, e);
    forall d | d in more
      ensures !IsDescendant(more, id, d)
    {
      SinkReachesNothing(Down(more), id, d);
    }
  }

  /** Admission keeps the package limits. */
  lemma {:induction false} InsertLimited(u: Utxos, txs: Pool, id: Txid, e: Entry)
    requires Grounded(u, txs) && Unknown(u, txs, id) && EntryBacked(u, txs, e) && Limited(txs)
    requires Count(AncestorsOf(txs, e.tx.inputs)) <= MAX_ANCESTORS && RoomBelow(txs, AncestorsOf(txs, e.tx.inputs))
    ensures Limited(txs[id := e])
  {
    var more := txs[id := e];
    forall c
      ensures WithinLimits(more, c)
    {
      if c in more {
        assert EntryBacked(u, txs, more[c]);
        NobodySpends(u, txs, id, more[c]);
        InsertAncestors(u, txs, id, e, more[c].tx.inputs);
        CountSubset(AncestorsOf(more, more[c].tx.inputs), AncestorsOf(txs, more[c].tx.inputs));
        assert WithinLimits(txs, c);
        if c == id {
          NewHasNoDescendants(u, txs, id, e);
        } else {
          InsertDescendants(u, txs, id, e, c);
          OneMoreDescendant(txs, more, id, c, AncestorsOf(txs, e.tx.inputs));
        }
      }
    }
  }

  lemma {:induction false} OneMoreDescendant(txs: Pool, more: Pool, id: Txid, c: Txid, ancestors: set<Txid>)
    requires Descendants(more, c) <= Descendants(txs, c) + {id} && id !in txs
    requires id in Descendants(more, c) ==> c in ancestors
    requires RoomBelow(txs, ancestors) && Count(Descendants(txs, c)) <= MAX_DESCENDANTS
    ensures Count(Descendants(more, c)) <= MAX_DESCENDANTS
  {
    if id in Descendants(more, c) {
      CountWith(Descendants(txs, c), id);
      CountSubset(Descendants(more, c), Descendants(txs, c) + {id});
    } else {
      CountSubset(Descendants(more, c), Descendants(txs, c));
    }
  }

  // ----- The checks on a candidate

  const MIN_RELAY_FEE_RATE: real := 1.0
  const MAX_RBF_REPLACEMENTS: nat := 100

  /** What admission depends on beyond pool and coins: the tip, the deployment flags, the clock, and the checks on
      relay policy and scripts, which are arbitrary here. */
  datatype PoolContext = PoolContext(
    tipHeight: nat, tipMtp: nat, csv: bool, timeAt: nat -> Option<nat>, now: nat, floor: real,
    policy: Tx -> bool, scripts: (Tx, seq<Coin>) -> bool)

  /** Scripts never allow spending an OP_RETURN output. */
  ghost predicate RejectsOpReturn(ctx: PoolContext)
  {
    forall tx: Tx, coins: seq<Coin> :: ctx.scripts(tx, coins) ==> NoOpReturn(coins)
  }

  /** The time a relative lock counts from: an unconfirmed parent would confirm on top of the tip. */
  function TimeReference(ctx: PoolContext): nat -> Option<nat>
  {
    (h: nat) => if h > ctx.tipHeight then Some(ctx.tipMtp) else ctx.timeAt(h)
  }

  /** The entry's lock point stands for its relative locks at any later height and time. */
  ghost predicate IsLockPointOf(tx: Tx, heights: seq<nat>, times: seq<nat>, lockHeight: nat, lockTime: nat)
  {
    forall h: nat, t: nat :: LocksOpen(tx, heights, times, h, t) <==> lockHeight <= h && lockTime <= t
  }

  /** Relative locks are open in the next block; a time reference that cannot be found keeps them shut. */
  predicate PoolLocksOpen(ctx: PoolContext, tx: Tx, coins: seq<Coin>)
  {
    if !ctx.csv then true
    else if !NeedsTimes(tx) then LocksOpen(tx, Heights(coins), [], ctx.tipHeight + 1, ctx.tipMtp)
    else
      match Times(TimeReference(ctx), coins)
      case None => false
      case Some(times) => LocksOpen(tx, Heights(coins), times, ctx.tipHeight + 1, ctx.tipMtp)
  }

  method CheckLocks(ctx: PoolContext, tx: Tx, coins: seq<Coin>)
    returns (ok: bool, lockHeight: nat, lockTime: nat, ghost times: seq<nat>)
    ensures ok <==> PoolLocksOpen(ctx, tx, coins)
    ensures ok ==> IsLockPointOf(tx, Heights(coins), times, lockHeight, lockTime)
    ensures ok && ctx.csv ==> lockHeight <= ctx.tipHeight + 1 && lockTime <= ctx.tipMtp
    ensures ctx.csv && NeedsTimes(tx) ==> (ok ==> Times(TimeReference(ctx), coins) == Some(times))
  {
    var heights := BlockValidation.LookUpHeights(coins);
    var references: Option<seq<nat>> := Some([]);
    lockHeight, lockTime, times := 0, 0, [];
    if ctx.csv {
      if NeedsTimes(tx) {
        references := BlockValidation.LookUpTimes(TimeReference(ctx), coins);
        if references.None? {
          return false, lockHeight, lockTime, times;
        }
      }
      ok := ValidateSequenceLocks(tx, heights, references.value, ctx.tipHeight + 1, ctx.tipMtp);
      if !ok {
        return;
      }
    }
    times := references.value;
    lockHeight, lockTime := SequenceLockPoints(tx, heights, references.value);
    ok := true;
  }

  /** The checks that need neither the inputs nor the pool. */
  method CheckAlone(ctx: PoolContext, tx: Tx) returns (ok: bool)
    ensures ok <==> !IsCoinbase(tx) && WellFormed(tx) && ctx.policy(tx) && IsFinalTx(tx, ctx.tipHeight + 1, ctx.tipMtp)
  {
    if IsCoinbase(tx) {
      return false;
    }
    ok := CheckTransaction(tx);
    ok := ok && ctx.policy(tx) && IsFinalTx(tx, ctx.tipHeight + 1, ctx.tipMtp);
  }

  /** What a transaction replaces: the entries it conflicts with and their descendants, never one it spends from. */
  ghost predicate Replaces(txs: Pool, tx: Tx, evicted: set<Txid>)
  {
    && evicted == Tree(txs, Conflicts(txs, Prevouts(tx))) && ParentIds(tx.inputs) !! evicted
    && Count(evicted) <= MAX_RBF_REPLACEMENTS
  }

  predicate SpendsAny(inputs: seq<TxIn>, ids: set<Txid>)
  {
    exists i :: 0 <= i < |inputs| && inputs[i].prev.txid in ids
  }

  lemma {:induction false} SpendsNone(inputs: seq<TxIn>, ids: set<Txid>)
    requires !SpendsAny(inputs, ids)
    ensures ParentIds(inputs) !! ids
  {
    if |inputs| > 0 {
      var front := inputs[..|inputs| - 1];
      forall i | 0 <= i < |front|
        ensures front[i].prev.txid !in ids
      {
        assert front[i] == inputs[i];
      }
      SpendsNone(front, ids);
    }
  }

  lemma {:induction false} SpendsSome(inputs: seq<TxIn>, ids: set<Txid>)
    requires SpendsAny(inputs, ids)
    ensures !(ParentIds(inputs) !! ids)
  {
    var i :| 0 <= i < |inputs| && inputs[i].prev.txid in ids;
    PrevoutsAre(inputs);
    ParentIdsAre(inputs);
    assert inputs[i].prev in PrevoutSet(inputs);
  }

  /** The entries to evict for a replacement. */
  method PlanReplacement(txs: Pool, spent: Index, cost: Measure, tx: Tx, conflicts: seq<Txid>)
    returns (ok: bool, evict: seq<Txid>, evicted: set<Txid>)
    requires Inverse(txs, spent) && Members(conflicts) == Indexed(spent, tx.inputs)
    ensures evicted == Tree(txs, Conflicts(txs, Prevouts(tx))) && (ok <==> Replaces(txs, tx, evicted))
    ensures ClosedDown(txs, evicted) && evicted <= txs.Keys && Members(evict) == evicted && NoDup(evict)
  {
    IndexedAre(txs, spent, tx.inputs);
    var freed;
    evict, evicted, freed := CollectDescendants(txs, spent, cost, conflicts, {});
    assert {} + Members(conflicts) == Members(conflicts) && evicted - {} == evicted;
    ClosureIsTree(txs, Members(conflicts), evicted);
    CountNoDup(evict);
    if SpendsAny(tx.inputs, evicted) {
      SpendsSome(tx.inputs, evicted);
      return false, evict, evicted;
    }
    SpendsNone(tx.inputs, evicted);
    ok := |evict| <= MAX_RBF_REPLACEMENTS;
  }

  function VirtualSize(weight: nat): nat
  {
    (weight + 3) / 4
  }

  /** A replacement pays more in total than what it evicts, and a higher rate than each of it. */
  ghost predicate PaysMore(txs: Pool, fee: nat, rate: real, evicted: set<Txid>)
  {
    evicted != {} ==>
      && fee + Weight(Fee, txs - evicted) > Weight(Fee, txs)
      && forall id :: id in evicted && id in txs ==> rate > txs[id].rate
  }

  method CheckFees(ctx: PoolContext, txs: Pool, fee: nat, weight: nat, evict: seq<Txid>) returns (ok: bool, rate: real)
    requires weight > 0 && NoDup(evict) && Members(evict) <= txs.Keys
    ensures rate == fee as real / VirtualSize(weight) as real
    ensures ok <==> rate >= MIN_RELAY_FEE_RATE && rate >= ctx.floor && PaysMore(txs, fee, rate, Members(evict))
  {
    rate := fee as real / VirtualSize(weight) as real;
    if rate < MIN_RELAY_FEE_RATE || rate < ctx.floor {
      return false, rate;
    }
    if |evict| > 0 {
      var total := AddUp(txs, Fee, evict);
      var top := TopRate(txs, evict);
      assert evict[0] in Members(evict);
      assert top != 0.0 ==> exists id :: id in Members(evict) && id in txs && txs[id].rate == top;
      if fee <= total || rate <= top {
        return false, rate;
      }
    }
    ok := true;
  }

  // ----- Why an admitted entry is safe

  ghost predicate NoOpReturn(coins: seq<Coin>)
  {
    forall i :: 0 <= i < |coins| ==> !IsOpReturn(coins[i].script)
  }

  lemma {:induction false} NoOpReturnParts(front: seq<Coin>, last: Coin)
    requires NoOpReturn(front + [last])
    ensures NoOpReturn(front) && !IsOpReturn(last.script)
  {
    var all := front + [last];
    assert all[|front|] == last;
    forall i | 0 <= i < |front|
      ensures !IsOpReturn(front[i].script)
    {
      assert all[i] == front[i];
    }
  }

  lemma {:induction false} CoinScripts(u: Utxos, txs: Pool, spent: Index, nextHeight: nat, inputs: seq<TxIn>,
                                       op: OutPoint)
    requires AllUsable(u, txs, spent, nextHeight, inputs) && op in PrevoutSet(inputs)
    requires NoOpReturn(PrevCoins(u, txs, nextHeight, inputs))
    ensures PrevCoin(u, txs, nextHeight, op).Some? && !IsOpReturn(PrevCoin(u, txs, nextHeight, op).value.script)
  {
    var front, last := inputs[..|inputs| - 1], inputs[|inputs| - 1].prev;
    NoOpReturnParts(PrevCoins(u, txs, nextHeight, front), PrevCoin(u, txs, nextHeight, last).value);
    if op != last {
      CoinScripts(u, txs, spent, nextHeight, front, op);
    }
  }

  /** Usable inputs that pass the script checks are coins or spendable pool outputs. */
  lemma {:induction false} UsableIsBacked(u: Utxos, ctx: PoolContext, txs: Pool, spent: Index, e: Entry)
    requires RejectsOpReturn(ctx) && AllUsable(u, txs, spent, ctx.tipHeight + 1, e.tx.inputs)
    requires ctx.scripts(e.tx, PrevCoins(u, txs, ctx.tipHeight + 1, e.tx.inputs))
    ensures EntryBacked(u, txs, e)
  {
    forall op | op in Prevouts(e.tx)
      ensures op in u || PoolCoin(txs, op)
    {
      UsableAt(u, txs, spent, ctx.tipHeight + 1, e.tx.inputs, op);
      CoinScripts(u, txs, spent, ctx.tipHeight + 1, e.tx.inputs, op);
    }
  }

  /** Neither replacement nor trimming touches a parent of the new entry. */
  lemma {:induction false} ParentStays(u: Utxos, txs: Pool, tx: Tx, rate: real, evicted: set<Txid>, slated: set<Txid>,
                                       p: Txid)
    requires Grounded(u, txs) && Replaces(txs, tx, evicted) && p in ParentIds(tx.inputs) && p in txs
    requires AllOutbid(txs, rate, AncestorsOf(txs, tx.inputs), slated - evicted)
    ensures p !in slated
  {
    if p in slated {
      assert Outbid(txs, rate, AncestorsOf(txs, tx.inputs), p);
      var r :| r in txs && r !in AncestorsOf(txs, tx.inputs) && txs[r].rate < rate && From(Down(txs), {r}, p);
      AncestorsAreDual(u, txs, tx.inputs, r);
    }
  }

  lemma {:induction false} StillBacked(u: Utxos, txs: Pool, e: Entry, evicted: set<Txid>, slated: set<Txid>)
    requires Grounded(u, txs) && EntryBacked(u, txs, e) && Replaces(txs, e.tx, evicted)
    requires AllOutbid(txs, e.rate, AncestorsOf(txs, e.tx.inputs), slated - evicted)
    ensures EntryBacked(u, txs - slated, e)
  {
    ParentIdsAre(e.tx.inputs);
    forall op | op in Prevouts(e.tx)
      ensures op in u || PoolCoin(txs - slated, op)
    {
      if op !in u {
        ParentStays(u, txs, e.tx, e.rate, evicted, slated, op.txid);
      }
    }
  }

  lemma {:induction false} RoomBelowLess(txs: Pool, gone: set<Txid>, inputs: seq<TxIn>)
    requires Count(AncestorsOf(txs, inputs)) <= MAX_ANCESTORS && RoomBelow(txs, AncestorsOf(txs, inputs))
    ensures var rest := txs - gone;
            Count(AncestorsOf(rest, inputs)) <= MAX_ANCESTORS && RoomBelow(rest, AncestorsOf(rest, inputs))
  {
    var rest := txs - gone;
    FewerAncestors(txs, gone, inputs);
    CountSubset(AncestorsOf(rest, inputs), AncestorsOf(txs, inputs));
    forall a | a in AncestorsOf(rest, inputs)
      ensures Count(Descendants(rest, a)) + 1 <= MAX_DESCENDANTS
    {
      forall d | d in Descendants(rest, a)
        ensures d in Descendants(txs, a)
      {
        FewerDescendants(txs, gone, a, d);
      }
      CountSubset(Descendants(rest, a), Descendants(txs, a));
    }
  }
}
