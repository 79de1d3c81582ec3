/** The pool of unconfirmed transactions as a graph: who spends whom, and what every pool keeps. */
module MempoolGraph {
  import opened Sums
  import opened Transactions
  import opened Ledger
  import opened Reachability

  datatype Entry = Entry(tx: Tx, fee: nat, rate: real, time: nat, lockHeight: nat, lockTime: nat)

  type Pool = map<Txid, Entry>

  type Index = map<OutPoint, Txid>

  // ----- Adding up entries

  /** What one entry counts for in memory: its own bookkeeping, one index slot per input, its serialized size. */
  function EntryCost(perEntry: nat, perInput: nat, inputs: nat, size: nat): nat
  {
    perEntry + inputs * perInput + size
  }

  datatype Measure = Bytes | Slots | Fee | Cost(perEntry: nat, perInput: nat)

  function Weigh(q: Measure, e: Entry): nat
  {
    match q
    case Bytes => e.tx.size
    case Slots => |e.tx.inputs|
    case Fee => e.fee
    case Cost(perEntry, perInput) => EntryCost(perEntry, perInput, |e.tx.inputs|, e.tx.size)
  }

  ghost function Weights(q: Measure, txs: Pool): map<Txid, nat>
  {
    map id | id in txs :: Weigh(q, txs[id])
  }

  /** The sum of a measure over all entries. */
  ghost function Weight(q: Measure, txs: Pool): nat
  {
    Sum(Weights(q, txs))
  }

  lemma {:induction false} WeightWith(q: Measure, txs: Pool, id: Txid, e: Entry)
    requires id !in txs
    ensures Weight(q, txs[id := e]) == Weight(q, txs) + Weigh(q, e)
  {
    SumWith(Weights(q, txs), id, Weigh(q, e));
    assert Weights(q, txs[id := e]) == Weights(q, txs)[id := Weigh(q, e)];
  }

  lemma {:induction false} WeightWithout(q: Measure, txs: Pool, id: Txid)
    requires id in txs
    ensures Weight(q, txs) == Weigh(q, txs[id]) + Weight(q, txs - {id})
  {
    SumWithout(Weights(q, txs), id);
    assert Weights(q, txs - {id}) == Weights(q, txs) - {id};
  }

  lemma {:induction false} WeightWithoutOneMore(q: Measure, txs: Pool, gone: set<Txid>, id: Txid)
    requires id in txs && id !in gone
    ensures Weight(q, txs - gone) == Weigh(q, txs[id]) + Weight(q, txs - (gone + {id}))
  {
    WeightWithout(q, txs - gone, id);
    assert (txs - gone) - {id} == txs - (gone + {id});
  }

  lemma {:induction false} WeightLess(q: Measure, txs: Pool, gone: set<Txid>)
    ensures Weight(q, txs - gone) <= Weight(q, txs)
  {
    SumLess(Weights(q, txs), gone);
    assert Weights(q, txs - gone) == Weights(q, txs) - gone;
  }

  // ----- What every pool keeps

  /** Entries are filed under their own id and passed the context-free checks. */
  ghost predicate EntrySane(id: Txid, e: Entry)
  {
    e.tx.txid == id && DistinctInputs(e.tx.inputs) && NULL_OUTPOINT !in Prevouts(e.tx)
  }

  ghost predicate Sane(txs: Pool)
  {
    forall id :: id in txs ==> EntrySane(id, txs[id])
  }

  ghost predicate EntryIndexed(spent: Index, id: Txid, e: Entry)
  {
    forall op :: op in Prevouts(e.tx) ==> op in spent && spent[op] == id
  }

  ghost predicate IsSpender(txs: Pool, id: Txid, op: OutPoint)
  {
    id in txs && op in Prevouts(txs[id].tx)
  }

  /** The index is exactly the inverse of the entries' inputs; in particular no outpoint is spent twice. */
  ghost predicate Inverse(txs: Pool, spent: Index)
  {
    && (forall id :: id in txs ==> EntryIndexed(spent, id, txs[id]))
    && (forall op :: op in spent ==> IsSpender(txs, spent[op], op))
  }

  /** An output of a pool transaction that can become a coin. */
  predicate PoolCoin(txs: Pool, op: OutPoint)
  {
    && op.txid in txs
    && op.vout < |txs[op.txid].tx.outputs|
    && !IsOpReturn(txs[op.txid].tx.outputs[op.vout].script)
  }

  ghost predicate EntryBacked(u: Utxos, txs: Pool, e: Entry)
  {
    forall op :: op in Prevouts(e.tx) ==> op in u || PoolCoin(txs, op)
  }

  /** No orphans: every input is an unspent coin or an output of another pool transaction. */
  ghost predicate Backed(u: Utxos, txs: Pool)
  {
    forall id :: id in txs ==> EntryBacked(u, txs, txs[id])
  }

  /** No coin of the chain comes from a pool transaction. */
  ghost predicate Unconfirmed(u: Utxos, txs: Pool)
  {
    forall op :: op in u ==> op.txid !in txs
  }

  /** The pool fits the chain. */
  ghost predicate Grounded(u: Utxos, txs: Pool)
  {
    Backed(u, txs) && Unconfirmed(u, txs)
  }

  // ----- Edges

  function ParentIds(inputs: seq<TxIn>): set<Txid>
  {
    if |inputs| == 0 then {} else ParentIds(inputs[..|inputs| - 1]) + {inputs[|inputs| - 1].prev.txid}
  }

  lemma {:induction false} ParentIdsAre(inputs: seq<TxIn>)
    ensures forall op :: op in PrevoutSet(inputs) ==> op.txid in ParentIds(inputs)
    ensures forall p :: p in ParentIds(inputs) ==> exists op :: op in PrevoutSet(inputs) && op.txid == p
  {
    if |inputs| > 0 {
      var front, last := inputs[..|inputs| - 1], inputs[|inputs| - 1].prev;
      ParentIdsAre(front);
      forall p | p in ParentIds(inputs)
        ensures exists op :: op in PrevoutSet(inputs) && op.txid == p
      {
        if p in ParentIds(front) {
          var op :| op in PrevoutSet(front) && op.txid == p;
          assert op in PrevoutSet(inputs);
        } else {
          assert last in PrevoutSet(inputs);
        }
      }
    }
  }

  /** One of the inputs is one of the first `n` outputs of `p`. */
  ghost predicate SpendsFrom(p: Txid, n: nat, tx: Tx)
  {
    exists v :: 0 <= v < n && OutPoint(p, v) in Prevouts(tx)
  }

  ghost function ChildrenIn(txs: Pool, p: Txid): set<Txid>
  {
    if p in txs then set c | c in txs && SpendsFrom(p, |txs[p].tx.outputs|, txs[c].tx) else {}
  }

  ghost function Down(txs: Pool): map<Txid, set<Txid>>
  {
    map p | p in txs :: ChildrenIn(txs, p)
  }

  ghost function Up(txs: Pool): map<Txid, set<Txid>>
  {
    map c | c in txs :: ParentIds(txs[c].tx.inputs)
  }

  lemma {:induction false} DownIs(txs: Pool, p: Txid)
    ensures Next(Down(txs), p) == ChildrenIn(txs, p)
  {}

  ghost predicate IsDescendant(txs: Pool, a: Txid, d: Txid)
  {
    Reaches(Down(txs), a, d)
  }

  /** In a consistent pool every input that names an entry spends one of its outputs. */
  lemma {:induction false} ParentHasChild(u: Utxos, txs: Pool, p: Txid, c: Txid)
    requires Grounded(u, txs)
    ensures p in txs ==> (c in ChildrenIn(txs, p) <==> c in txs && p in ParentIds(txs[c].tx.inputs))
  {
    if p in txs && c in txs {
      ParentIdsAre(txs[c].tx.inputs);
      if p in ParentIds(txs[c].tx.inputs) {
        var op :| op in PrevoutSet(txs[c].tx.inputs) && op.txid == p;
        assert EntryBacked(u, txs, txs[c]);
        assert op == OutPoint(p, op.vout);
      }
    }
  }

  // ----- Removal

  ghost predicate ClosedDown(txs: Pool, gone: set<Txid>)
  {
    Closed(Down(txs), gone)
  }

  /** Taking out one entry and its inputs. */
  lemma {:induction false} RemoveOne(txs: Pool, spent: Index, id: Txid)
    requires Sane(txs) && Inverse(txs, spent) && id in txs
    ensures var rest, less := txs - {id}, spent - Prevouts(txs[id].tx);
            Sane(rest) && Inverse(rest, less) && Prevouts(txs[id].tx) <= spent.Keys
  {
    var rest, less := txs - {id}, spent - Prevouts(txs[id].tx);
    assert EntryIndexed(spent, id, txs[id]);
    forall c | c in rest
      ensures EntryIndexed(less, c, rest[c])
    {
      assert EntryIndexed(spent, c, txs[c]);
    }
    forall op | op in less
      ensures IsSpender(rest, less[op], op)
    {
      assert IsSpender(txs, spent[op], op);
    }
  }

  lemma {:induction false} ChildGone(txs: Pool, gone: set<Txid>, op: OutPoint, c: Txid)
    requires ClosedDown(txs, gone) && c in txs && op in Prevouts(txs[c].tx) && PoolCoin(txs, op) && op.txid in gone
    ensures c in gone
  {
    assert op == OutPoint(op.txid, op.vout);
    assert c in Next(Down(txs), op.txid);
  }

  /** Removing a set of entries with all their descendants leaves no orphans. */
  lemma {:induction false} RemoveClosed(u: Utxos, txs: Pool, gone: set<Txid>)
    requires Grounded(u, txs) && ClosedDown(txs, gone)
    ensures Grounded(u, txs - gone)
  {
    var rest := txs - gone;
    forall c | c in rest
      ensures EntryBacked(u, rest, rest[c])
    {
      assert EntryBacked(u, txs, txs[c]);
      forall op | op in Prevouts(txs[c].tx)
        ensures op in u || PoolCoin(rest, op)
      {
        if op !in u && op.txid in gone {
          ChildGone(txs, gone, op, c);
        }
      }
    }
  }

  // ----- Blocks

  /** Confirming a transaction: its outputs become coins, so its children stay backed. */
  lemma {:induction false} ConfirmBacked(u: Utxos, txs: Pool, tx: Tx, height: nat, coinbase: bool)
    requires Grounded(u, txs) && (tx.txid in txs ==> txs[tx.txid].tx == tx)
    ensures Grounded(u + Created(tx, height, coinbase), txs - {tx.txid})
  {
    var coins, rest := u + Created(tx, height, coinbase), txs - {tx.txid};
    OutputsAre(tx, height, coinbase, |tx.outputs|);
    forall c | c in rest
      ensures EntryBacked(coins, rest, rest[c])
    {
      assert EntryBacked(u, txs, txs[c]);
    }
  }

  /** The entries that spend one of these outpoints. */
  ghost function Conflicts(txs: Pool, ops: set<OutPoint>): set<Txid>
  {
    set c | c in txs && !(Prevouts(txs[c].tx) !! ops)
  }

  /** Coins that no entry spends may go. */
  lemma {:induction false} SpendBacked(u: Utxos, txs: Pool, ops: set<OutPoint>)
    requires Grounded(u, txs) && Conflicts(txs, ops) == {}
    ensures Grounded(u - ops, txs)
  {
    forall c | c in txs
      ensures EntryBacked(u - ops, txs, txs[c])
    {
      assert EntryBacked(u, txs, txs[c]);
      assert c !in Conflicts(txs, ops);
    }
  }
}
