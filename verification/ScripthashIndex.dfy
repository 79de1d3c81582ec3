/** Building the script hash index block by block: outputs first, then spends resolved from the block
    itself, an evicting cache, or disk. */
module ScripthashIndex {
  import opened Maps
  import opened Options
  import opened Transactions
  import opened Scripthash

  // ----- Pass 1: outputs

  method IndexTxOutputs(hash: Hasher, was: Tally, before: Outs, tx: Tx, index: nat) returns (t: Tally, made: Outs)
    ensures t == Credit(hash, was, tx, index, |tx.outputs|) && made == before + OutsOf(tx, |tx.outputs|)
  {
    t, made := was, before;
    assert before + OutsOf(tx, 0) == before;
    var v := 0;
    while v < |tx.outputs|
      invariant 0 <= v <= |tx.outputs| && t == Credit(hash, was, tx, index, v) && made == before + OutsOf(tx, v)
    {
      var out := tx.outputs[v];
      t := Post(t, Touch(hash(out.script), index, tx.txid), out.value);
      made := made[OutPoint(tx.txid, v) := out];
      v := v + 1;
    }
  }

  method IndexOutputs(hash: Hasher, txs: seq<Tx>) returns (t: Tally, made: Outs)
    ensures t == CreditAll(hash, txs, |txs|) && made == MadeBy(txs, |txs|)
  {
    t, made := Tally({}, map[]), map[];
    var k := 0;
    while k < |txs|
      invariant 0 <= k <= |txs| && t == CreditAll(hash, txs, k) && made == MadeBy(txs, k)
    {
      t, made := IndexTxOutputs(hash, t, made, txs[k], k);
      k := k + 1;
    }
  }

  // ----- Pass 2: spends

  /** Every spend is of an output of this block, noted, or is pending. */
  ghost predicate Split(all: seq<Spend>, made: Outs, intra: set<OutPoint>, pending: seq<Spend>)
  {
    && (forall s :: s in all ==> s.prev in intra || s in pending)
    && (forall s :: s in pending ==> s in all && s.prev !in made)
    && intra <= made.Keys
  }

  datatype Progress = Progress(tally: Tally, intra: set<OutPoint>, pending: seq<Spend>)

  ghost predicate Reached(hash: Hasher, outs: Outs, made: Outs, was: Tally, p: Progress, all: seq<Spend>)
  {
    Settled(hash, outs, was, p.tally, all, p.pending) && Split(all, made, p.intra, p.pending)
  }

  method SpendOne(hash: Hasher, ghost outs: Outs, made: Outs, ghost was: Tally, p: Progress, ghost all: seq<Spend>,
                  s: Spend)
    returns (r: Progress)
    requires Part(made, outs) && Reached(hash, outs, made, was, p, all)
    ensures Reached(hash, outs, made, was, r, all + [s])
  {
    if s.prev in made {
      SettleOne(hash, outs, was, p.tally, all, p.pending, s);
      r := Progress(Debit(hash, p.tally, s, made[s.prev]), p.intra + {s.prev}, p.pending);
    } else {
      Defer(hash, outs, was, p.tally, all, p.pending, s);
      r := Progress(p.tally, p.intra, p.pending + [s]);
    }
  }

  method SpendTx(hash: Hasher, ghost outs: Outs, made: Outs, ghost was: Tally, p: Progress, ghost all: seq<Spend>,
                 tx: Tx, index: nat)
    returns (r: Progress)
    requires Part(made, outs) && Reached(hash, outs, made, was, p, all)
    ensures Reached(hash, outs, made, was, r, all + SpendsOf(tx, index, |tx.inputs|))
  {
    r := p;
    ghost var sofar := all;
    assert all + SpendsOf(tx, index, 0) == all;
    var i := 0;
    while i < |tx.inputs|
      invariant 0 <= i <= |tx.inputs| && sofar == all + SpendsOf(tx, index, i)
      invariant Reached(hash, outs, made, was, r, sofar)
    {
      var s := Spend(index, tx.txid, tx.inputs[i].prev);
      r := SpendOne(hash, outs, made, was, r, sofar, s);
      sofar := sofar + [s];
      i := i + 1;
    }
  }

  lemma {:induction false} SpendsStep(txs: seq<Tx>, k: nat, n: nat) returns (more: seq<Spend>)
    requires n == k + 1 <= |txs|
    ensures more == BlockSpends(txs, n)
    ensures more == BlockSpends(txs, k) + if IsCoinbase(txs[k]) then [] else SpendsOf(txs[k], k, |txs[k].inputs|)
    ensures IsCoinbase(txs[k]) ==> more == BlockSpends(txs, k)
  {
    more := BlockSpends(txs, n);
    assert BlockSpends(txs, k) + [] == BlockSpends(txs, k);
  }

  method SpendNext(hash: Hasher, ghost outs: Outs, made: Outs, ghost was: Tally, p: Progress, txs: seq<Tx>, k: nat,
                   ghost all: seq<Spend>)
    returns (r: Progress, ghost more: seq<Spend>)
    requires k < |txs| && Part(made, outs) && all == BlockSpends(txs, k) && Reached(hash, outs, made, was, p, all)
    ensures more == BlockSpends(txs, k + 1) && Reached(hash, outs, made, was, r, more)
  {
    more := SpendsStep(txs, k, k + 1);
    r := p;
    if !IsCoinbase(txs[k]) {
      r := SpendTx(hash, outs, made, was, p, all, txs[k], k);
    }
  }

  lemma {:induction false} NothingYet(hash: Hasher, outs: Outs, made: Outs, was: Tally, all: seq<Spend>)
    requires all == []
    ensures Reached(hash, outs, made, was, Progress(was, {}, []), all)
  {}

  method SpendAll(hash: Hasher, ghost outs: Outs, made: Outs, was: Tally, txs: seq<Tx>) returns (r: Progress)
    requires Part(made, outs)
    ensures Reached(hash, outs, made, was, r, BlockSpends(txs, |txs|))
  {
    r := Progress(was, {}, []);
    ghost var all := BlockSpends(txs, 0);
    NothingYet(hash, outs, made, was, all);
    var k := 0;
    while k < |txs|
      invariant 0 <= k <= |txs| && all == BlockSpends(txs, k)
      invariant Reached(hash, outs, made, was, r, all)
    {
      r, all := SpendNext(hash, outs, made, was, r, txs, k, all);
      k := k + 1;
    }
  }

  // ----- Spends of earlier blocks

  /** Hits are taken out of the cache; the rest is left for the disk. */
  method UseCache(hash: Hasher, ghost outs: Outs, was: Tally, cache: Outs, pending: seq<Spend>)
    returns (t: Tally, kept: Outs, misses: seq<Spend>)
    requires Part(cache, outs)
    ensures Settled(hash, outs, was, t, pending, misses)
    ensures Part(kept, cache) && (forall s :: s in pending ==> s.prev !in kept)
    ensures forall s :: s in misses ==> s in pending
  {
    t, kept, misses := was, cache, [];
    var i := 0;
    assert pending[..0] == [];
    while i < |pending|
      invariant 0 <= i <= |pending| && Settled(hash, outs, was, t, pending[..i], misses)
      invariant Part(kept, cache) && (forall s :: s in pending[..i] ==> s.prev !in kept)
      invariant forall s :: s in misses ==> s in pending
    {
      var s := pending[i];
      assert pending[..i + 1] == pending[..i] + [s];
      if s.prev in kept {
        SettleOne(hash, outs, was, t, pending[..i], misses, s);
        t := Debit(hash, t, s, kept[s.prev]);
        kept := kept - {s.prev};
      } else {
        Defer(hash, outs, was, t, pending[..i], misses, s);
        misses := misses + [s];
      }
      i := i + 1;
    }
    assert pending[..i] == pending;
  }

  function OutOn(outs: Outs, op: OutPoint): Option<TxOut>
  {
    if op in outs then Some(outs[op]) else None
  }

  /** What the disk resolves is charged; what it does not is skipped. */
  method UseDisk(hash: Hasher, ghost outs: Outs, was: Tally, disk: Outs, misses: seq<Spend>) returns (t: Tally)
    requires forall s :: s in misses ==> OutOn(disk, s.prev) == OutOn(outs, s.prev)
    ensures Settled(hash, outs, was, t, misses, [])
  {
    t := was;
    var i := 0;
    assert misses[..0] == [];
    while i < |misses|
      invariant 0 <= i <= |misses| && Settled(hash, outs, was, t, misses[..i], [])
    {
      var s := misses[i];
      assert misses[..i + 1] == misses[..i] + [s];
      SettleOne(hash, outs, was, t, misses[..i], [], s);
      if s.prev in disk {
        t := Debit(hash, t, s, disk[s.prev]);
      }
      i := i + 1;
    }
    assert misses[..i] == misses;
  }

  /** Wherever a spend is resolved from, it is charged once, to the output it spends; one that is not found anywhere is
      skipped. */
  method Attribute(hash: Hasher, ghost outs: Outs, txs: seq<Tx>, made: Outs, credits: Tally, cache: Outs, disk: Outs)
    returns (t: Tally, intra: set<OutPoint>, kept: Outs)
    requires Part(made, outs) && Part(cache, outs)
    requires forall s :: s in BlockSpends(txs, |txs|) && s.prev !in made ==> OutOn(disk, s.prev) == OutOn(outs, s.prev)
    ensures Settled(hash, outs, credits, t, BlockSpends(txs, |txs|), [])
    ensures Part(kept, cache) && intra <= made.Keys
    ensures forall s :: s in BlockSpends(txs, |txs|) ==> s.prev in intra || (s.prev !in kept && s.prev !in made)
  {
    ghost var all := BlockSpends(txs, |txs|);
    var p := SpendAll(hash, outs, made, credits, txs);
    var rest, misses;
    rest, kept, misses := UseCache(hash, outs, p.tally, cache, p.pending);
    t := UseDisk(hash, outs, rest, disk, misses);
    SettleRest(hash, outs, credits, p.tally, rest, all, p.pending, misses);
    SettleRest(hash, outs, credits, rest, t, all, misses, []);
    intra := p.intra;
  }

  // ----- Writing the results

  /** Where a touch is stored. */
  datatype Entry = Entry(hash: Hash, height: nat, index: nat)

  type History = map<Entry, Txid>

  /** The touches are of transactions of the block. */
  ghost predicate OfBlock(touches: set<Touch>, txs: seq<Tx>)
  {
    forall t :: t in touches ==> t.index < |txs| && t.txid == txs[t.index].txid
  }

  ghost predicate Hits(touches: set<Touch>, txs: seq<Tx>, height: nat, e: Entry)
  {
    e.height == height && e.index < |txs| && Touch(e.hash, e.index, txs[e.index].txid) in touches
  }

  ghost predicate Logged(touches: set<Touch>, txs: seq<Tx>, height: nat, was: History, now: History)
  {
    && (forall e :: e in now <==> e in was || Hits(touches, txs, height, e))
    && (forall e :: e in now ==> now[e] == if Hits(touches, txs, height, e) then txs[e.index].txid else was[e])
  }

  lemma {:induction false} LogOne(touches: set<Touch>, txs: seq<Tx>, height: nat, was: History, now: History, t: Touch,
                                  more: set<Touch>)
    requires Logged(touches, txs, height, was, now) && t.index < |txs| && t.txid == txs[t.index].txid
    requires more == touches + {t}
    ensures Logged(more, txs, height, was, now[Entry(t.hash, height, t.index) := t.txid])
  {
    forall e
      ensures Hits(more, txs, height, e) <==> Hits(touches, txs, height, e) || e == Entry(t.hash, height, t.index)
    {}
  }

  method WriteHistory(history: History, height: nat, touches: set<Touch>, ghost txs: seq<Tx>) returns (r: History)
    requires OfBlock(touches, txs)
    ensures Logged(touches, txs, height, history, r)
  {
    r := history;
    var left := touches;
    while left != {}
      invariant left <= touches && Logged(touches - left, txs, height, history, r)
      decreases left
    {
      var t :| t in left;
      LogOne(touches - left, txs, height, history, r, t, touches - (left - {t}));
      r := r[Entry(t.hash, height, t.index) := t.txid];
      left := left - {t};
    }
    assert touches - left == touches;
  }

  /** A balance never goes below zero. */
  function Clamp(x: int): nat
  {
    if x < 0 then 0 else x
  }

  /** Each balance changes by the net amount, and stays at zero if that is more than it holds. */
  method WriteBalances(balances: map<Hash, nat>, deltas: map<Hash, int>) returns (r: map<Hash, nat>)
    ensures forall key :: Net(r, key) == Clamp(Net(balances, key) + Net(deltas, key))
  {
    r := balances;
    var left := deltas.Keys;
    while left != {}
      invariant left <= deltas.Keys
      invariant forall key :: Net(r, key) ==
                              if key in left then Net(balances, key) else Clamp(Net(balances, key) + Net(deltas, key))
      decreases left
    {
      var key :| key in left;
      var confirmed := if key in balances then balances[key] else 0;
      r := r[key := Clamp(confirmed + deltas[key])];
      left := left - {key};
    }
  }

  /** Remember the block's unspent spendable outputs; anything may be evicted. */
  method Seed(cache: Outs, made: Outs, intra: set<OutPoint>, evicted: set<OutPoint>) returns (r: Outs)
    ensures forall op :: op in r && op !in made ==> op in cache && r[op] == cache[op]
    ensures forall op :: op in r && op in made && op !in cache ==> op !in intra && r[op] == made[op]
    ensures forall op :: op in r && op in made && op in cache ==> r[op] == made[op] || r[op] == cache[op]
  {
    r := cache;
    var left := made.Keys;
    while left != {}
      invariant left <= made.Keys
      invariant forall op :: op in r && op !in made ==> op in cache && r[op] == cache[op]
      invariant forall op :: op in r && op in made && op !in cache ==> op !in intra && r[op] == made[op]
      invariant forall op :: op in r && op in made && op in cache ==> r[op] == made[op] || r[op] == cache[op]
      decreases left
    {
      var op :| op in left;
      if op !in intra && !IsOpReturn(made[op].script) {
        r := r[op := made[op]];
      }
      left := left - {op};
    }
    r := r - evicted;
  }

  // ----- A chain of blocks

  ghost function MadeChain(chain: seq<seq<Tx>>, n: nat): Outs
    requires n <= |chain|
  {
    if n == 0 then map[] else MadeChain(chain, n - 1) + MadeBy(chain[n - 1], |chain[n - 1]|)
  }

  ghost function CoinsChain(chain: seq<seq<Tx>>, n: nat): Outs
    requires n <= |chain|
  {
    if n == 0 then map[] else CoinsAfter(CoinsChain(chain, n - 1), chain[n - 1], |chain[n - 1]|)
  }

  /** The next block is valid on the blocks before it. */
  ghost predicate ValidNext(chain: seq<seq<Tx>>, n: nat, txs: seq<Tx>)
    requires n <= |chain|
  {
    ValidTxs(MadeChain(chain, n), CoinsChain(chain, n), txs, |txs|)
  }

  ghost predicate ValidChain(chain: seq<seq<Tx>>, n: nat)
    requires n <= |chain|
  {
    n == 0 || (ValidChain(chain, n - 1) && ValidNext(chain, n - 1, chain[n - 1]))
  }

  ghost function ReceivedChain(hash: Hasher, chain: seq<seq<Tx>>, n: nat, key: Hash): nat
    requires n <= |chain|
  {
    if n == 0 then 0 else ReceivedChain(hash, chain, n - 1, key) + ReceivedBy(hash, chain[n - 1], |chain[n - 1]|, key)
  }

  ghost function PaidChain(hash: Hasher, outs: Outs, chain: seq<seq<Tx>>, n: nat, key: Hash): nat
    requires n <= |chain|
  {
    if n == 0 then 0
    else PaidChain(hash, outs, chain, n - 1, key) + PaidBy(hash, outs, chain[n - 1], |chain[n - 1]|, key)
  }

  lemma {:induction false} ChainWithin(chain: seq<seq<Tx>>, n: nat)
    requires n <= |chain| && ValidChain(chain, n)
    ensures Part(CoinsChain(chain, n), MadeChain(chain, n))
  {
    if n > 0 {
      ChainWithin(chain, n - 1);
      CoinsWithin(MadeChain(chain, n - 1), CoinsChain(chain, n - 1), chain[n - 1], |chain[n - 1]|);
    }
  }

  lemma {:induction false} ChainGrows(chain: seq<seq<Tx>>, j: nat, n: nat)
    requires n == j + 1 <= |chain| && ValidChain(chain, n)
    ensures Part(MadeChain(chain, j), MadeChain(chain, n))
  {
    ChainWithin(chain, j);
    CoinsWithin(MadeChain(chain, j), CoinsChain(chain, j), chain[j], |chain[j]|);
  }

  /** What a hash holds is what it ever received minus what it ever paid. */
  lemma {:induction false} HeldIsNet(hash: Hasher, outs: Outs, chain: seq<seq<Tx>>, n: nat, key: Hash)
    requires n <= |chain| && ValidChain(chain, n) && Part(MadeChain(chain, n), outs)
    ensures Held(hash, CoinsChain(chain, n), key) ==
            ReceivedChain(hash, chain, n, key) - PaidChain(hash, outs, chain, n, key)
  {
    if n > 0 {
      var j := n - 1;
      ChainWithin(chain, j);
      ChainGrows(chain, j, n);
      PartTrans(MadeChain(chain, j), MadeChain(chain, n), outs);
      HeldIsNet(hash, outs, chain, j, key);
      HeldAfter(hash, MadeChain(chain, j), CoinsChain(chain, j), chain[j], |chain[j]|, outs, key);
    } else {
      assert Shares(hash, map[], key) == map[];
    }
  }

  /** The chain functions look only at the blocks below `n`. */
  lemma {:induction false} Extend(chain: seq<seq<Tx>>, more: seq<seq<Tx>>, n: nat)
    requires n <= |chain| && chain <= more
    ensures MadeChain(more, n) == MadeChain(chain, n) && CoinsChain(more, n) == CoinsChain(chain, n)
    ensures ValidChain(more, n) == ValidChain(chain, n)
  {
    if n > 0 {
      Extend(chain, more, n - 1);
      assert more[n - 1] == chain[n - 1];
    }
  }

  // ----- What the index holds

  /** The transaction pays to the hash or spends from it. */
  ghost predicate Concerns(hash: Hasher, outs: Outs, tx: Tx, key: Hash)
  {
    PaysTo(hash, tx, |tx.outputs|, key) || (!IsCoinbase(tx) && SpendsFrom(hash, outs, tx, |tx.inputs|, key))
  }

  ghost predicate Recorded(hash: Hasher, outs: Outs, chain: seq<seq<Tx>>, e: Entry)
  {
    e.height < |chain| && e.index < |chain[e.height]| && Concerns(hash, outs, chain[e.height][e.index], e.hash)
  }

  /** The history lists exactly the transactions concerning each hash. */
  ghost predicate HistoryIs(hash: Hasher, outs: Outs, chain: seq<seq<Tx>>, history: History)
  {
    && (forall e :: e in history <==> Recorded(hash, outs, chain, e))
    && (forall e :: e in history ==> history[e] == chain[e.height][e.index].txid)
  }

  ghost predicate InputsKnown(outs: Outs, txs: seq<Tx>)
  {
    forall i :: 0 <= i < |txs| ==> Gone(txs[i]) <= outs.Keys
  }

  lemma {:induction false} KnownBy(made: Outs, coins: Outs, txs: seq<Tx>, i: nat)
    requires i < |txs| && Part(coins, made) && ValidTxs(made, coins, txs, |txs|)
    ensures Gone(txs[i]) <= (made + MadeBy(txs, |txs|)).Keys
  {
    ValidPrefix(made, coins, txs, i, |txs|);
    CoinsWithin(made, coins, txs, i);
    MadeGrows(made, txs, i, |txs|, coins);
  }

  lemma {:induction false} ConcernsStable(hash: Hasher, made: Outs, outs: Outs, tx: Tx, key: Hash)
    requires Part(made, outs) && Gone(tx) <= made.Keys
    ensures Concerns(hash, made, tx, key) <==> Concerns(hash, outs, tx, key)
  {
    if !IsCoinbase(tx) {
      PrevoutsAre(tx.inputs);
      forall i | 0 <= i < |tx.inputs|
        ensures IsOf(hash, made, tx.inputs[i].prev, key) <==> IsOf(hash, outs, tx.inputs[i].prev, key)
      {
        assert tx.inputs[i].prev in Prevouts(tx);
      }
    }
  }

  /** After the spends are charged the touches are of exactly the transactions concerned. */
  lemma {:induction false} TouchesAre(hash: Hasher, outs: Outs, txs: seq<Tx>, t: Tally, touch: Touch)
    requires Settled(hash, outs, CreditAll(hash, txs, |txs|), t, BlockSpends(txs, |txs|), [])
    ensures touch in t.touches <==>
            touch.index < |txs| && touch.txid == txs[touch.index].txid &&
            Concerns(hash, outs, txs[touch.index], touch.hash)
  {
    var credits, spends := CreditAll(hash, txs, |txs|).touches, Touches(hash, outs, BlockSpends(txs, |txs|));
    assert t.touches + {} == t.touches;
    assert t.touches == credits + spends;
    CreditAllTouches(hash, txs, |txs|, touch);
    TouchesBlock(hash, outs, txs, |txs|, BlockSpends(txs, |txs|), touch);
  }

  lemma {:induction false} NetIs(hash: Hasher, outs: Outs, txs: seq<Tx>, t: Tally, key: Hash)
    requires Settled(hash, outs, CreditAll(hash, txs, |txs|), t, BlockSpends(txs, |txs|), [])
    ensures Net(t.deltas, key) == NetOf(hash, outs, txs, key)
  {
    CreditAllNet(hash, txs, |txs|, key);
    PaidBlock(hash, outs, txs, |txs|, BlockSpends(txs, |txs|), key);
  }

  lemma {:induction false} OldEntry(hash: Hasher, made: Outs, outs: Outs, chain: seq<seq<Tx>>, more: seq<seq<Tx>>,
                                    e: Entry)
    requires Part(made, outs) && chain <= more && e.height < |chain|
    requires forall h :: 0 <= h < |chain| ==> InputsKnown(made, chain[h])
    ensures Recorded(hash, outs, more, e) <==> Recorded(hash, made, chain, e)
  {
    assert more[e.height] == chain[e.height];
    if e.index < |chain[e.height]| {
      ConcernsStable(hash, made, outs, chain[e.height][e.index], e.hash);
    }
  }

  /** The block's transaction at a place concerns the hash. */
  ghost predicate ConcernsAt(hash: Hasher, outs: Outs, txs: seq<Tx>, height: nat, e: Entry)
  {
    e.height == height && e.index < |txs| && Concerns(hash, outs, txs[e.index], e.hash)
  }

  /** The history gains the block's transactions under the hashes they concern, and loses nothing else. */
  ghost predicate Extends(hash: Hasher, outs: Outs, txs: seq<Tx>, height: nat, was: History, now: History)
  {
    && (forall e :: e in now <==> e in was || ConcernsAt(hash, outs, txs, height, e))
    && (forall e :: e in now ==>
          now[e] == if ConcernsAt(hash, outs, txs, height, e) then txs[e.index].txid else was[e])
  }

  lemma {:induction false} BlockTouches(hash: Hasher, outs: Outs, txs: seq<Tx>, t: Tally)
    requires Settled(hash, outs, CreditAll(hash, txs, |txs|), t, BlockSpends(txs, |txs|), [])
    ensures OfBlock(t.touches, txs)
  {
    forall touch | touch in t.touches
      ensures touch.index < |txs| && touch.txid == txs[touch.index].txid
    {
      TouchesAre(hash, outs, txs, t, touch);
    }
  }

  lemma {:induction false} TouchesExtend(hash: Hasher, outs: Outs, txs: seq<Tx>, t: Tally, height: nat, was: History,
                                         now: History)
    requires Settled(hash, outs, CreditAll(hash, txs, |txs|), t, BlockSpends(txs, |txs|), [])
    requires Logged(t.touches, txs, height, was, now)
    ensures Extends(hash, outs, txs, height, was, now)
  {
    forall e
      ensures Hits(t.touches, txs, height, e) <==> ConcernsAt(hash, outs, txs, height, e)
    {
      if e.index < |txs| {
        TouchesAre(hash, outs, txs, t, Touch(e.hash, e.index, txs[e.index].txid));
      }
    }
  }

  lemma {:induction false} HistoryStep(hash: Hasher, made: Outs, outs: Outs, chain: seq<seq<Tx>>, txs: seq<Tx>,
                                       more: seq<seq<Tx>>, was: History, now: History)
    requires HistoryIs(hash, made, chain, was) && Part(made, outs) && more == chain + [txs]
    requires forall h :: 0 <= h < |chain| ==> InputsKnown(made, chain[h])
    requires Extends(hash, outs, txs, |chain|, was, now)
    ensures HistoryIs(hash, outs, more, now)
  {
    forall e
      ensures e in now <==> Recorded(hash, outs, more, e)
    {
      if e.height < |chain| {
        OldEntry(hash, made, outs, chain, more, e);
      } else if e.height == |chain| {
        assert more[e.height] == txs;
      }
    }
  }

  /** What a block pays to a hash, less what it spends from it. */
  ghost function NetOf(hash: Hasher, outs: Outs, txs: seq<Tx>, key: Hash): int
  {
    ReceivedBy(hash, txs, |txs|, key) - PaidBy(hash, outs, txs, |txs|, key)
  }

  /** The disk knows what the block spends and does not make itself. */
  ghost predicate Resolves(disk: Outs, outs: Outs, txs: seq<Tx>)
  {
    forall s :: s in BlockSpends(txs, |txs|) && s.prev !in MadeBy(txs, |txs|) ==>
                  OutOn(disk, s.prev) == OutOn(outs, s.prev)
  }

  /** The cache afterwards: what is kept of it, and the block's own unspent outputs. */
  ghost predicate Seeds(cache: Outs, txs: seq<Tx>, kept: Outs, intra: set<OutPoint>, cache': Outs)
  {
    var made := MadeBy(txs, |txs|);
    && Part(kept, cache) && intra <= made.Keys
    && (forall s :: s in BlockSpends(txs, |txs|) ==> s.prev in intra || (s.prev !in kept && s.prev !in made))
    && (forall op :: op in cache' && op !in made ==> op in kept && cache'[op] == kept[op])
    && (forall op :: op in cache' && op in made && op !in kept ==> op !in intra && cache'[op] == made[op])
    && (forall op :: op in cache' && op in made && op in kept ==> cache'[op] == made[op] || cache'[op] == kept[op])
  }

  /** The cache holds unspent outputs only. */
  lemma {:induction false} CacheStays(made: Outs, coins: Outs, txs: seq<Tx>, kept: Outs, op: OutPoint, out: TxOut)
    requires Part(coins, made) && ValidTxs(made, coins, txs, |txs|) && Part(kept, coins)
    requires forall s :: s in BlockSpends(txs, |txs|) ==> s.prev != op
    requires (op in kept && out == kept[op]) || (op in MadeBy(txs, |txs|) && out == MadeBy(txs, |txs|)[op])
    ensures op in CoinsAfter(coins, txs, |txs|) && CoinsAfter(coins, txs, |txs|)[op] == out
  {
    StaysUnspent(coins, txs, |txs|, op);
    CoinsWithin(made, coins, txs, |txs|);
  }

  lemma {:induction false} Seeded(made: Outs, coins: Outs, txs: seq<Tx>, kept: Outs, intra: set<OutPoint>, cache: Outs)
    requires Part(coins, made) && ValidTxs(made, coins, txs, |txs|) && Part(kept, coins)
    requires intra <= MadeBy(txs, |txs|).Keys
    requires forall s :: s in BlockSpends(txs, |txs|) ==>
                           s.prev in intra || (s.prev !in kept && s.prev !in MadeBy(txs, |txs|))
    requires forall op :: op in cache && op !in MadeBy(txs, |txs|) ==> op in kept && cache[op] == kept[op]
    requires forall op :: op in cache && op in MadeBy(txs, |txs|) && op !in kept ==>
                            op !in intra && cache[op] == MadeBy(txs, |txs|)[op]
    ensures Part(cache, CoinsAfter(coins, txs, |txs|))
  {
    CoinsWithin(made, coins, txs, |txs|);
    forall op | op in cache
      ensures op in CoinsAfter(coins, txs, |txs|) && CoinsAfter(coins, txs, |txs|)[op] == cache[op]
    {
      CacheStays(made, coins, txs, kept, op, cache[op]);
    }
  }

  /** The parts of the index, for the blocks indexed so far. */
  ghost predicate Indexes(hash: Hasher, chain: seq<seq<Tx>>, made: Outs, coins: Outs, history: History,
                          balances: map<Hash, nat>, cache: Outs)
  {
    && Part(coins, made) && Part(cache, coins)
    && (forall h :: 0 <= h < |chain| ==> InputsKnown(made, chain[h]))
    && (forall key :: Net(balances, key) == Held(hash, coins, key))
    && HistoryIs(hash, made, chain, history)
  }

  lemma {:induction false} KnownMore(made: Outs, coins: Outs, chain: seq<seq<Tx>>, txs: seq<Tx>, more: seq<seq<Tx>>,
                                     outs: Outs, h: nat)
    requires Part(coins, made) && ValidTxs(made, coins, txs, |txs|) && outs == made + MadeBy(txs, |txs|)
    requires more == chain + [txs] && h < |more|
    requires forall h :: 0 <= h < |chain| ==> InputsKnown(made, chain[h])
    ensures InputsKnown(outs, more[h])
  {
    if h < |chain| {
      assert more[h] == chain[h] && InputsKnown(made, chain[h]);
    } else {
      forall i | 0 <= i < |txs|
        ensures Gone(txs[i]) <= outs.Keys
      {
        KnownBy(made, coins, txs, i);
      }
    }
  }

  /** The index of a valid chain. */
  ghost predicate IndexOf(hash: Hasher, chain: seq<seq<Tx>>, history: History, balances: map<Hash, nat>, cache: Outs)
  {
    && ValidChain(chain, |chain|)
    && Indexes(hash, chain, MadeChain(chain, |chain|), CoinsChain(chain, |chain|), history, balances, cache)
  }

  lemma {:induction false} ChainNext(chain: seq<seq<Tx>>, txs: seq<Tx>, more: seq<seq<Tx>>, n: nat)
    requires ValidChain(chain, |chain|) && ValidNext(chain, |chain|, txs) && more == chain + [txs] && n == |more|
    ensures ValidChain(more, n)
    ensures MadeChain(more, n) == MadeChain(chain, |chain|) + MadeBy(txs, |txs|)
    ensures CoinsChain(more, n) == CoinsAfter(CoinsChain(chain, |chain|), txs, |txs|)
  {
    Extend(chain, more, |chain|);
    assert more[n - 1] == txs;
  }

  lemma {:induction false} IndexOfNext(hash: Hasher, chain: seq<seq<Tx>>, txs: seq<Tx>, more: seq<seq<Tx>>, made: Outs,
                                       coins: Outs, history: History, balances: map<Hash, nat>, cache: Outs)
    requires ValidChain(chain, |chain|) && ValidNext(chain, |chain|, txs) && more == chain + [txs]
    requires made == MadeChain(chain, |chain|) + MadeBy(txs, |txs|)
    requires coins == CoinsAfter(CoinsChain(chain, |chain|), txs, |txs|)
    requires Indexes(hash, more, made, coins, history, balances, cache)
    ensures IndexOf(hash, more, history, balances, cache)
  {
    ChainNext(chain, txs, more, |more|);
  }

  /** The heights below the first indexed block, which hold nothing. */
  ghost function Blank(n: nat): (r: seq<seq<Tx>>)
    ensures |r| == n && forall i :: 0 <= i < n ==> r[i] == []
  {
    if n == 0 then [] else Blank(n - 1) + [[]]
  }

  lemma {:induction false} BlankChain(n: nat, k: nat)
    requires k <= n
    ensures ValidChain(Blank(n), k) && MadeChain(Blank(n), k) == map[] && CoinsChain(Blank(n), k) == map[]
  {
    if k > 0 {
      BlankChain(n, k - 1);
    }
  }

  lemma {:induction false} BlankIndex(hash: Hasher, n: nat)
    ensures IndexOf(hash, Blank(n), map[], map[], map[])
  {
    BlankChain(n, n);
    forall key
      ensures Held(hash, map[], key) == 0
    {
      assert Shares(hash, map[], key) == map[];
    }
  }

  // ----- A second block at one height

  /** Outputs under one outpoint are one output, as transaction ids promise. */
  ghost predicate Compatible(a: Outs, b: Outs)
  {
    forall op :: op in a && op in b ==> a[op] == b[op]
  }

  lemma {:induction false} ReplacementOuts(chain: seq<seq<Tx>>, j: nat, n: nat, txs: seq<Tx>, outs: Outs)
    requires n == j + 1 <= |chain| && ValidChain(chain, n) && ValidNext(chain, j, txs)
    requires Compatible(MadeBy(chain[j], |chain[j]|), MadeBy(txs, |txs|))
    requires outs == MadeChain(chain, n) + MadeBy(txs, |txs|)
    ensures Part(MadeChain(chain, n), outs) && Part(MadeChain(chain, j) + MadeBy(txs, |txs|), outs)
    ensures Part(CoinsChain(chain, j), MadeChain(chain, j)) && Part(MadeChain(chain, j), MadeChain(chain, n))
  {
    ChainWithin(chain, j);
    ChainGrows(chain, j, n);
    CoinsWithin(MadeChain(chain, j), CoinsChain(chain, j), txs, |txs|);
  }

  lemma {:induction false} ReplacementResolves(chain: seq<seq<Tx>>, j: nat, n: nat, txs: seq<Tx>, disk: Outs,
                                               outs: Outs, cache: Outs)
    requires n == j + 1 <= |chain| && ValidChain(chain, n) && ValidNext(chain, j, txs)
    requires Compatible(MadeBy(chain[j], |chain[j]|), MadeBy(txs, |txs|)) && Part(MadeChain(chain, j), disk)
    requires outs == MadeChain(chain, n) + MadeBy(txs, |txs|) && Part(cache, CoinsChain(chain, n))
    ensures Part(MadeBy(txs, |txs|), outs) && Part(cache, outs) && Resolves(disk, outs, txs)
  {
    var made := MadeChain(chain, j);
    ReplacementOuts(chain, j, n, txs, outs);
    ChainWithin(chain, n);
    PartTrans(cache, CoinsChain(chain, n), MadeChain(chain, n));
    PartTrans(cache, MadeChain(chain, n), outs);
    SpendsResolve(made, CoinsChain(chain, j), txs, |txs|, made + MadeBy(txs, |txs|));
    PartTrans(made, MadeChain(chain, n), outs);
  }

  /** Two blocks on the same chain: the balance after the first, changed by the net of the second. */
  lemma {:induction false} ReplacedBalance(hash: Hasher, chain: seq<seq<Tx>>, j: nat, n: nat, txs: seq<Tx>, outs: Outs,
                                           key: Hash)
    requires n == j + 1 <= |chain| && ValidChain(chain, n) && ValidNext(chain, j, txs)
    requires Compatible(MadeBy(chain[j], |chain[j]|), MadeBy(txs, |txs|))
    requires outs == MadeChain(chain, n) + MadeBy(txs, |txs|)
    ensures Held(hash, CoinsChain(chain, n), key) + NetOf(hash, outs, txs, key) ==
            Held(hash, CoinsAfter(CoinsChain(chain, j), txs, |txs|), key) +
            NetOf(hash, MadeChain(chain, n), chain[j], key)
  {
    var made, coins := MadeChain(chain, j), CoinsChain(chain, j);
    ReplacementOuts(chain, j, n, txs, outs);
    HeldAfter(hash, made, coins, txs, |txs|, outs, key);
    HeldAfter(hash, made, coins, chain[j], |chain[j]|, MadeChain(chain, n), key);
  }

  function Reward(txid: Txid, script: Script): Tx
  {
    Tx(txid, 1, 0, [TxIn(NULL_OUTPOINT, 0)], [TxOut(5, script)], 0, 0)
  }

  lemma {:induction false} RewardAlone(hash: Hasher, coins: Outs, txs: seq<Tx>, n: nat, txid: Txid, script: Script,
                                       key: Hash)
    requires coins == map[] && n == 1 && txs == [Reward(txid, script)]
    ensures ValidTxs(coins, coins, txs, n) && MadeBy(txs, n).Keys == {OutPoint(txid, 0)}
    ensures NetOf(hash, MadeBy(txs, n), txs, key) == if hash(script) == key then 5 else 0
    ensures Held(hash, CoinsAfter(coins, txs, n), key) == if hash(script) == key then 5 else 0
  {
    OutsAre(txs[0], 1);
    assert OutPoint(txid, 0) in OutsOf(txs[0], 1);
    assert MadeBy(txs, n - 1) == map[] && CoinsAfter(coins, txs, n - 1) == map[];
    assert ValidTxs(coins, coins, txs, n - 1);
    assert Received(hash, txs[0].outputs, n - 1, key) == 0;
    assert ReceivedBy(hash, txs, n - 1, key) == 0 && PaidBy(hash, MadeBy(txs, n), txs, n - 1, key) == 0;
    assert Shares(hash, map[], key) == map[];
    assert MadeBy(txs, n) == OutsOf(txs[0], 1);
    HeldAfter(hash, map[], map[], txs, n, MadeBy(txs, n), key);
  }

  /** A block that pays to a hash, and one that does not in its place: the hash still has its reward. */
  lemma {:induction false} ReorgMiscounts(hash: Hasher, script: Script, other: Script)
    requires hash(script) != hash(other)
    ensures var chain, txs, key := [[Reward(1, script)]], [Reward(2, other)], hash(script);
            && ValidChain(chain, |chain|) && ValidNext(chain, 0, txs)
            && Compatible(MadeBy(chain[0], |chain[0]|), MadeBy(txs, |txs|))
            && NetOf(hash, MadeChain(chain, |chain|), chain[0], key) == 5
            && Held(hash, CoinsAfter(CoinsChain(chain, 0), txs, |txs|), key) == 0
  {
    var chain, txs, key := [[Reward(1, script)]], [Reward(2, other)], hash(script);
    RewardAlone(hash, map[], chain[0], 1, 1, script, key);
    RewardAlone(hash, map[], txs, 1, 2, other, key);
    assert ValidChain(chain, 0) && MadeChain(chain, 0) == map[] && CoinsChain(chain, 0) == map[];
    assert MadeChain(chain, 1) == map[] + MadeBy(chain[0], 1) == MadeBy(chain[0], 1);
    assert ValidNext(chain, 0, chain[0]);
  }

  class ScripthashIndex {
    const hash: Hasher
    var history: History
    var balances: map<Hash, nat>
    var cache: Outs
    /** The blocks by height. */
    ghost var chain: seq<seq<Tx>>

    ghost predicate Valid()
      reads this
    {
      IndexOf(hash, chain, history, balances, cache)
    }

    /** An index that starts at a height. */
    constructor (hash: Hasher, ghost start: nat)
      ensures Valid() && chain == Blank(start) && this.hash == hash
    {
      this.hash, history, balances, cache, chain := hash, map[], map[], map[], Blank(start);
      new;
      BlankIndex(hash, start);
    }

    /** Index the next block of a valid chain with a disk that knows every earlier output. */
    method IndexBlock(txs: seq<Tx>, height: nat, disk: Outs, evicted: set<OutPoint>)
      requires Valid() && height == |chain| && ValidNext(chain, |chain|, txs) && Part(MadeChain(chain, |chain|), disk)
      modifies this
      ensures Valid() && chain == old(chain) + [txs]
    {
      ghost var made0, coins0 := MadeChain(chain, |chain|), CoinsChain(chain, |chain|);
      history, balances, cache := IndexNext(hash, chain, made0, coins0, history, balances, cache, txs, height, disk,
                                            evicted);
      ghost var more := chain + [txs];
      IndexOfNext(hash, chain, txs, more, made0 + MadeBy(txs, |txs|), CoinsAfter(coins0, txs, |txs|), history, balances,
                  cache);
      chain := more;
    }

    /** Index another block at the height of the last one, as after a reorganisation: nothing takes the dropped block
        out. A balance is then right exactly when the dropped block's net for its hash is zero, or is negative where
        nothing is held; the history lists the transactions of both blocks, where they do not share a place. */
    method IndexAgain(txs: seq<Tx>, height: nat, disk: Outs, evicted: set<OutPoint>)
      requires Valid() && |chain| > 0 && height == |chain| - 1
      requires ValidNext(chain, height, txs) && Compatible(MadeBy(chain[height], |chain[height]|), MadeBy(txs, |txs|))
      requires Part(MadeChain(chain, height), disk)
      modifies this
      ensures chain == old(chain)
      ensures var made, coins := MadeChain(chain, |chain|), CoinsAfter(CoinsChain(chain, height), txs, |txs|);
              forall key :: Net(balances, key) == Held(hash, coins, key) <==>
                var net := NetOf(hash, made, chain[height], key);
                net == 0 || (net < 0 && Held(hash, coins, key) == 0)
      ensures Extends(hash, MadeChain(chain, |chain|) + MadeBy(txs, |txs|), txs, height, old(history), history)
    {
      ghost var outs := MadeChain(chain, |chain|) + MadeBy(txs, |txs|);
      ghost var was := balances;
      ReplacementResolves(chain, height, |chain|, txs, disk, outs, cache);
      ghost var kept, intra;
      history, balances, cache, kept, intra := IndexValues(hash, outs, history, balances, cache, txs, height, disk,
                                                           evicted);
      forall key
        ensures var coins := CoinsAfter(CoinsChain(chain, height), txs, |txs|);
                Net(balances, key) == Clamp(Held(hash, coins, key) +
                                            NetOf(hash, MadeChain(chain, |chain|), chain[height], key))
      {
        assert Net(was, key) == Held(hash, CoinsChain(chain, |chain|), key);
        ReplacedBalance(hash, chain, height, |chain|, txs, outs, key);
      }
    }

    /** The confirmed balance: everything received minus everything spent, the value still unspent. */
    method Balance(key: Hash) returns (r: nat)
      requires Valid()
      ensures r == Held(hash, CoinsChain(chain, |chain|), key)
      ensures r ==
              ReceivedChain(hash, chain, |chain|, key) -
              PaidChain(hash, MadeChain(chain, |chain|), chain, |chain|, key)
    {
      HeldIsNet(hash, MadeChain(chain, |chain|), chain, |chain|, key);
      assert Net(balances, key) == Held(hash, CoinsChain(chain, |chain|), key);
      r := if key in balances then balances[key] else 0;
    }
  }

  /** What indexing a block changes, whatever was indexed before: balances by the block's net, clamped, and the history
      by the transactions concerned. */
  method IndexValues(hash: Hasher, ghost outs: Outs, history: History, balances: map<Hash, nat>, cache: Outs,
                     txs: seq<Tx>, height: nat, disk: Outs, evicted: set<OutPoint>)
    returns (history': History, balances': map<Hash, nat>, cache': Outs, ghost kept: Outs, ghost intra: set<OutPoint>)
    requires Part(MadeBy(txs, |txs|), outs) && Part(cache, outs) && Resolves(disk, outs, txs)
    ensures forall key :: Net(balances', key) == Clamp(Net(balances, key) + NetOf(hash, outs, txs, key))
    ensures Extends(hash, outs, txs, height, history, history')
    ensures Seeds(cache, txs, kept, intra, cache')
  {
    var credits, made := IndexOutputs(hash, txs);
    var t, spent, rest := Attribute(hash, outs, txs, made, credits, cache, disk);
    kept, intra := rest, spent;
    forall key
      ensures Net(t.deltas, key) == NetOf(hash, outs, txs, key)
    {
      NetIs(hash, outs, txs, t, key);
    }
    balances' := WriteBalances(balances, t.deltas);
    BlockTouches(hash, outs, txs, t);
    history' := WriteHistory(history, height, t.touches, txs);
    TouchesExtend(hash, outs, txs, t, height, history, history');
    cache' := Seed(rest, made, spent, evicted);
  }

  method IndexNext(hash: Hasher, ghost chain: seq<seq<Tx>>, ghost made0: Outs, ghost coins0: Outs, history: History,
                   balances: map<Hash, nat>, cache: Outs, txs: seq<Tx>, height: nat, disk: Outs, evicted: set<OutPoint>)
    returns (history': History, balances': map<Hash, nat>, cache': Outs)
    requires Indexes(hash, chain, made0, coins0, history, balances, cache)
    requires ValidTxs(made0, coins0, txs, |txs|) && Part(made0, disk) && height == |chain|
    ensures Indexes(hash, chain + [txs], made0 + MadeBy(txs, |txs|), CoinsAfter(coins0, txs, |txs|), history',
                    balances', cache')
  {
    ghost var outs, coins, more := made0 + MadeBy(txs, |txs|), CoinsAfter(coins0, txs, |txs|), chain + [txs];
    CoinsWithin(made0, coins0, txs, |txs|);
    SpendsResolve(made0, coins0, txs, |txs|, outs);
    ghost var kept, intra;
    history', balances', cache', kept, intra := IndexValues(hash, outs, history, balances, cache, txs, height, disk,
                                                            evicted);
    forall key
      ensures Net(balances', key) == Held(hash, coins, key)
    {
      HeldAfter(hash, made0, coins0, txs, |txs|, outs, key);
    }
    HistoryStep(hash, made0, outs, chain, txs, more, history, history');
    Seeded(made0, coins0, txs, kept, intra, cache');
    forall h | 0 <= h < |more|
      ensures InputsKnown(outs, more[h])
    {
      KnownMore(made0, coins0, chain, txs, more, outs, h);
    }
  }
}
