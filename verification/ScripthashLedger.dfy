/** The script hash index and the chain's coins: accepted blocks are what the index expects, and the balances
    are the value of the coins. */
module ScripthashLedger {
  import opened Maps
  import opened Sums
  import opened Transactions
  import opened Ledger
  import opened Scripthash
  import opened ScripthashIndex
  import Chain

  /** The unspent outputs are the coins and the unspendable outputs. */
  ghost predicate Mirrors(u: Utxos, coins: Outs)
  {
    && (forall op :: op in u <==> op in coins && !IsOpReturn(coins[op].script))
    && (forall op :: op in u ==> coins[op] == TxOut(u[op].amount, u[op].script))
  }

  lemma {:induction false} MirrorsMade(u: Utxos, coins: Outs, tx: Tx, height: nat, coinbase: bool)
    requires Mirrors(u, coins) && forall v :: 0 <= v < |tx.outputs| ==> OutPoint(tx.txid, v) !in coins
    ensures Mirrors(u + Created(tx, height, coinbase), coins + OutsOf(tx, |tx.outputs|))
  {
    OutputsAre(tx, height, coinbase, |tx.outputs|);
    OutsAre(tx, |tx.outputs|);
  }

  lemma {:induction false} MirrorsSpent(u: Utxos, coins: Outs, gone: set<OutPoint>)
    requires Mirrors(u, coins)
    ensures Mirrors(u - gone, coins - gone)
  {}

  lemma {:induction false} MirrorsStep(u: Utxos, coins: Outs, tx: Tx, height: nat, coinbase: bool)
    requires Mirrors(u, coins) && forall v :: 0 <= v < |tx.outputs| ==> OutPoint(tx.txid, v) !in coins
    requires coinbase <==> IsCoinbase(tx)
    ensures Mirrors(ApplyTx(u, tx, height, coinbase), (coins - Gone(tx)) + OutsOf(tx, |tx.outputs|))
  {
    MirrorsSpent(u, coins, Gone(tx));
    assert IsCoinbase(tx) ==> u - Gone(tx) == u;
    MirrorsMade(u - Gone(tx), coins - Gone(tx), tx, height, coinbase);
  }

  /** The first transaction is the coinbase, and no output was ever made before. */
  ghost predicate Indexable(made: Outs, txs: seq<Tx>)
  {
    && (forall k :: 0 <= k < |txs| ==> (IsCoinbase(txs[k]) <==> k == 0))
    && (forall k, v :: 0 <= k < |txs| && 0 <= v < |txs[k].outputs| ==> OutPoint(txs[k].txid, v) !in made)
  }

  lemma {:induction false} MadeIds(txs: seq<Tx>, k: nat)
    requires k <= |txs|
    ensures forall op :: op in MadeBy(txs, k) ==> op.txid in Txids(txs, k)
  {
    if k > 0 {
      MadeIds(txs, k - 1);
      OutsAre(txs[k - 1], |txs[k - 1].outputs|);
    }
  }

  lemma {:induction false} IndexableTx(u: Utxos, made: Outs, coins: Outs, txs: seq<Tx>, height: nat, k: nat)
    requires k < |txs| && Follows(u, txs, height, k) && Indexable(made, txs)
    requires Mirrors(After(u, txs, height, k), coins)
    ensures ValidTx(made + MadeBy(txs, k), coins, txs[k])
  {
    MadeIds(txs, k);
  }

  /** Blocks that replay on the coins are valid for the index, which then mirrors the coins after them. */
  lemma {:induction false} ReplayIsIndexed(u: Utxos, made: Outs, coins: Outs, txs: seq<Tx>, height: nat, k: nat)
    requires k <= |txs| && Replays(u, txs, height, k) && Indexable(made, txs)
    requires Mirrors(u, coins) && Part(coins, made)
    ensures ValidTxs(made, coins, txs, k) && Mirrors(After(u, txs, height, k), CoinsAfter(coins, txs, k))
  {
    if k > 0 {
      var j := k - 1;
      ReplayIsIndexed(u, made, coins, txs, height, j);
      IndexableTx(u, made, CoinsAfter(coins, txs, j), txs, height, j);
      CoinsWithin(made, coins, txs, j);
      MirrorsStep(After(u, txs, height, j), CoinsAfter(coins, txs, j), txs[j], height, k == 1);
    }
  }

  lemma {:induction false} AcceptedIsIndexed(ctx: Context, u: Utxos, made: Outs, coins: Outs, txs: seq<Tx>)
    requires Identified(ctx, u, txs) && BlockAccepted(ctx, u, txs) && Indexable(made, txs)
    requires Mirrors(u, coins) && Part(coins, made)
    ensures ValidTxs(made, coins, txs, |txs|)
    ensures Mirrors(After(u, txs, ctx.height, |txs|), CoinsAfter(coins, txs, |txs|))
  {
    AcceptedReplays(ctx, u, txs, |txs|);
    ReplayIsIndexed(u, made, coins, txs, ctx.height, |txs|);
  }

  /** The coins whose script has a hash. */
  ghost function OwnedCoins(hash: Hasher, u: Utxos, key: Hash): Utxos
  {
    map op | op in u && hash(u[op].script) == key :: u[op]
  }

  lemma {:induction false} DropZeros(m: map<OutPoint, nat>, part: set<OutPoint>)
    requires part <= m.Keys && forall op :: op in m && op !in part ==> m[op] == 0
    ensures Sum(m) == Sum(map op | op in part :: m[op])
    decreases m.Keys - part
  {
    if m.Keys - part == {} {
      assert m.Keys == part + (m.Keys - part);
      assert (map op | op in part :: m[op]) == m;
    } else {
      var op := PickOne(m.Keys - part);
      SumWithout(m, op);
      DropLess(m, part, op);
    }
  }

  lemma {:induction false} DropLess(m: map<OutPoint, nat>, part: set<OutPoint>, op: OutPoint)
    requires part <= m.Keys && op in m && op !in part && forall o :: o in m && o !in part ==> m[o] == 0
    ensures Sum(m - {op}) == Sum(map o | o in part :: m[o])
    decreases m.Keys - part, 0
  {
    var less := m - {op};
    assert less.Keys - part < m.Keys - part by {
      assert op in m.Keys - part && op !in less.Keys - part;
    }
    DropZeros(less, part);
    assert (map o | o in part :: less[o]) == (map o | o in part :: m[o]);
  }

  /** Unspent outputs that never become coins. */
  ghost function Burned(coins: Outs): Outs
  {
    map op | op in coins && IsOpReturn(coins[op].script) :: coins[op]
  }

  /** The shares of the coins. */
  ghost function Live(hash: Hasher, u: Utxos, key: Hash): map<OutPoint, nat>
  {
    map op | op in u :: if hash(u[op].script) == key then u[op].amount else 0
  }

  lemma {:induction false} LiveIsTotal(hash: Hasher, u: Utxos, key: Hash)
    ensures Sum(Live(hash, u, key)) == Total(OwnedCoins(hash, u, key))
  {
    var part := OwnedCoins(hash, u, key).Keys;
    DropZeros(Live(hash, u, key), part);
    assert (map op | op in part :: Live(hash, u, key)[op]) == Amounts(OwnedCoins(hash, u, key));
  }

  lemma {:induction false} SharesSplit(hash: Hasher, u: Utxos, coins: Outs, key: Hash)
    requires Mirrors(u, coins)
    ensures Live(hash, u, key).Keys !! Shares(hash, Burned(coins), key).Keys
    ensures Shares(hash, coins, key) == Live(hash, u, key) + Shares(hash, Burned(coins), key)
  {}

  /** What a hash holds is the value of its coins and of its unspendable outputs. */
  lemma {:induction false} HeldIsCoins(hash: Hasher, u: Utxos, coins: Outs, key: Hash)
    requires Mirrors(u, coins)
    ensures Held(hash, coins, key) == Total(OwnedCoins(hash, u, key)) + Held(hash, Burned(coins), key)
  {
    SharesSplit(hash, u, coins, key);
    SumUnion(Live(hash, u, key), Shares(hash, Burned(coins), key));
    LiveIsTotal(hash, u, key);
  }

  // ----- The whole chain

  /** The transactions by height; the chain's first block has height 1. */
  ghost function Lists(chain: seq<Block>): (r: seq<seq<Tx>>)
    ensures |r| == |chain| + 1
  {
    if |chain| == 0 then Blank(1) else Lists(chain[..|chain| - 1]) + [chain[|chain| - 1].txs]
  }

  /** Every block of the chain is as the index expects. */
  ghost predicate AllIndexable(chain: seq<Block>)
  {
    |chain| == 0 ||
    var front, last := chain[..|chain| - 1], chain[|chain| - 1];
    AllIndexable(front) && Indexable(MadeChain(Lists(front), |chain|), last.txs)
  }

  /** A sound chain is valid for the index, which mirrors its coins. */
  lemma {:induction false} ChainIsIndexed(genesis: nat, interval: nat, chain: seq<Block>, n: nat)
    requires interval > 0 && Chain.Sound(genesis, interval, chain) && AllIndexable(chain) && n == |chain| + 1
    ensures ValidChain(Lists(chain), n) && Mirrors(Chain.Coins(chain), CoinsChain(Lists(chain), n))
    decreases |chain|
  {
    if |chain| == 0 {
      BlankChain(1, 1);
    } else {
      var front, last, k := chain[..|chain| - 1], chain[|chain| - 1], |chain|;
      ChainIsIndexed(genesis, interval, front, k);
      ChainWithin(Lists(front), k);
      ReplayIsIndexed(Chain.Coins(front), MadeChain(Lists(front), k), CoinsChain(Lists(front), k), last.txs, k,
                      |last.txs|);
      ChainNext(Lists(front), last.txs, Lists(chain), n);
    }
  }

  /** The balances of an index of a sound chain are the value of the chain's coins and of what it burned. */
  lemma {:induction false} ChainBalance(genesis: nat, interval: nat, chain: seq<Block>, hash: Hasher, history: History,
                                        balances: map<Hash, nat>, cache: Outs, key: Hash)
    requires interval > 0 && Chain.Sound(genesis, interval, chain) && AllIndexable(chain)
    requires IndexOf(hash, Lists(chain), history, balances, cache)
    ensures Net(balances, key) ==
            Total(OwnedCoins(hash, Chain.Coins(chain), key)) +
            Held(hash, Burned(CoinsChain(Lists(chain), |chain| + 1)), key)
  {
    ChainIsIndexed(genesis, interval, chain, |chain| + 1);
    HeldIsCoins(hash, Chain.Coins(chain), CoinsChain(Lists(chain), |chain| + 1), key);
  }
}
