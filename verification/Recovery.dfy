/** Recovery after a crash in the middle of a flush: blocks are replayed on a set that already holds some of the
    coins they lead to. */
module Recovery {
  import opened Maps
  import opened Transactions
  import opened Ledger
  import Chain

  // ----- One block on a set with extra coins

  lemma {:induction false} ApplyWith(u: Utxos, extra: Utxos, gone: set<OutPoint>, created: Utxos)
    requires extra.Keys !! gone && forall op :: op in extra && op in created ==> extra[op] == created[op]
    ensures ((u + extra) - gone) + created == ((u - gone) + created) + extra
  {}

  /** Transaction `k` neither spends an extra coin nor makes it differently. */
  ghost predicate TxAhead(extra: Utxos, txs: seq<Tx>, height: nat, k: nat)
    requires k < |txs|
  {
    && (k > 0 ==> extra.Keys !! Prevouts(txs[k]))
    && forall op :: op in extra && op in Created(txs[k], height, k == 0) ==>
                      extra[op] == Created(txs[k], height, k == 0)[op]
  }

  ghost predicate AllAhead(extra: Utxos, txs: seq<Tx>, height: nat, n: nat)
    requires n <= |txs|
  {
    forall j :: 0 <= j < n ==> TxAhead(extra, txs, height, j)
  }

  /** The extra coins stay extra until the block has caught up with them. */
  lemma {:induction false} AfterWith(u: Utxos, extra: Utxos, w: Utxos, txs: seq<Tx>, height: nat, k: nat)
    requires k <= |txs| && AllAhead(extra, txs, height, k) && w == u + extra
    ensures After(w, txs, height, k) == After(u, txs, height, k) + extra
  {
    if k > 0 {
      var j := k - 1;
      AfterWith(u, extra, w, txs, height, j);
      assert TxAhead(extra, txs, height, j);
      ApplyAhead(After(u, txs, height, j), extra, After(w, txs, height, j), txs[j], height, k == 1);
    }
  }

  lemma {:induction false} ApplyAhead(u: Utxos, extra: Utxos, w: Utxos, tx: Tx, height: nat, coinbase: bool)
    requires w == u + extra && (!coinbase ==> extra.Keys !! Prevouts(tx))
    requires forall op :: op in extra && op in Created(tx, height, coinbase) ==>
                            extra[op] == Created(tx, height, coinbase)[op]
    ensures ApplyTx(w, tx, height, coinbase) == ApplyTx(u, tx, height, coinbase) + extra
  {
    var gone := if coinbase then {} else Prevouts(tx);
    ApplyWith(u, extra, gone, Created(tx, height, coinbase));
    assert coinbase ==> u - gone == u && w - gone == w;
  }

  /** Coins that are not spent do not matter to a list of inputs. */
  lemma {:induction false} SameInputs(ctx: Context, u: Utxos, extra: Utxos, inputs: seq<TxIn>)
    requires extra.Keys !! PrevoutSet(inputs)
    ensures AllSpendable(ctx, u + extra, inputs) <==> AllSpendable(ctx, u, inputs)
    ensures ValueIn(u + extra, inputs) == ValueIn(u, inputs) && CoinsOf(u + extra, inputs) == CoinsOf(u, inputs)
  {
    if |inputs| > 0 {
      SameInputs(ctx, u, extra, inputs[..|inputs| - 1]);
    }
  }

  lemma {:induction false} SameSpends(ctx: Context, u: Utxos, extra: Utxos, tx: Tx)
    requires extra.Keys !! Prevouts(tx)
    ensures Spends(ctx, u + extra, tx) <==> Spends(ctx, u, tx)
  {
    SameInputs(ctx, u, extra, tx.inputs);
  }

  /** No output of the block is among the extra coins. */
  ghost predicate NoneWritten(extra: Utxos, txs: seq<Tx>, n: nat)
    requires n <= |txs|
  {
    forall k :: 0 <= k < n ==> NotYetCreated(extra, txs[k])
  }

  lemma {:induction false} NoneWrittenNext(extra: Utxos, txs: seq<Tx>, j: nat, n: nat)
    requires n == j + 1 <= |txs|
    ensures NoneWritten(extra, txs, n) <==> NoneWritten(extra, txs, j) && NotYetCreated(extra, txs[j])
  {}

  lemma {:induction false} SameStandalone(ctx: Context, u: Utxos, extra: Utxos, tx: Tx)
    ensures Standalone(ctx, u + extra, tx) <==> Standalone(ctx, u, tx) && (ctx.bip30 ==> NotYetCreated(extra, tx))
  {}

  lemma {:induction false} SameVerdict(ctx: Context, u: Utxos, extra: Utxos, txs: seq<Tx>, k: nat)
    requires k < |txs| && AllAhead(extra, txs, ctx.height, k + 1)
    ensures TxAccepted(ctx, u + extra, txs, k) <==>
            TxAccepted(ctx, u, txs, k) && (ctx.bip30 ==> NotYetCreated(extra, txs[k]))
  {
    SameStandalone(ctx, u, extra, txs[k]);
    if k > 0 {
      assert TxAhead(extra, txs, ctx.height, k);
      AfterWith(u, extra, u + extra, txs, ctx.height, k);
      SameSpends(ctx, After(u, txs, ctx.height, k), extra, txs[k]);
    }
  }

  lemma {:induction false} SameVerdicts(ctx: Context, u: Utxos, extra: Utxos, txs: seq<Tx>, n: nat)
    requires n <= |txs| && AllAhead(extra, txs, ctx.height, n)
    ensures TxsAccepted(ctx, u + extra, txs, n) <==>
            TxsAccepted(ctx, u, txs, n) && (ctx.bip30 ==> NoneWritten(extra, txs, n))
  {
    if n > 0 {
      SameVerdicts(ctx, u, extra, txs, n - 1);
      SameVerdict(ctx, u, extra, txs, n - 1);
      NoneWrittenNext(extra, txs, n - 1, n);
    }
  }

  lemma {:induction false} SameView(ctx: Context, u: Utxos, extra: Utxos, txs: seq<Tx>, j: nat)
    requires 0 < j < |txs| && AllAhead(extra, txs, ctx.height, j + 1)
    ensures ValueIn(After(u + extra, txs, ctx.height, j), txs[j].inputs) ==
            ValueIn(After(u, txs, ctx.height, j), txs[j].inputs)
    ensures CoinsOf(After(u + extra, txs, ctx.height, j), txs[j].inputs) ==
            CoinsOf(After(u, txs, ctx.height, j), txs[j].inputs)
  {
    assert TxAhead(extra, txs, ctx.height, j);
    AfterWith(u, extra, u + extra, txs, ctx.height, j);
    SameInputs(ctx, After(u, txs, ctx.height, j), extra, txs[j].inputs);
  }

  lemma {:induction false} SameFees(ctx: Context, u: Utxos, extra: Utxos, txs: seq<Tx>, n: nat)
    requires n <= |txs| && AllAhead(extra, txs, ctx.height, n)
    ensures Fees(ctx.height, u + extra, txs, n) == Fees(ctx.height, u, txs, n)
  {
    if n > 1 {
      var j := n - 1;
      SameFees(ctx, u, extra, txs, j);
      SameView(ctx, u, extra, txs, j);
    }
  }

  lemma {:induction false} SameSigops(ctx: Context, u: Utxos, extra: Utxos, txs: seq<Tx>, n: nat)
    requires n <= |txs| && AllAhead(extra, txs, ctx.height, n)
    ensures Sigops(ctx, u + extra, txs, n) == Sigops(ctx, u, txs, n)
  {
    if n > 0 {
      var j := n - 1;
      SameSigops(ctx, u, extra, txs, j);
      if j > 0 {
        SameView(ctx, u, extra, txs, j);
      }
    }
  }

  /** A block is accepted on the set with the extra coins exactly when it is accepted without them and the BIP 30 rule
      is off for it or none of its own outputs is among them. */
  lemma {:induction false} AcceptedAhead(ctx: Context, u: Utxos, extra: Utxos, txs: seq<Tx>)
    requires AllAhead(extra, txs, ctx.height, |txs|)
    ensures BlockAccepted(ctx, u + extra, txs) <==>
            BlockAccepted(ctx, u, txs) && (ctx.bip30 ==> NoneWritten(extra, txs, |txs|))
  {
    SameVerdicts(ctx, u, extra, txs, |txs|);
    SameFees(ctx, u, extra, txs, |txs|);
    SameSigops(ctx, u, extra, txs, |txs|);
  }

  // ----- A stretch of moves

  /** What a block does to the coins: it adds some, then takes some away. */
  datatype Move = Move(created: Utxos, spent: set<OutPoint>)

  ghost function Moved(u: Utxos, moves: seq<Move>, n: nat): Utxos
    requires n <= |moves|
  {
    if n == 0 then u else (Moved(u, moves, n - 1) + moves[n - 1].created) - moves[n - 1].spent
  }

  /** Every outpoint that was ever a coin by then. */
  ghost function Made(made: set<OutPoint>, moves: seq<Move>, n: nat): set<OutPoint>
    requires n <= |moves|
  {
    if n == 0 then made else Made(made, moves, n - 1) + moves[n - 1].created.Keys
  }

  /** Only coins that exist are spent, and no coin is made that was ever made before. */
  ghost predicate FreshMove(made: set<OutPoint>, u: Utxos, moves: seq<Move>, i: nat)
    requires i < |moves|
  {
    && moves[i].created.Keys !! Made(made, moves, i)
    && moves[i].spent <= Moved(u, moves, i).Keys + moves[i].created.Keys
  }

  ghost predicate Fresh(made: set<OutPoint>, u: Utxos, moves: seq<Move>)
  {
    u.Keys <= made && forall i :: 0 <= i < |moves| ==> FreshMove(made, u, moves, i)
  }

  lemma {:induction false} CoinsWereMade(made: set<OutPoint>, u: Utxos, moves: seq<Move>, n: nat)
    requires Fresh(made, u, moves) && n <= |moves|
    ensures Moved(u, moves, n).Keys <= Made(made, moves, n)
  {
    if n > 0 {
      CoinsWereMade(made, u, moves, n - 1);
    }
  }

  /** A coin that is gone does not come back. */
  lemma {:induction false} GoneForGood(made: set<OutPoint>, u: Utxos, moves: seq<Move>, i: nat, n: nat, op: OutPoint)
    requires Fresh(made, u, moves) && i <= n <= |moves|
    requires op in Made(made, moves, i) && op !in Moved(u, moves, i)
    ensures op in Made(made, moves, n) && op !in Moved(u, moves, n)
  {
    if i < n {
      GoneForGood(made, u, moves, i, n - 1, op);
      assert FreshMove(made, u, moves, n - 1);
    }
  }

  lemma {:induction false} SpentIsGone(made: set<OutPoint>, u: Utxos, moves: seq<Move>, i: nat, n: nat, op: OutPoint)
    requires Fresh(made, u, moves) && i < n <= |moves| && op in moves[i].spent
    ensures op !in Moved(u, moves, n)
  {
    var k := i + 1;
    assert FreshMove(made, u, moves, i);
    CoinsWereMade(made, u, moves, i);
    assert Made(made, moves, k) == Made(made, moves, i) + moves[i].created.Keys;
    assert Moved(u, moves, k) == (Moved(u, moves, i) + moves[i].created) - moves[i].spent;
    GoneForGood(made, u, moves, k, n, op);
  }

  /** A coin that is still there at the end has been the same coin since it was made. */
  lemma {:induction false} StillThere(made: set<OutPoint>, u: Utxos, moves: seq<Move>, i: nat, n: nat, op: OutPoint)
    requires Fresh(made, u, moves) && i <= n <= |moves| && op in Moved(u, moves, n) && op in Moved(u, moves, i)
    ensures Moved(u, moves, i)[op] == Moved(u, moves, n)[op]
  {
    if i < n {
      var j := n - 1;
      assert FreshMove(made, u, moves, j);
      CoinsWereMade(made, u, moves, i);
      MadeGrows(made, moves, i, j, op);
      assert op !in moves[j].created;
      StillThere(made, u, moves, i, j, op);
    }
  }

  lemma {:induction false} MadeGrows(made: set<OutPoint>, moves: seq<Move>, i: nat, n: nat, op: OutPoint)
    requires i <= n <= |moves| && op in Made(made, moves, i)
    ensures op in Made(made, moves, n)
  {
    if i < n {
      MadeGrows(made, moves, i, n - 1, op);
    }
  }

  // ----- A stretch of blocks

  /** The coins after the first `n` blocks above height `h`. */
  ghost function WindowCoins(u: Utxos, h: nat, blocks: seq<seq<Tx>>, n: nat): Utxos
    requires n <= |blocks|
  {
    if n == 0 then u else After(WindowCoins(u, h, blocks, n - 1), blocks[n - 1], h + n, |blocks[n - 1]|)
  }

  ghost function MoveOf(txs: seq<Tx>, height: nat): Move
  {
    Move(CreatedBy(txs, height, |txs|), SpentBy(txs, |txs|))
  }

  ghost function Moves(h: nat, blocks: seq<seq<Tx>>, n: nat): (r: seq<Move>)
    requires n <= |blocks|
    ensures |r| == n
  {
    if n == 0 then [] else Moves(h, blocks, n - 1) + [MoveOf(blocks[n - 1], h + n)]
  }

  lemma {:induction false} MovesAt(h: nat, blocks: seq<seq<Tx>>, n: nat, i: nat)
    requires i < n <= |blocks|
    ensures Moves(h, blocks, n)[i] == MoveOf(blocks[i], h + i + 1)
  {
    if i < n - 1 {
      MovesAt(h, blocks, n - 1, i);
    }
  }

  /** Every block replays on the coins before it. */
  ghost predicate ReplaysAll(u: Utxos, h: nat, blocks: seq<seq<Tx>>, n: nat)
    requires n <= |blocks|
  {
    n == 0 ||
    (ReplaysAll(u, h, blocks, n - 1) &&
     Replays(WindowCoins(u, h, blocks, n - 1), blocks[n - 1], h + n, |blocks[n - 1]|))
  }

  lemma {:induction false} OneMove(u: Utxos, txs: seq<Tx>, height: nat, after: Utxos, m: Move)
    requires Replays(u, txs, height, |txs|) && m == MoveOf(txs, height) && after == After(u, txs, height, |txs|)
    ensures after == (u + m.created) - m.spent && m.spent <= u.Keys + m.created.Keys
  {
    TracksAll(u, txs, height, |txs|);
  }

  /** Blocks that replay move the coins as their sets say. */
  lemma {:induction false} WindowMoves(u: Utxos, h: nat, blocks: seq<seq<Tx>>, moves: seq<Move>, n: nat)
    requires n <= |blocks| == |moves| && ReplaysAll(u, h, blocks, n)
    requires forall i :: 0 <= i < n ==> moves[i] == MoveOf(blocks[i], h + i + 1)
    ensures WindowCoins(u, h, blocks, n) == Moved(u, moves, n)
  {
    if n > 0 {
      var j := n - 1;
      WindowMoves(u, h, blocks, moves, j);
      OneMove(WindowCoins(u, h, blocks, j), blocks[j], h + n, WindowCoins(u, h, blocks, n), moves[j]);
    }
  }

  lemma {:induction false} ReplaysAt(u: Utxos, h: nat, blocks: seq<seq<Tx>>, i: nat, n: nat)
    requires i < n <= |blocks| && ReplaysAll(u, h, blocks, n)
    ensures ReplaysAll(u, h, blocks, i) && Replays(WindowCoins(u, h, blocks, i), blocks[i], h + i + 1, |blocks[i]|)
  {
    if i < n - 1 {
      ReplaysAt(u, h, blocks, i, n - 1);
    }
  }

  /** The blocks replay from `u`, and no coin is made that was ever made before. */
  ghost predicate Window(made: set<OutPoint>, u: Utxos, h: nat, blocks: seq<seq<Tx>>)
  {
    && ReplaysAll(u, h, blocks, |blocks|) && u.Keys <= made
    && forall i :: 0 <= i < |blocks| ==> NewBlock(made, h, blocks, i)
  }

  ghost predicate NewBlock(made: set<OutPoint>, h: nat, blocks: seq<seq<Tx>>, i: nat)
    requires i < |blocks|
  {
    MoveOf(blocks[i], h + i + 1).created.Keys !! Made(made, Moves(h, blocks, |blocks|), i)
  }

  lemma {:induction false} MovesAre(h: nat, blocks: seq<seq<Tx>>, moves: seq<Move>)
    requires moves == Moves(h, blocks, |blocks|)
    ensures forall i :: 0 <= i < |blocks| ==> moves[i] == MoveOf(blocks[i], h + i + 1)
  {
    forall i | 0 <= i < |blocks|
      ensures moves[i] == MoveOf(blocks[i], h + i + 1)
    {
      MovesAt(h, blocks, |blocks|, i);
    }
  }

  lemma {:induction false} WindowIsMoved(u: Utxos, h: nat, blocks: seq<seq<Tx>>, moves: seq<Move>, i: nat)
    requires ReplaysAll(u, h, blocks, |blocks|) && moves == Moves(h, blocks, |blocks|) && i <= |blocks|
    ensures WindowCoins(u, h, blocks, i) == Moved(u, moves, i)
  {
    MovesAre(h, blocks, moves);
    if i < |blocks| {
      ReplaysAt(u, h, blocks, i, |blocks|);
    }
    WindowMoves(u, h, blocks, moves, i);
  }

  lemma {:induction false} WindowMoveIsFresh(made: set<OutPoint>, u: Utxos, h: nat, blocks: seq<seq<Tx>>,
                                             moves: seq<Move>, i: nat)
    requires Window(made, u, h, blocks) && moves == Moves(h, blocks, |blocks|) && i < |blocks|
    ensures FreshMove(made, u, moves, i)
  {
    var now := WindowCoins(u, h, blocks, i);
    assert NewBlock(made, h, blocks, i);
    MovesAt(h, blocks, |blocks|, i);
    WindowIsMoved(u, h, blocks, moves, i);
    ReplaysAt(u, h, blocks, i, |blocks|);
    OneMove(now, blocks[i], h + i + 1, After(now, blocks[i], h + i + 1, |blocks[i]|), moves[i]);
  }

  lemma {:induction false} WindowIsFresh(made: set<OutPoint>, u: Utxos, h: nat, blocks: seq<seq<Tx>>, moves: seq<Move>)
    requires Window(made, u, h, blocks) && moves == Moves(h, blocks, |blocks|)
    ensures Fresh(made, u, moves)
  {
    forall i | 0 <= i < |blocks|
      ensures FreshMove(made, u, moves, i)
    {
      WindowMoveIsFresh(made, u, h, blocks, moves, i);
    }
  }

  /** Coins of the end of the window are ahead of each of its blocks. */
  lemma {:induction false} WindowAhead(made: set<OutPoint>, u: Utxos, h: nat, blocks: seq<seq<Tx>>, extra: Utxos,
                                       i: nat, height: nat)
    requires Window(made, u, h, blocks) && i < |blocks| && height == h + i + 1
    requires Part(extra, WindowCoins(u, h, blocks, |blocks|))
    ensures AllAhead(extra, blocks[i], height, |blocks[i]|)
  {
    var moves := Moves(h, blocks, |blocks|);
    WindowIsFresh(made, u, h, blocks, moves);
    WindowIsMoved(u, h, blocks, moves, |blocks|);
    MovesAt(h, blocks, |blocks|, i);
    ReplaysAt(u, h, blocks, i, |blocks|);
    forall j | 0 <= j < |blocks[i]|
      ensures TxAhead(extra, blocks[i], height, j)
    {
      MoveAhead(made, u, moves, extra, i, WindowCoins(u, h, blocks, i), blocks[i], height, j);
    }
  }

  lemma {:induction false} MoveAhead(made: set<OutPoint>, u: Utxos, moves: seq<Move>, extra: Utxos, i: nat, now: Utxos,
                                     txs: seq<Tx>, height: nat, j: nat)
    requires Fresh(made, u, moves) && i < |moves| && j < |txs| && Part(extra, Moved(u, moves, |moves|))
    requires moves[i] == MoveOf(txs, height) && Replays(now, txs, height, |txs|)
    ensures TxAhead(extra, txs, height, j)
  {
    forall op | op in extra && j > 0
      ensures op !in Prevouts(txs[j])
    {
      SpentGrows(txs, j, |txs|);
      if op in moves[i].spent {
        SpentIsGone(made, u, moves, i, |moves|, op);
      }
    }
    forall op | op in extra && op in Created(txs[j], height, j == 0)
      ensures extra[op] == Created(txs[j], height, j == 0)[op]
    {
      CreatedStays(now, txs, height, j, |txs|, op);
      MadeStays(made, u, moves, i, |moves|, op);
    }
  }

  /** A coin made by a move and there at the end is as it was made. */
  lemma {:induction false} MadeStays(made: set<OutPoint>, u: Utxos, moves: seq<Move>, i: nat, n: nat, op: OutPoint)
    requires Fresh(made, u, moves) && i < n <= |moves| && op in moves[i].created && op in Moved(u, moves, n)
    ensures Moved(u, moves, n)[op] == moves[i].created[op]
  {
    var k := i + 1;
    if op in moves[i].spent {
      SpentIsGone(made, u, moves, i, n, op);
    } else {
      assert Moved(u, moves, k) == (Moved(u, moves, i) + moves[i].created) - moves[i].spent;
      StillThere(made, u, moves, k, n, op);
    }
  }

  ghost predicate BlockAhead(extra: Utxos, h: nat, blocks: seq<seq<Tx>>, i: nat)
    requires i < |blocks|
  {
    AllAhead(extra, blocks[i], h + i + 1, |blocks[i]|)
  }

  ghost predicate BlocksAhead(extra: Utxos, h: nat, blocks: seq<seq<Tx>>)
  {
    forall i :: 0 <= i < |blocks| ==> BlockAhead(extra, h, blocks, i)
  }

  lemma {:induction false} WindowsAhead(made: set<OutPoint>, u: Utxos, h: nat, blocks: seq<seq<Tx>>, extra: Utxos)
    requires Window(made, u, h, blocks) && Part(extra, WindowCoins(u, h, blocks, |blocks|))
    ensures BlocksAhead(extra, h, blocks)
  {
    forall i | 0 <= i < |blocks|
      ensures BlockAhead(extra, h, blocks, i)
    {
      WindowAhead(made, u, h, blocks, extra, i, h + i + 1);
    }
  }

  /** Replaying blocks from a set with coins ahead of them only ever adds those coins. */
  lemma {:induction false} ReplayAhead(u: Utxos, h: nat, blocks: seq<seq<Tx>>, extra: Utxos, w: Utxos, i: nat)
    requires BlocksAhead(extra, h, blocks) && i <= |blocks| && w == u + extra
    ensures WindowCoins(w, h, blocks, i) == WindowCoins(u, h, blocks, i) + extra
  {
    if i > 0 {
      var j := i - 1;
      ReplayAhead(u, h, blocks, extra, w, j);
      assert BlockAhead(extra, h, blocks, j);
      AfterWith(WindowCoins(u, h, blocks, j), extra, WindowCoins(w, h, blocks, j), blocks[j], h + i, |blocks[j]|);
    }
  }

  /** Replaying the window from a set that already holds some of its final coins ends in its final coins. */
  lemma {:induction false} ReplayRecovers(made: set<OutPoint>, u: Utxos, h: nat, blocks: seq<seq<Tx>>, extra: Utxos)
    requires Window(made, u, h, blocks) && Part(extra, WindowCoins(u, h, blocks, |blocks|))
    ensures WindowCoins(u + extra, h, blocks, |blocks|) == WindowCoins(u, h, blocks, |blocks|)
  {
    WindowsAhead(made, u, h, blocks, extra);
    ReplayAhead(u, h, blocks, extra, u + extra, |blocks|);
    Absorbed(WindowCoins(u, h, blocks, |blocks|), extra);
  }

  /** Each block of the replay is accepted exactly as it was the first time, except that the BIP 30 rule, where it is
      on, rejects a block one of whose outputs is already in the set. */
  lemma {:induction false} ReplayAccepts(ctx: Context, made: set<OutPoint>, u: Utxos, h: nat, blocks: seq<seq<Tx>>,
                                         extra: Utxos, i: nat)
    requires Window(made, u, h, blocks) && i < |blocks| && Part(extra, WindowCoins(u, h, blocks, |blocks|))
    requires ctx.height == h + i + 1
    ensures BlockAccepted(ctx, WindowCoins(u + extra, h, blocks, i), blocks[i]) <==>
            BlockAccepted(ctx, WindowCoins(u, h, blocks, i), blocks[i]) &&
            (ctx.bip30 ==> NoneWritten(extra, blocks[i], |blocks[i]|))
  {
    WindowsAhead(made, u, h, blocks, extra);
    assert BlockAhead(extra, h, blocks, i);
    ReplayAhead(u, h, blocks, extra, u + extra, i);
    AcceptedAhead(ctx, WindowCoins(u, h, blocks, i), extra, blocks[i]);
  }

  /** A block that was accepted, and is rejected when it is replayed after a crash that left its output on disk. */
  lemma {:induction false} ReplayRejected() returns (ctx: Context, txs: seq<Tx>, extra: Utxos)
    ensures ctx.height == 1 && ctx.bip30 && Identified(ctx, map[], txs) && BlockAccepted(ctx, map[], txs)
    ensures Part(extra, After(map[], txs, ctx.height, |txs|)) && !BlockAccepted(ctx, map[] + extra, txs)
  {
    var coinbase := Tx(1, 1, 0, [TxIn(NULL_OUTPOINT, 0)], [TxOut(5, [0x51])], 0, 0);
    ctx, txs := Chain.PlainContext(1, true), [coinbase];
    var u: Utxos := map[];
    Chain.OneAccepted(ctx, u, txs, 1);
    extra := After(u, txs, ctx.height, |txs|);
    Chain.OneForOneEffect(u, coinbase, 1, NULL_OUTPOINT, ctx.height, true);
    assert u + extra == extra && OutPoint(1, 0) in extra;
    assert !NotYetCreated(extra, coinbase);
    RejectedFirst(ctx, extra, txs, 1);
  }

  lemma {:induction false} RejectedFirst(ctx: Context, u: Utxos, txs: seq<Tx>, n: nat)
    requires n == |txs| == 1 && !Standalone(ctx, u, txs[0])
    ensures !BlockAccepted(ctx, u, txs)
  {
    assert !TxAccepted(ctx, u, txs, n - 1);
  }
}
