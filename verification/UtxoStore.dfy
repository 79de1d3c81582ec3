/** The store behind the UTXO set: a write buffer with deletion marks, a read cache that may forget anything, and
    a disk that is written in chunks. */
module UtxoStore {
  import opened Maps
  import opened Options
  import opened Powers
  import opened Sums
  import opened Transactions
  import opened Ledger
  import opened BlockValidation
  import opened Recovery
  import opened Chain

  /** Pending changes: a coin to write, or a mark that it is deleted. */
  type Buffer = map<OutPoint, Option<Coin>>

  ghost function Inserts(b: Buffer): Utxos
  {
    map op | op in b && b[op].Some? :: b[op].value
  }

  function Deletions(b: Buffer): set<OutPoint>
  {
    set op | op in b && b[op].None?
  }

  /** What the store stands for. */
  ghost function View(disk: Utxos, b: Buffer): Utxos
  {
    (disk + Inserts(b)) - Deletions(b)
  }

  lemma {:induction false} ViewInsert(disk: Utxos, b: Buffer, op: OutPoint, c: Coin)
    ensures View(disk, b[op := Some(c)]) == View(disk, b)[op := c]
  {}

  lemma {:induction false} ViewRemove(disk: Utxos, b: Buffer, op: OutPoint)
    ensures View(disk, b[op := None]) == View(disk, b) - {op}
  {}

  // ----- What the buffer takes up

  const INSERT_BASE_COST: nat := 36 + 17 + 64
  const DELETION_COST: nat := 36 + 48
  const UNDO_BASE_COST: nat := 32 + 48
  const FLUSH_INTERVAL: nat := 10_000

  function CostOf(o: Option<Coin>): nat
  {
    match o
    case Some(c) => INSERT_BASE_COST + |c.script|
    case None => DELETION_COST
  }

  ghost function Costs(b: Buffer): map<OutPoint, nat>
  {
    map op | op in b :: CostOf(b[op])
  }

  datatype Counters = Counters(inserts: nat, deletions: nat, bytes: nat)

  /** The true numbers. */
  ghost function CountersOf(b: Buffer, undoBytes: nat): Counters
  {
    Counters(Count(Inserts(b).Keys), Count(Deletions(b)), Sum(Costs(b)) + undoBytes)
  }

  lemma {:induction false} CountPut<T>(s: set<T>, x: T)
    ensures Count(s + {x}) == Count(s) + if x in s then 0 else 1
    ensures Count(s - {x}) == Count(s) - if x in s then 1 else 0
  {
    if x in s {
      CountWithout(s, x);
      assert s + {x} == s;
    } else {
      CountWith(s, x);
      assert s - {x} == s;
    }
  }

  lemma {:induction false} PutCosts(b: Buffer, op: OutPoint, o: Option<Coin>)
    ensures op in b ==> CostOf(b[op]) <= Sum(Costs(b))
    ensures Sum(Costs(b[op := o])) == Sum(Costs(b)) + CostOf(o) - if op in b then CostOf(b[op]) else 0
  {
    SumPut(Costs(b), op, CostOf(o));
    assert Costs(b[op := o]) == Costs(b)[op := CostOf(o)];
  }

  lemma {:induction false} PutCounts(b: Buffer, op: OutPoint, o: Option<Coin>)
    ensures var ins, del := Inserts(b).Keys, Deletions(b);
            && Count(Inserts(b[op := o]).Keys) ==
               Count(ins) + (if o.Some? && op !in ins then 1 else if o.None? && op in ins then -1 else 0)
            && Count(Deletions(b[op := o])) ==
               Count(del) + (if o.None? && op !in del then 1 else if o.Some? && op in del then -1 else 0)
  {
    var ins, del, b' := Inserts(b).Keys, Deletions(b), b[op := o];
    CountPut(ins, op);
    CountPut(del, op);
    if o.Some? {
      assert Inserts(b').Keys == ins + {op} && Deletions(b') == del - {op};
    } else {
      assert Inserts(b').Keys == ins - {op} && Deletions(b') == del + {op};
    }
  }

  /** Buffer one coin; an earlier entry is replaced and its cost given back. */
  method BufferInsert(b: Buffer, c: Counters, ghost undoBytes: nat, op: OutPoint, coin: Coin)
    returns (b': Buffer, c': Counters)
    requires c == CountersOf(b, undoBytes)
    ensures b' == b[op := Some(coin)] && c' == CountersOf(b', undoBytes)
  {
    PutCosts(b, op, Some(coin));
    PutCounts(b, op, Some(coin));
    var inserts, deletions, bytes := c.inserts, c.deletions, c.bytes;
    if op in b {
      bytes := SaturatingSub(bytes, CostOf(b[op]));
      if b[op].None? {
        deletions := deletions - 1;
        inserts := inserts + 1;
      }
    } else {
      inserts := inserts + 1;
    }
    b' := b[op := Some(coin)];
    c' := Counters(inserts, deletions, bytes + CostOf(Some(coin)));
  }

  /** Mark one outpoint deleted. */
  method BufferRemove(b: Buffer, c: Counters, ghost undoBytes: nat, op: OutPoint) returns (b': Buffer, c': Counters)
    requires c == CountersOf(b, undoBytes)
    ensures b' == b[op := None] && c' == CountersOf(b', undoBytes)
  {
    PutCosts(b, op, None);
    PutCounts(b, op, None);
    var inserts, deletions, bytes := c.inserts, c.deletions, c.bytes;
    if op !in b {
      deletions := deletions + 1;
      bytes := bytes + DELETION_COST;
    } else if b[op].Some? {
      bytes := SaturatingSub(bytes, CostOf(b[op]));
      inserts := inserts - 1;
      deletions := deletions + 1;
      bytes := bytes + DELETION_COST;
    }
    b' := b[op := None];
    c' := Counters(inserts, deletions, bytes);
  }

  ghost function PutAll(b: Buffer, inserts: seq<(OutPoint, Coin)>, n: nat): Buffer
    requires n <= |inserts|
  {
    if n == 0 then b else PutAll(b, inserts, n - 1)[inserts[n - 1].0 := Some(inserts[n - 1].1)]
  }

  ghost function MarkAll(b: Buffer, removals: seq<OutPoint>, n: nat): Buffer
    requires n <= |removals|
  {
    if n == 0 then b else MarkAll(b, removals, n - 1)[removals[n - 1] := None]
  }

  lemma {:induction false} ViewPutAll(disk: Utxos, b: Buffer, inserts: seq<(OutPoint, Coin)>, n: nat)
    requires n <= |inserts|
    ensures View(disk, PutAll(b, inserts, n)) == View(disk, b) + MapOf(inserts[..n])
  {
    if n > 0 {
      var op, c := inserts[n - 1].0, inserts[n - 1].1;
      ViewPutAll(disk, b, inserts, n - 1);
      ViewInsert(disk, PutAll(b, inserts, n - 1), op, c);
      assert inserts[..n][..n - 1] == inserts[..n - 1];
      PutRight(View(disk, b), MapOf(inserts[..n - 1]), op, c);
    }
  }

  lemma {:induction false} ViewMarkAll(disk: Utxos, b: Buffer, removals: seq<OutPoint>, n: nat)
    requires n <= |removals|
    ensures View(disk, MarkAll(b, removals, n)) == View(disk, b) - SetOf(removals[..n])
  {
    if n > 0 {
      var op := removals[n - 1];
      ViewMarkAll(disk, b, removals, n - 1);
      ViewRemove(disk, MarkAll(b, removals, n - 1), op);
      assert removals[..n] == removals[..n - 1] + [op];
      MarkOne(View(disk, b), removals[..n - 1], op);
    }
  }

  lemma {:induction false} MarkOne(u: Utxos, ops: seq<OutPoint>, op: OutPoint)
    ensures (u - SetOf(ops)) - {op} == u - SetOf(ops + [op])
  {}

  method BufferInserts(b: Buffer, c: Counters, ghost undoBytes: nat, inserts: seq<(OutPoint, Coin)>)
    returns (b': Buffer, c': Counters)
    requires c == CountersOf(b, undoBytes)
    ensures b' == PutAll(b, inserts, |inserts|) && c' == CountersOf(b', undoBytes)
  {
    b', c' := b, c;
    var i := 0;
    while i < |inserts|
      invariant 0 <= i <= |inserts| && b' == PutAll(b, inserts, i) && c' == CountersOf(b', undoBytes)
    {
      b', c' := BufferInsert(b', c', undoBytes, inserts[i].0, inserts[i].1);
      i := i + 1;
    }
  }

  method BufferRemovals(b: Buffer, c: Counters, ghost undoBytes: nat, removals: seq<OutPoint>)
    returns (b': Buffer, c': Counters)
    requires c == CountersOf(b, undoBytes)
    ensures b' == MarkAll(b, removals, |removals|) && c' == CountersOf(b', undoBytes)
  {
    b', c' := b, c;
    var i := 0;
    while i < |removals|
      invariant 0 <= i <= |removals| && b' == MarkAll(b, removals, i) && c' == CountersOf(b', undoBytes)
    {
      b', c' := BufferRemove(b', c', undoBytes, removals[i]);
      i := i + 1;
    }
  }

  /** Buffering a batch is applying it to what the store stands for. */
  lemma {:induction false} ViewBatch(disk: Utxos, b: Buffer, batch: Batch, b': Buffer)
    requires b' == MarkAll(PutAll(b, batch.inserts, |batch.inserts|), batch.removals, |batch.removals|)
    ensures View(disk, b') == ApplyBatch(View(disk, b), batch)
  {
    ViewPutAll(disk, b, batch.inserts, |batch.inserts|);
    ViewMarkAll(disk, PutAll(b, batch.inserts, |batch.inserts|), batch.removals, |batch.removals|);
    assert batch.inserts[..|batch.inserts|] == batch.inserts && batch.removals[..|batch.removals|] == batch.removals;
  }

  // ----- What a read sees

  /** A read looks in the buffer, then in the cache, then on disk. */
  function Read(disk: Utxos, cache: Utxos, b: Buffer, op: OutPoint): Option<Coin>
  {
    if op in b then b[op] else Lookup(disk, cache, op)
  }

  function Lookup(disk: Utxos, cache: Utxos, op: OutPoint): Option<Coin>
  {
    if op in cache then Some(cache[op]) else if op in disk then Some(disk[op]) else None
  }

  /** Reads give the coins the store stands for. */
  ghost predicate ReadsRight(disk: Utxos, cache: Utxos, b: Buffer)
  {
    forall op :: Read(disk, cache, b, op) == Lookup(View(disk, b), map[], op)
  }

  predicate CoherentAt(disk: Utxos, cache: Utxos, b: Buffer, op: OutPoint)
  {
    op in cache && op !in b ==> op in disk && disk[op] == cache[op]
  }

  /** What is cached and not buffered is as on disk. */
  ghost predicate Coherent(disk: Utxos, cache: Utxos, b: Buffer)
  {
    forall op {:trigger CoherentAt(disk, cache, b, op)} :: CoherentAt(disk, cache, b, op)
  }

  lemma {:induction false} ReadsRightWhen(disk: Utxos, cache: Utxos, b: Buffer)
    ensures ReadsRight(disk, cache, b) <==> Coherent(disk, cache, b)
  {
    if ReadsRight(disk, cache, b) {
      forall op
        ensures CoherentAt(disk, cache, b, op)
      {
        assert Read(disk, cache, b, op) == Lookup(View(disk, b), map[], op);
      }
    }
    if Coherent(disk, cache, b) {
      forall op
        ensures Read(disk, cache, b, op) == Lookup(View(disk, b), map[], op)
      {
        assert CoherentAt(disk, cache, b, op);
      }
    }
  }

  lemma {:induction false} PutKeys(b: Buffer, inserts: seq<(OutPoint, Coin)>, n: nat)
    requires n <= |inserts|
    ensures b.Keys <= PutAll(b, inserts, n).Keys && Deletions(PutAll(b, inserts, n)) <= Deletions(b)
  {
    if n > 0 {
      PutKeys(b, inserts, n - 1);
    }
  }

  lemma {:induction false} MarkKeys(b: Buffer, removals: seq<OutPoint>, n: nat)
    requires n <= |removals|
    ensures b.Keys <= MarkAll(b, removals, n).Keys
    ensures Deletions(MarkAll(b, removals, n)) <= Deletions(b) + SetOf(removals)
  {
    if n > 0 {
      MarkKeys(b, removals, n - 1);
    }
  }

  /** Buffering any batch keeps reads right, as long as what it removes leaves the cache. */
  lemma {:induction false} BufferingKeeps(disk: Utxos, cache: Utxos, b: Buffer, batch: Batch, b': Buffer, cache': Utxos)
    requires Coherent(disk, cache, b) && cache.Keys !! Deletions(b)
    requires b' == MarkAll(PutAll(b, batch.inserts, |batch.inserts|), batch.removals, |batch.removals|)
    requires Part(cache', cache - SetOf(batch.removals))
    ensures Coherent(disk, cache', b') && cache'.Keys !! Deletions(b')
  {
    PutKeys(b, batch.inserts, |batch.inserts|);
    MarkKeys(PutAll(b, batch.inserts, |batch.inserts|), batch.removals, |batch.removals|);
    forall op
      ensures CoherentAt(disk, cache', b', op)
    {
      assert CoherentAt(disk, cache, b, op);
    }
  }

  /** The buffered coins of some outpoints. */
  function Written(b: Buffer, ops: set<OutPoint>): Utxos
  {
    map op | op in ops && op in b && b[op].Some? :: b[op].value
  }

  predicate UpToDateAt(cache: Utxos, b: Buffer, promoted: set<OutPoint>, op: OutPoint)
  {
    op in cache && op in b && op !in promoted ==> b[op] == Some(cache[op])
  }

  /** Every cached coin that the buffer holds and that is not promoted to the cache is the buffered one. */
  ghost predicate UpToDate(cache: Utxos, b: Buffer, promoted: set<OutPoint>)
  {
    forall op {:trigger UpToDateAt(cache, b, promoted, op)} :: UpToDateAt(cache, b, promoted, op)
  }

  /** A flush keeps reads right exactly when the cache is up to date with what is not promoted. */
  lemma {:induction false} FlushKeepsWhen(disk: Utxos, cache: Utxos, b: Buffer, promoted: set<OutPoint>)
    requires Coherent(disk, cache, b) && cache.Keys !! Deletions(b)
    ensures Coherent(View(disk, b), cache + Written(b, promoted), map[]) <==> UpToDate(cache, b, promoted)
  {
    var now, cache' := View(disk, b), cache + Written(b, promoted);
    forall op
      ensures CoherentAt(now, cache', map[], op) <==> UpToDateAt(cache, b, promoted, op)
    {
      assert CoherentAt(disk, cache, b, op);
    }
    if Coherent(now, cache', map[]) {
      forall op
        ensures UpToDateAt(cache, b, promoted, op)
      {
        assert CoherentAt(now, cache', map[], op);
      }
    }
    if UpToDate(cache, b, promoted) {
      forall op
        ensures CoherentAt(now, cache', map[], op)
      {
        assert UpToDateAt(cache, b, promoted, op);
      }
    }
  }

  /** A cache that agrees with the coins is up to date whatever is promoted. */
  lemma {:induction false} CurrentIsUpToDate(disk: Utxos, cache: Utxos, b: Buffer, promoted: set<OutPoint>)
    requires Part(cache, View(disk, b))
    ensures UpToDate(cache, b, promoted) && Part(cache + Written(b, promoted), View(disk, b))
  {}

  /** A batch never replaces a coin by a different one. */
  ghost predicate NoReplacement(u: Utxos, batch: Batch)
  {
    forall op :: op in MapOf(batch.inserts) && op in u ==> MapOf(batch.inserts)[op] == u[op]
  }

  lemma {:induction false} CacheAfterBatch(u: Utxos, batch: Batch, cache: Utxos)
    requires Part(cache, u) && NoReplacement(u, batch)
    ensures Part(cache - SetOf(batch.removals), ApplyBatch(u, batch))
  {}

  /** The batch of a block that makes no coin over an older one replaces nothing. */
  lemma {:induction false} BlockReplacesNothing(u: Utxos, txs: seq<Tx>, height: nat)
    requires !Overwrites(u, txs, height)
    ensures NoReplacement(u, BatchOf(u, txs, height, |txs|))
  {
    InsertsAre(u, txs, height, |txs|);
  }

  /** Neither does the batch that takes a block back. */
  lemma {:induction false} UndoReplacesNothing(u: Utxos, txs: seq<Tx>, height: nat, removals: seq<OutPoint>)
    requires Replays(u, txs, height, |txs|)
    ensures NoReplacement(After(u, txs, height, |txs|), Batch(BatchOf(u, txs, height, |txs|).spent, removals, []))
  {
    UndoRemembers(u, txs, height, |txs|);
    TracksAll(u, txs, height, |txs|);
  }

  /** A batch that replaces a cached coin: reads are right while it is buffered, and see the older coin after a flush
      that does not promote it. */
  lemma {:induction false} ReplacedIsStale(op: OutPoint, older: Coin, newer: Coin)
    requires older != newer
    ensures var disk, b := map[op := older], PutAll(map[], [(op, newer)], 1);
            && Coherent(disk, disk, map[]) && Read(disk, disk, b, op) == Some(newer)
            && View(disk, b)[op] == newer && Read(View(disk, b), disk + Written(b, {}), map[], op) == Some(older)
  {
    var disk: Utxos, b := map[op := older], PutAll(map[], [(op, newer)], 1);
    assert PutAll(map[], [(op, newer)], 0) == map[];
    assert b == map[op := Some(newer)];
    assert disk + Written(b, {}) == disk;
  }

  // ----- Undo records

  /** The bytes of an undo record. */
  function UndoSize(r: Undo): nat
  {
    4 + SpentSize(r.spent) + 4 + 36 * |r.created| + 32
  }

  function SpentSize(spent: seq<(OutPoint, Coin)>): nat
  {
    if |spent| == 0 then 0 else SpentSize(spent[..|spent| - 1]) + 36 + 4 + 17 + |spent[|spent| - 1].1.script|
  }

  /** Records waiting for the next flush, oldest first. */
  type Waiting = seq<(nat, Undo)>

  function UndoCost(w: Waiting): nat
  {
    if |w| == 0 then 0 else UndoCost(w[..|w| - 1]) + UNDO_BASE_COST + UndoSize(w[|w| - 1].1)
  }

  lemma {:induction false} UndoCostSnoc(w: Waiting, x: (nat, Undo))
    ensures UndoCost(w + [x]) == UndoCost(w) + UNDO_BASE_COST + UndoSize(x.1)
  {
    assert (w + [x])[..|w|] == w;
  }

  lemma {:induction false} NoUndoNoCost(w: Waiting)
    ensures UndoCost(w) == 0 <==> w == []
  {}

  /** The records of other blocks, and those of this one. */
  function Others(w: Waiting, hash: nat): Waiting
  {
    if |w| == 0 then []
    else Others(w[..|w| - 1], hash) + if w[|w| - 1].0 == hash then [] else [w[|w| - 1]]
  }

  function Mine(w: Waiting, hash: nat): Waiting
  {
    if |w| == 0 then []
    else Mine(w[..|w| - 1], hash) + if w[|w| - 1].0 == hash then [w[|w| - 1]] else []
  }

  lemma {:induction false} UndoCostSplit(w: Waiting, hash: nat)
    ensures UndoCost(w) == UndoCost(Others(w, hash)) + UndoCost(Mine(w, hash))
  {
    if |w| > 0 {
      var front, last := w[..|w| - 1], w[|w| - 1];
      UndoCostSplit(front, hash);
      UndoCostSnoc(Others(front, hash), last);
      UndoCostSnoc(Mine(front, hash), last);
      assert Others(front, hash) + [] == Others(front, hash) && Mine(front, hash) + [] == Mine(front, hash);
    }
  }

  lemma {:induction false} UndoCostJoin(w: Waiting, x: Waiting)
    ensures UndoCost(w + x) == UndoCost(w) + UndoCost(x)
  {
    if |x| == 0 {
      assert w + x == w;
    } else {
      UndoCostJoin(w, x[..|x| - 1]);
      UndoCostSnoc(w + x[..|x| - 1], x[|x| - 1]);
      assert (w + x[..|x| - 1]) + [x[|x| - 1]] == w + x;
    }
  }

  /** The first waiting record of a block. */
  function FirstOf(w: Waiting, hash: nat): Option<Undo>
  {
    if |w| == 0 then None
    else if FirstOf(w[..|w| - 1], hash).Some? then FirstOf(w[..|w| - 1], hash)
    else if w[|w| - 1].0 == hash then Some(w[|w| - 1].1) else None
  }

  lemma {:induction false} FirstOfOthers(w: Waiting, hash: nat, other: nat)
    ensures FirstOf(Others(w, hash), other) == if other == hash then None else FirstOf(w, other)
  {
    if |w| > 0 {
      var front, last := w[..|w| - 1], w[|w| - 1];
      FirstOfOthers(front, hash, other);
      if last.0 != hash {
        assert (Others(front, hash) + [last])[..|Others(front, hash)|] == Others(front, hash);
      } else {
        assert Others(front, hash) + [] == Others(front, hash);
      }
    }
  }

  /** What writing the waiting records in order leaves: the last one of each block. */
  ghost function Records(w: Waiting): map<nat, Undo>
  {
    if |w| == 0 then map[] else Records(w[..|w| - 1])[w[|w| - 1].0 := w[|w| - 1].1]
  }

  /** No block has two waiting records that differ. */
  ghost predicate OneEach(w: Waiting)
  {
    forall i, j :: 0 <= i < |w| && 0 <= j < |w| && w[i].0 == w[j].0 ==> w[i].1 == w[j].1
  }

  lemma {:induction false} FirstIsThere(w: Waiting, hash: nat)
    ensures FirstOf(w, hash).Some? <==> hash in Records(w)
    ensures FirstOf(w, hash).Some? ==> exists i :: 0 <= i < |w| && w[i] == (hash, FirstOf(w, hash).value)
  {
    if |w| > 0 {
      var front := w[..|w| - 1];
      FirstIsThere(front, hash);
      if FirstOf(front, hash).Some? {
        var i :| 0 <= i < |front| && front[i] == (hash, FirstOf(front, hash).value);
        assert w[i] == front[i];
      }
    }
  }

  /** Then the first record, which is read, is the last one, which is written. */
  lemma {:induction false} FirstIsLast(w: Waiting, hash: nat)
    requires OneEach(w)
    ensures FirstOf(w, hash) == if hash in Records(w) then Some(Records(w)[hash]) else None
  {
    FirstIsThere(w, hash);
    if |w| > 0 {
      var front, last := w[..|w| - 1], w[|w| - 1];
      FirstIsLast(front, hash);
      if last.0 == hash && FirstOf(front, hash).Some? {
        FirstIsThere(front, hash);
        var i :| 0 <= i < |front| && front[i] == (hash, FirstOf(front, hash).value);
        assert w[i] == front[i];
      }
    }
  }

  // ----- Flushing

  const CHUNK_TARGET_BYTES: nat := 128 * 1024 * 1024

  /** What survives a crash: the coins, the undo records, and the height they belong to. */
  datatype Disk = Disk(coins: Utxos, undo: map<nat, Undo>, height: Option<nat>)

  /** The bytes of one coin on disk. */
  function CoinSize(c: Coin): nat
  {
    36 + 17 + |c.script|
  }

  function SizeOf(o: Option<Coin>): nat
  {
    if o.Some? then CoinSize(o.value) else 0
  }

  ghost function Sizes(b: Buffer, ops: set<OutPoint>): map<OutPoint, nat>
  {
    map op | op in b && op in ops :: SizeOf(b[op])
  }

  /** The bytes the buffered coins of some outpoints take up on disk. */
  ghost function Bulk(b: Buffer, ops: set<OutPoint>): nat
  {
    Sum(Sizes(b, ops))
  }

  /** The bytes of waiting records on disk. */
  function RecordsSize(w: Waiting): nat
  {
    if |w| == 0 then 0 else RecordsSize(w[..|w| - 1]) + 32 + UndoSize(w[|w| - 1].1)
  }

  /** Everything fits the last write. */
  ghost predicate Fits(b: Buffer, w: Waiting)
  {
    Bulk(b, b.Keys) + RecordsSize(w) < CHUNK_TARGET_BYTES
  }

  /** A disk that a flush leaves behind before its last write; if there are coins to write, some are on it. */
  ghost predicate Torn(disk: Disk, b: Buffer, w: Waiting, d: Disk)
  {
    Partial(disk, b, w, d) && (Inserts(b) != map[] && Inserts(b).Keys !! disk.coins.Keys ==> d.coins != disk.coins)
  }

  datatype Status = Good | Bad

  ghost function TraceStatus(disk: Disk, b: Buffer, w: Waiting, trace: seq<Disk>): Status
  {
    if (trace == [] <==> Fits(b, w)) && forall d {:trigger Torn(disk, b, w, d)} :: d in trace ==> Torn(disk, b, w, d)
    then Good else Bad
  }

  /** The disks a flush leaves behind before its last write: there are some exactly when not everything fits it. */
  ghost predicate Leaves(disk: Disk, b: Buffer, w: Waiting, trace: seq<Disk>)
  {
    TraceStatus(disk, b, w, trace) == Good
  }

  lemma {:induction false} WrittenDiffers(disk: Utxos, part: Utxos, inserts: Utxos)
    requires part != map[] && Part(part, inserts) && inserts.Keys !! disk.Keys
    ensures disk + part != disk
  {
    var op :| op in part;
    assert op in disk + part && op !in disk;
  }

  /** The disk holds the old coins and some of the buffered ones, the old records and some of the waiting ones, and
      still the old height. */
  ghost predicate Partial(disk: Disk, b: Buffer, w: Waiting, d: Disk)
  {
    d.height == disk.height && exists part, n :: PartialBy(disk, b, w, part, n, d)
  }

  ghost predicate PartialBy(disk: Disk, b: Buffer, w: Waiting, part: Utxos, n: nat, d: Disk)
  {
    && Part(part, Inserts(b)) && d.coins == disk.coins + part
    && n <= |w| && d.undo == disk.undo + Records(w[..n])
  }

  lemma {:induction false} WriteOne(b: Buffer, ops: set<OutPoint>, more: set<OutPoint>, op: OutPoint)
    requires op in b && more == ops + {op}
    ensures Written(b, more) == if b[op].Some? then Written(b, ops)[op := b[op].value] else Written(b, ops)
    ensures Part(Written(b, more), Inserts(b))
  {}

  lemma {:induction false} AllWritten(b: Buffer)
    ensures Written(b, b.Keys) == Inserts(b)
  {}

  lemma {:induction false} NoRecordsYet(disk: Disk, b: Buffer, w: Waiting, part: Utxos)
    requires Part(part, Inserts(b))
    ensures Partial(disk, b, w, disk.(coins := disk.coins + part))
  {
    assert w[..0] == [] && disk.undo + Records([]) == disk.undo;
    assert PartialBy(disk, b, w, part, 0, disk.(coins := disk.coins + part));
  }

  lemma {:induction false} CoinChunk(disk: Disk, b: Buffer, w: Waiting, part: Utxos, batch: Utxos) returns (more: Utxos)
    requires Part(part + batch, Inserts(b)) && batch != map[]
    ensures more == part + batch == more + map[] && (disk.coins + part) + batch == disk.coins + more
    ensures Torn(disk, b, w, disk.(coins := disk.coins + more))
  {
    more := part + batch;
    Associate(disk.coins, part, batch);
    assert more + map[] == more;
    NoRecordsYet(disk, b, w, more);
    var op :| op in batch;
    assert op in more;
    if Inserts(b).Keys !! disk.coins.Keys {
      WrittenDiffers(disk.coins, more, Inserts(b));
    }
  }

  lemma {:induction false} RecordChunk(disk: Disk, b: Buffer, w: Waiting, part: Utxos, batch: Utxos,
                                       kept: map<nat, Undo>, records: map<nat, Undo>, n: nat)
    returns (more: Utxos, all: map<nat, Undo>)
    requires part + batch == Inserts(b) && n <= |w| && kept + records == Records(w[..n])
    ensures more == part + batch == more + map[] && all == kept + records == all + map[]
    ensures (disk.coins + part) + batch == disk.coins + more && (disk.undo + kept) + records == disk.undo + all
    ensures Torn(disk, b, w, Disk(disk.coins + more, disk.undo + all, disk.height))
  {
    more, all := part + batch, kept + records;
    if more != map[] && Inserts(b).Keys !! disk.coins.Keys {
      WrittenDiffers(disk.coins, more, Inserts(b));
    }
    Associate(disk.coins, part, batch);
    Associate(disk.undo, kept, records);
    assert more + map[] == more && all + map[] == all;
    assert PartialBy(disk, b, w, more, n, Disk(disk.coins + more, disk.undo + all, disk.height));
  }

  lemma {:induction false} OneRecord(w: Waiting, i: nat, kept: map<nat, Undo>, records: map<nat, Undo>)
    requires i < |w| && kept + records == Records(w[..i])
    ensures kept + records[w[i].0 := w[i].1] == Records(w[..i + 1])
  {
    assert w[..i + 1][..i] == w[..i];
    PutRight(kept, records, w[i].0, w[i].1);
  }

  lemma {:induction false} NothingWritten(b: Buffer, disk: Utxos)
    ensures Written(b, {}) == map[] && Bulk(b, {}) == 0 && disk + map[] == disk
  {
    assert Sizes(b, {}) == map[];
  }

  lemma {:induction false} WriteSize(b: Buffer, ops: set<OutPoint>, op: OutPoint)
    requires op in b && op !in ops
    ensures Bulk(b, ops + {op}) == Bulk(b, ops) + SizeOf(b[op])
  {
    SumWith(Sizes(b, ops), op, SizeOf(b[op]));
    assert Sizes(b, ops + {op}) == Sizes(b, ops)[op := SizeOf(b[op])];
  }

  /** What has been streamed so far: the disk, the batch that follows, its bytes, and the coins already written. */
  datatype Stream = Stream(disk: Disk, batch: Utxos, bytes: nat)

  /** The coins `done` are written or in the batch, and something was written exactly when they took up a chunk. */
  ghost function StreamStatus(disk: Disk, b: Buffer, w: Waiting, done: set<OutPoint>, s: Stream, part: Utxos,
                              trace: seq<Disk>): Status
  {
    var total := Bulk(b, done);
    if && s.disk == disk.(coins := disk.coins + part) && part + s.batch == Written(b, done)
       && s.bytes <= total && s.bytes < CHUNK_TARGET_BYTES
       && (if trace == [] then s.bytes == total else total >= CHUNK_TARGET_BYTES)
       && (forall d :: d in trace ==> Torn(disk, b, w, d))
    then Good else Bad
  }

  method WriteCoin(ghost disk: Disk, b: Buffer, ghost w: Waiting, ghost done: set<OutPoint>, op: OutPoint, s: Stream,
                   ghost part: Utxos, ghost trace: seq<Disk>)
    returns (s': Stream, ghost part': Utxos, ghost trace': seq<Disk>)
    requires op in b && op !in done && StreamStatus(disk, b, w, done, s, part, trace) == Good
    ensures StreamStatus(disk, b, w, done + {op}, s', part', trace') == Good
  {
    WriteOne(b, done, done + {op}, op);
    WriteSize(b, done, op);
    s', part', trace' := s, part, trace;
    if b[op].Some? {
      var bytes, batch := s.bytes + CoinSize(b[op].value), s.batch[op := b[op].value];
      PutRight(part, s.batch, op, b[op].value);
      s' := Stream(s.disk, batch, bytes);
      if bytes >= CHUNK_TARGET_BYTES {
        assert op in batch;
        part' := CoinChunk(disk, b, w, part, batch);
        s' := Stream(s.disk.(coins := s.disk.coins + batch), map[], 0);
        trace' := trace + [s'.disk];
      }
    }
  }

  lemma {:induction false} NothingStreamed(disk: Disk, b: Buffer, w: Waiting)
    ensures StreamStatus(disk, b, w, {}, Stream(disk, map[], 0), map[], []) == Good
  {
    NothingWritten(b, disk.coins);
    assert disk.(coins := disk.coins + map[]) == disk;
  }

  /** Stream the buffered coins to disk; deletions wait for the last write. */
  method WriteInserts(disk: Disk, b: Buffer, ghost w: Waiting)
    returns (s: Stream, ghost part: Utxos, ghost trace: seq<Disk>)
    ensures s.disk.coins + s.batch == disk.coins + Inserts(b)
    ensures s.disk == disk.(coins := disk.coins + part) && part + s.batch == Inserts(b)
    ensures trace == [] <==> Bulk(b, b.Keys) < CHUNK_TARGET_BYTES
    ensures s.bytes < CHUNK_TARGET_BYTES && (trace == [] ==> s.bytes == Bulk(b, b.Keys))
    ensures forall d :: d in trace ==> Torn(disk, b, w, d)
  {
    s, part, trace := Stream(disk, map[], 0), map[], [];
    NothingStreamed(disk, b, w);
    var left := b.Keys;
    ghost var done: set<OutPoint> := {};
    while left != {}
      invariant left <= b.Keys && done == b.Keys - left
      invariant StreamStatus(disk, b, w, done, s, part, trace) == Good
      decreases left
    {
      var op :| op in left;
      s, part, trace := WriteCoin(disk, b, w, done, op, s, part, trace);
      done, left := done + {op}, left - {op};
    }
    assert done == b.Keys;
    AllWritten(b);
    Associate(disk.coins, part, s.batch);
  }

  /** Go on with the waiting undo records, in order; a chunk may hold coins and records. */
  method WriteRecords(ghost disk: Disk, ghost b: Buffer, w: Waiting, start: Disk, coins: Utxos, size: nat,
                      ghost part: Utxos)
    returns (disk': Disk, batch: Utxos, records: map<nat, Undo>, ghost trace: seq<Disk>)
    requires start == disk.(coins := disk.coins + part) && part + coins == Inserts(b) && size < CHUNK_TARGET_BYTES
    ensures disk'.coins + batch == disk.coins + Inserts(b) && disk'.undo + records == disk.undo + Records(w)
    ensures trace == [] <==> size + RecordsSize(w) < CHUNK_TARGET_BYTES
    ensures disk'.height == disk.height && forall d :: d in trace ==> Torn(disk, b, w, d)
  {
    disk', batch, records, trace := start, coins, map[], [];
    var bytes, i := size, 0;
    ghost var held: Utxos, kept: map<nat, Undo> := part, map[];
    assert w[..0] == [] && disk.undo + kept == disk.undo && kept + records == Records([]);
    while i < |w|
      invariant 0 <= i <= |w| && disk' == Disk(disk.coins + held, disk.undo + kept, disk.height)
      invariant held + batch == Inserts(b) && kept + records == Records(w[..i])
      invariant bytes < CHUNK_TARGET_BYTES && bytes <= size + RecordsSize(w[..i])
      invariant if trace == [] then bytes == size + RecordsSize(w[..i])
                else size + RecordsSize(w[..i]) >= CHUNK_TARGET_BYTES
      invariant forall d :: d in trace ==> Torn(disk, b, w, d)
    {
      assert w[..i + 1][..i] == w[..i];
      bytes := bytes + 32 + UndoSize(w[i].1);
      OneRecord(w, i, kept, records);
      records := records[w[i].0 := w[i].1];
      if bytes >= CHUNK_TARGET_BYTES {
        held, kept := RecordChunk(disk, b, w, held, batch, kept, records, i + 1);
        disk' := Disk(disk'.coins + batch, disk'.undo + records, disk'.height);
        trace := trace + [disk'];
        batch, records, bytes := map[], map[], 0;
      }
      i := i + 1;
    }
    assert w[..i] == w;
    Associate(disk.coins, held, batch);
    Associate(disk.undo, kept, records);
  }

  lemma {:induction false} EmptyBuffer(disk: Utxos, b: Buffer)
    requires b == map[]
    ensures View(disk, b) == disk && CountersOf(b, 0) == Counters(0, 0, 0)
  {
    assert Costs(b) == map[] && Inserts(b) == map[];
  }

  /** Buffered coins are part of what the store stands for. */
  lemma {:induction false} InsertsInView(disk: Utxos, b: Buffer)
    ensures Part(Inserts(b), View(disk, b))
  {}

  /** A crash in the middle of a flush is recovered from by replaying the blocks since the height on disk. */
  lemma {:induction false} CrashRecovers(made: set<OutPoint>, disk: Disk, h: nat, blocks: seq<seq<Tx>>, b: Buffer,
                                         w: Waiting, d: Disk)
    requires Window(made, disk.coins, h, blocks) && Partial(disk, b, w, d)
    requires View(disk.coins, b) == WindowCoins(disk.coins, h, blocks, |blocks|)
    ensures WindowCoins(d.coins, h, blocks, |blocks|) == View(disk.coins, b) && d.height == disk.height
  {
    var part, n :| PartialBy(disk, b, w, part, n, d);
    InsertsInView(disk.coins, b);
    ReplayRecovers(made, disk.coins, h, blocks, part);
  }

  // ----- Taking back a block that is on disk

  /** The buffer after a block has been taken back over an empty one. */
  ghost predicate TakesBack(u: Utxos, txs: seq<Tx>, height: nat, removals: seq<OutPoint>, b: Buffer)
  {
    && SetOf(removals) == CreatedBy(txs, height, |txs|).Keys
    && var spent := BatchOf(u, txs, height, |txs|).spent;
       b == MarkAll(PutAll(map[], spent, |spent|), removals, |removals|)
  }

  lemma {:induction false} RestoredAreGone(u: Utxos, txs: seq<Tx>, height: nat, removals: seq<OutPoint>, b: Buffer)
    requires Replays(u, txs, height, |txs|) && TakesBack(u, txs, height, removals, b)
    ensures Part(Inserts(b), MapOf(BatchOf(u, txs, height, |txs|).spent))
    ensures Inserts(b).Keys !! After(u, txs, height, |txs|).Keys
  {
    var spent := BatchOf(u, txs, height, |txs|).spent;
    UndoRemembers(u, txs, height, |txs|);
    TracksAll(u, txs, height, |txs|);
    ViewBatch(map[], map[], Batch(spent, removals, []), b);
    InsertsInView(map[], b);
    EmptyBuffer(map[], map[]);
  }

  /** A crash in the flush that takes back the block the disk belongs to: every disk it can leave behind is right for
      its height exactly when there is nothing to restore or everything fits the last write; and taking the block back
      once more from its record, if that is still there, has the effect it would have had. */
  lemma {:induction false} CrashInDisconnect(u: Utxos, txs: seq<Tx>, height: nat, removals: seq<OutPoint>, b: Buffer,
                                             w: Waiting, disk: Disk, trace: seq<Disk>)
    requires Replays(u, txs, height, |txs|) && TakesBack(u, txs, height, removals, b)
    requires disk.coins == After(u, txs, height, |txs|) && Leaves(disk, b, w, trace)
    ensures (forall d :: d in trace ==> d.coins == disk.coins) <==> Inserts(b) == map[] || Fits(b, w)
    ensures var spent, created := BatchOf(u, txs, height, |txs|).spent, CreatedBy(txs, height, |txs|).Keys;
            forall d :: d in trace ==> Reversed(d.coins, spent, created) == Reversed(disk.coins, spent, created)
  {
    var spent := BatchOf(u, txs, height, |txs|).spent;
    RestoredAreGone(u, txs, height, removals, b);
    forall d | d in trace
      ensures Inserts(b) == map[] <==> d.coins == disk.coins
      ensures d.coins + MapOf(spent) == disk.coins + MapOf(spent)
    {
      TornRestore(disk, b, w, d, MapOf(spent));
    }
    assert trace != [] ==> trace[0] in trace;
  }

  lemma {:induction false} TornRestore(disk: Disk, b: Buffer, w: Waiting, d: Disk, spent: Utxos)
    requires Torn(disk, b, w, d) && Part(Inserts(b), spent) && Inserts(b).Keys !! disk.coins.Keys
    ensures Inserts(b) == map[] <==> d.coins == disk.coins
    ensures d.coins + spent == disk.coins + spent
  {
    var part, n :| PartialBy(disk, b, w, part, n, d);
    PartTrans(part, Inserts(b), spent);
    RestoredTwice(disk.coins, spent, part);
    if Inserts(b) == map[] {
      assert part == map[];
    }
  }

  lemma {:induction false} RestoredTwice(now: Utxos, spent: Utxos, part: Utxos)
    requires Part(part, spent) && part.Keys !! now.Keys
    ensures part == map[] ==> now + part == now
    ensures (now + part) + spent == now + spent
  {}

  // ----- Rolling back on disk

  /** Writing a rollback to the disk behind the buffer takes effect exactly when the buffer holds nothing about the
      coins concerned: no mark on a coin to restore, no other version of it, and no coin to remove. */
  lemma {:induction false} RollbackBehindBuffer(disk: Utxos, b: Buffer, spent: seq<(OutPoint, Coin)>,
                                                created: set<OutPoint>)
    ensures View(RolledBack(disk, spent, created), b) == RolledBack(View(disk, b), spent, created) <==>
            && Deletions(b) !! MapOf(spent).Keys
            && (forall op :: op in Inserts(b) && op in MapOf(spent) ==> Inserts(b)[op] == MapOf(spent)[op])
            && Inserts(b).Keys * created <= MapOf(spent).Keys
  {
    var s := MapOf(spent);
    var behind, right := View((disk - created) + s, b), (View(disk, b) - created) + s;
    if behind == right {
      forall op | op in b
        ensures b[op].None? ==> op !in s
        ensures b[op].Some? && op in s ==> b[op].value == s[op]
        ensures b[op].Some? && op in created ==> op in s
      {
        assert op in behind <==> op in right;
      }
    }
  }

  /** A block whose output is still buffered: rolled back on disk, its output is still there. */
  lemma {:induction false} RollbackIgnored(op: OutPoint, c: Coin)
    ensures var b := map[op := Some(c)];
            View(RolledBack(map[], [], {op}), b) != RolledBack(View(map[], b), [], {op})
  {
    var b: Buffer := map[op := Some(c)];
    RollbackBehindBuffer(map[], b, [], {op});
    assert op in Inserts(b).Keys * {op};
  }

  // ----- The store

  /** The counters are right but for deleted records, reads are right, and nothing marked is cached. */
  ghost function StatusOf(disk: Disk, cache: Utxos, b: Buffer, undo: Waiting, deleted: Waiting, c: Counters): Status
  {
    if && c == CountersOf(b, UndoCost(undo) + UndoCost(deleted))
       && Coherent(disk.coins, cache, b) && cache.Keys !! Deletions(b)
    then Good else Bad
  }

  /** Write everything: coins and records in chunks, then the deletions with the height. */
  method WriteAll(disk: Disk, b: Buffer, w: Waiting, pending: Option<nat>)
    returns (disk': Disk, ghost trace: seq<Disk>)
    ensures disk' == Disk(View(disk.coins, b), disk.undo + Records(w), if pending.Some? then pending else disk.height)
    ensures Leaves(disk, b, w, trace)
  {
    ghost var part, more;
    var s, batch, records;
    s, part, trace := WriteInserts(disk, b, w);
    disk', batch, records, more := WriteRecords(disk, b, w, s.disk, s.batch, s.bytes, part);
    trace := trace + more;
    disk' := Disk((disk'.coins + batch) - Deletions(b), disk'.undo + records,
                  if pending.Some? then pending else disk'.height);
  }

  lemma {:induction false} Flushed(disk: Disk, cache: Utxos, b: Buffer, undo: Waiting, deleted: Waiting, c: Counters,
                                   promoted: set<OutPoint>, disk': Disk)
    requires StatusOf(disk, cache, b, undo, deleted, c) == Good && disk'.coins == View(disk.coins, b)
    ensures View(disk'.coins, map[]) == disk'.coins
    ensures StatusOf(disk', cache + Written(b, promoted), map[], [], [], Counters(0, 0, 0)) == Good <==>
            UpToDate(cache, b, promoted)
    ensures Part(cache, disk'.coins) ==>
              UpToDate(cache, b, promoted) && Part(cache + Written(b, promoted), disk'.coins)
  {
    FlushKeepsWhen(disk.coins, cache, b, promoted);
    EmptyBuffer(disk'.coins, map[]);
    if Part(cache, disk'.coins) {
      CurrentIsUpToDate(disk.coins, cache, b, promoted);
    }
  }

  /** A coin read from the disk may be cached. */
  lemma {:induction false} ReadAhead(disk: Disk, cache: Utxos, b: Buffer, undo: Waiting, deleted: Waiting, c: Counters,
                                     op: OutPoint)
    requires StatusOf(disk, cache, b, undo, deleted, c) == Good && op in disk.coins && op !in b
    ensures var more := cache[op := disk.coins[op]];
            && StatusOf(disk, more, b, undo, deleted, c) == Good
            && (Part(cache, View(disk.coins, b)) ==> Part(more, View(disk.coins, b)))
  {
    var more := cache[op := disk.coins[op]];
    forall x
      ensures CoherentAt(disk.coins, more, b, x)
    {
      assert CoherentAt(disk.coins, cache, b, x);
    }
  }

  /** A flush on values. */
  method FlushValues(disk: Disk, ghost coins: Utxos, cache: Utxos, b: Buffer, undo: Waiting, ghost deleted: Waiting,
                     ghost c: Counters, pending: Option<nat>, promoted: set<OutPoint>)
    returns (disk': Disk, cache': Utxos, ghost trace: seq<Disk>)
    requires coins == View(disk.coins, b) && StatusOf(disk, cache, b, undo, deleted, c) == Good
    ensures disk' == Disk(coins, disk.undo + Records(undo), if pending.Some? then pending else disk.height)
    ensures coins == View(disk'.coins, map[])
    ensures StatusOf(disk', cache', map[], [], [], Counters(0, 0, 0)) == Good <==> UpToDate(cache, b, promoted)
    ensures Part(cache, coins) ==> UpToDate(cache, b, promoted) && Part(cache', coins)
    ensures Leaves(disk, b, undo, trace)
  {
    disk', trace := WriteAll(disk, b, undo, pending);
    Flushed(disk, cache, b, undo, deleted, c, promoted, disk');
    cache' := cache + Written(b, promoted);
  }

  lemma {:induction false} Buffered(disk: Disk, cache: Utxos, b: Buffer, undo: Waiting, deleted: Waiting, c: Counters,
                                    batch: Batch, b': Buffer, c': Counters, cache': Utxos)
    requires StatusOf(disk, cache, b, undo, deleted, c) == Good
    requires b' == MarkAll(PutAll(b, batch.inserts, |batch.inserts|), batch.removals, |batch.removals|)
    requires c' == CountersOf(b', UndoCost(undo) + UndoCost(deleted)) && Part(cache', cache - SetOf(batch.removals))
    ensures StatusOf(disk, cache', b', undo, deleted, c') == Good
    ensures View(disk.coins, b') == ApplyBatch(View(disk.coins, b), batch)
    ensures Part(cache, View(disk.coins, b)) && NoReplacement(View(disk.coins, b), batch) ==>
              Part(cache', View(disk.coins, b'))
  {
    ViewBatch(disk.coins, b, batch, b');
    BufferingKeeps(disk.coins, cache, b, batch, b', cache');
    if Part(cache, View(disk.coins, b)) && NoReplacement(View(disk.coins, b), batch) {
      CacheAfterBatch(View(disk.coins, b), batch, cache);
    }
  }

  method BufferValues(ghost disk: Disk, ghost coins: Utxos, cache: Utxos, b: Buffer, ghost undo: Waiting,
                      ghost deleted: Waiting, c: Counters, batch: Batch, evicted: set<OutPoint>)
    returns (b': Buffer, c': Counters, cache': Utxos, ghost coins': Utxos)
    requires coins == View(disk.coins, b) && StatusOf(disk, cache, b, undo, deleted, c) == Good
    ensures coins' == View(disk.coins, b') && StatusOf(disk, cache', b', undo, deleted, c') == Good
    ensures coins' == ApplyBatch(coins, batch) && cache' == (cache - SetOf(batch.removals)) - evicted
    ensures b' == MarkAll(PutAll(b, batch.inserts, |batch.inserts|), batch.removals, |batch.removals|)
    ensures Part(cache, coins) && NoReplacement(coins, batch) ==> Part(cache', coins')
  {
    ghost var undoBytes := UndoCost(undo) + UndoCost(deleted);
    b', c' := BufferInserts(b, c, undoBytes, batch.inserts);
    b', c' := BufferRemovals(b', c', undoBytes, batch.removals);
    cache' := (cache - SetOf(batch.removals)) - evicted;
    Buffered(disk, cache, b, undo, deleted, c, batch, b', c', cache');
    coins' := ApplyBatch(coins, batch);
  }

  lemma {:induction false} Deleting(undo: Waiting, deleted: Waiting, hash: nat)
    ensures UndoCost(Others(undo, hash)) + UndoCost(deleted + Mine(undo, hash)) == UndoCost(undo) + UndoCost(deleted)
    ensures forall other :: FirstOf(Others(undo, hash), other) == if other == hash then None else FirstOf(undo, other)
  {
    UndoCostSplit(undo, hash);
    UndoCostJoin(deleted, Mine(undo, hash));
    forall other
      ensures FirstOf(Others(undo, hash), other) == if other == hash then None else FirstOf(undo, other)
    {
      FirstOfOthers(undo, hash, other);
    }
  }

  class Store {
    const budget: nat
    var disk: Disk
    var cache: Utxos
    var buffer: Buffer
    var undo: Waiting
    var counters: Counters
    var blocksSinceFlush: nat
    /** The height to record with the next flush. */
    var pending: Option<nat>
    /** What the store stands for. */
    ghost var coins: Utxos
    /** The waiting records deleted since the last flush. */
    ghost var deleted: Waiting

    /** What the buffer really takes up. */
    ghost function TrueBytes(): nat
      reads this
    {
      CountersOf(buffer, UndoCost(undo)).bytes
    }

    /** Disk and buffer make up the coins, and everything is in order. */
    ghost predicate Valid()
      reads this
    {
      coins == View(disk.coins, buffer) && StatusOf(disk, cache, buffer, undo, deleted, counters) == Good
    }

    /** Every cached coin is the current one. */
    ghost predicate Current()
      reads this
    {
      Part(cache, coins)
    }

    constructor (budget: nat, disk: Disk)
      ensures Valid() && Current() && coins == disk.coins && this.disk == disk && buffer == map[] && undo == []
    {
      this.budget, this.disk := budget, disk;
      cache, buffer, undo, counters, blocksSinceFlush, pending := map[], map[], [], Counters(0, 0, 0), 0, None;
      coins, deleted := disk.coins, [];
      new;
      EmptyBuffer(disk.coins, buffer);
    }

    /** The byte count is never too low, and exact exactly when no waiting record was deleted since the last flush. */
    lemma {:induction false} BytesCover()
      requires Valid()
      ensures counters.bytes >= TrueBytes() && (counters.bytes == TrueBytes() <==> deleted == [])
    {
      NoUndoNoCost(deleted);
    }

    /** Look in the buffer, then in the cache, then on disk. */
    method Get(op: OutPoint) returns (r: Option<Coin>)
      requires Valid()
      modifies this`cache
      ensures Valid() && r == Lookup(coins, map[], op) && (old(Current()) ==> Current())
    {
      ReadsRightWhen(disk.coins, cache, buffer);
      assert Read(disk.coins, cache, buffer, op) == Lookup(coins, map[], op);
      if op in buffer {
        return buffer[op];
      }
      if op in cache {
        return Some(cache[op]);
      }
      if op in disk.coins {
        ReadAhead(disk, cache, buffer, undo, deleted, counters, op);
        cache := cache[op := disk.coins[op]];
        return Some(disk.coins[op]);
      }
      return None;
    }

    method Contains(op: OutPoint) returns (r: bool)
      requires Valid()
      ensures r <==> op in coins
    {
      if op in buffer {
        return buffer[op].Some?;
      }
      assert CoherentAt(disk.coins, cache, buffer, op);
      r := op in cache || op in disk.coins;
    }

    /** Read some coins ahead of their use. */
    method Prefetch(ops: seq<OutPoint>)
      requires Valid()
      modifies this`cache
      ensures Valid() && (old(Current()) ==> Current())
    {
      var i := 0;
      while i < |ops|
        invariant Valid() && (old(Current()) ==> Current())
      {
        var op := ops[i];
        if op !in buffer && op !in cache && op in disk.coins {
          ReadAhead(disk, cache, buffer, undo, deleted, counters, op);
          cache := cache[op := disk.coins[op]];
        }
        i := i + 1;
      }
    }

    method SetPendingFlushHeight(height: nat)
      requires Valid()
      modifies this`pending
      ensures Valid() && pending == Some(height)
    {
      pending := Some(height);
    }

    /** A record waits for the next flush. */
    method StoreUndo(hash: nat, r: Undo)
      requires Valid()
      modifies this`counters, this`undo
      ensures Valid() && undo == old(undo) + [(hash, r)]
    {
      UndoCostSnoc(undo, (hash, r));
      undo := undo + [(hash, r)];
      counters := counters.(bytes := counters.bytes + UNDO_BASE_COST + UndoSize(r));
    }

    /** What is known about a block: the first waiting record, or the one on disk. */
    ghost function Known(hash: nat): Option<Undo>
      reads this
    {
      if FirstOf(undo, hash).Some? then FirstOf(undo, hash)
      else if hash in disk.undo then Some(disk.undo[hash]) else None
    }

    method LoadUndo(hash: nat) returns (r: Option<Undo>)
      ensures r == Known(hash)
    {
      var i := 0;
      while i < |undo|
        invariant 0 <= i <= |undo| && FirstOf(undo[..i], hash).None?
      {
        assert undo[..i + 1][..i] == undo[..i];
        if undo[i].0 == hash {
          FirstStays(undo, hash, i + 1);
          return Some(undo[i].1);
        }
        i := i + 1;
      }
      assert undo[..i] == undo;
      r := if hash in disk.undo then Some(disk.undo[hash]) else None;
    }

    /** Forget a block's record, waiting and on disk. The bytes of a waiting one are not given back. */
    method DeleteUndo(hash: nat)
      requires Valid()
      modifies this`undo, this`disk, this`deleted
      ensures Valid() && coins == old(coins) && (old(Current()) ==> Current())
      ensures Known(hash) == None && forall other :: other != hash ==> Known(other) == old(Known(other))
      ensures disk == old(disk).(undo := old(disk).undo - {hash}) && undo == Others(old(undo), hash)
      ensures deleted == old(deleted) + Mine(old(undo), hash)
    {
      Deleting(undo, deleted, hash);
      deleted := deleted + Mine(undo, hash);
      undo, disk := Others(undo, hash), disk.(undo := disk.undo - {hash});
    }

    /** An empty buffer. */
    method Reset()
      modifies this`buffer, this`undo, this`counters, this`blocksSinceFlush, this`deleted
      ensures buffer == map[] && undo == [] && counters == Counters(0, 0, 0) && blocksSinceFlush == 0 && deleted == []
    {
      buffer, undo, counters, blocksSinceFlush, deleted := map[], [], Counters(0, 0, 0), 0, [];
    }

    /** Write everything pending. The set stays what it is; whatever is durable before the last write is the old disk
        with some of the new coins and records and the old height, and something is exactly when not everything fits the
        last write. Reads stay right exactly when the cache is up to date with the coins that are not promoted to it. */
    method FlushToDisk(promoted: set<OutPoint>) returns (ghost trace: seq<Disk>)
      requires Valid()
      modifies this
      ensures coins == old(coins) == disk.coins && buffer == map[] && undo == [] && deleted == []
      ensures disk.undo == old(disk).undo + Records(old(undo)) && counters == Counters(0, 0, 0) && blocksSinceFlush == 0
      ensures pending == old(pending) && disk.height == if pending.Some? then pending else old(disk).height
      ensures Valid() <==> UpToDate(old(cache), old(buffer), promoted)
      ensures old(Current()) ==> Valid() && Current()
      ensures Leaves(old(disk), old(buffer), old(undo), trace)
    {
      disk, cache, trace := FlushValues(disk, coins, cache, buffer, undo, deleted, counters, pending, promoted);
      Reset();
    }

    /** Buffer a batch: the coins are the batch applied, and reads stay right whatever it is. */
    method BufferBatch(batch: Batch, evicted: set<OutPoint>)
      requires Valid()
      modifies this`buffer, this`counters, this`cache, this`coins
      ensures Valid() && coins == ApplyBatch(old(coins), batch)
      ensures cache == (old(cache) - SetOf(batch.removals)) - evicted
      ensures buffer ==
              MarkAll(PutAll(old(buffer), batch.inserts, |batch.inserts|), batch.removals, |batch.removals|)
      ensures old(Current()) && NoReplacement(old(coins), batch) ==> Current()
    {
      ghost var more;
      var b, c, rest;
      b, c, rest, more := BufferValues(disk, coins, cache, buffer, undo, deleted, counters, batch, evicted);
      buffer, counters, cache, coins := b, c, rest, more;
    }

    /** Buffer a batch, and flush when the buffer is over budget or old. Until a flush reads are right whatever the
        batch; after one they are exactly when the cache is up to date with what is not promoted, and always when no
        batch replaces a coin. */
    method ApplyBatchBuffered(batch: Batch, evicted: set<OutPoint>, promoted: set<OutPoint>)
      returns (flush: bool, ghost full: Buffer, ghost trace: seq<Disk>)
      requires Valid()
      modifies this
      ensures coins == ApplyBatch(old(coins), batch) && pending == old(pending)
      ensures !flush ==> Valid() && disk == old(disk) && buffer == full && undo == old(undo) && trace == []
      ensures flush ==> buffer == map[] && undo == []
      ensures flush ==> (Valid() <==> UpToDate((old(cache) - SetOf(batch.removals)) - evicted, full, promoted))
      ensures flush ==> disk.coins == coins && disk.height == if pending.Some? then pending else old(disk).height
      ensures old(Current()) && NoReplacement(old(coins), batch) ==> Valid() && Current()
      ensures flush ==> Leaves(old(disk), full, old(undo), trace)
      ensures full == MarkAll(PutAll(old(buffer), batch.inserts, |batch.inserts|), batch.removals, |batch.removals|)
    {
      trace := [];
      BufferBatch(batch, evicted);
      full, blocksSinceFlush := buffer, blocksSinceFlush + 1;
      flush := blocksSinceFlush >= FLUSH_INTERVAL || counters.bytes > budget;
      if flush {
        trace := FlushToDisk(promoted);
      }
    }

    /** The store's part of disconnecting a block. Its record is deleted before the last flush, so from what that flush
        leaves behind after a crash the block cannot be taken back again; unless the batch was flushed before, that is
        the old disk with some of the new coins. */
    method TakeBack(hash: nat, batch: Batch, height: nat, evicted: set<OutPoint>, promoted: set<OutPoint>)
      returns (flush: bool, ghost full: Buffer, ghost before: seq<Disk>, ghost during: seq<Disk>)
      requires Valid() && Current() && NoReplacement(coins, batch)
      modifies this
      ensures Valid() && Current() && coins == ApplyBatch(old(coins), batch) == disk.coins
      ensures disk.height == Some(height) && hash !in disk.undo
      ensures full == MarkAll(PutAll(old(buffer), batch.inserts, |batch.inserts|), batch.removals, |batch.removals|)
      ensures forall d :: d in during ==> hash !in d.undo
      ensures flush ==> Leaves(old(disk), full, old(undo), before)
      ensures flush ==> forall d :: d in during ==> d.coins == coins && d.height == Some(height)
      ensures !flush ==> before == []
      ensures !flush ==>
                Leaves(old(disk).(undo := old(disk).undo - {hash}), full, Others(old(undo), hash), during)
    {
      SetPendingFlushHeight(height);
      flush, full, before := ApplyBatchBuffered(batch, evicted, promoted);
      DeleteUndo(hash);
      ghost var gone, waiting, b := disk, undo, buffer;
      NoneWaiting(waiting, hash);
      during := FlushToDisk(promoted);
      RecordStaysGone(gone, b, waiting, during, hash);
      if flush {
        NothingTorn(gone, b, waiting, during);
      }
    }
  }

  lemma {:induction false} NothingTorn(disk: Disk, b: Buffer, w: Waiting, trace: seq<Disk>)
    requires b == map[] && Leaves(disk, b, w, trace)
    ensures forall d :: d in trace ==> d.coins == disk.coins && d.height == disk.height
  {
    forall d | d in trace
      ensures d.coins == disk.coins && d.height == disk.height
    {
      assert Torn(disk, b, w, d);
      var part, n :| PartialBy(disk, b, w, part, n, d);
      assert part == map[] && disk.coins + part == disk.coins;
    }
  }

  lemma {:induction false} NoneWaiting(w: Waiting, hash: nat)
    requires FirstOf(w, hash).None?
    ensures hash !in Records(w) && forall n :: 0 <= n <= |w| ==> hash !in Records(w[..n])
  {
    FirstIsThere(w, hash);
    forall n | 0 <= n <= |w|
      ensures hash in Records(w[..n]) ==> hash in Records(w)
    {
      if hash in Records(w[..n]) {
        RecordsGrow(w, n, hash);
      }
    }
  }

  lemma {:induction false} RecordsGrow(w: Waiting, n: nat, hash: nat)
    requires n <= |w| && hash in Records(w[..n])
    ensures hash in Records(w)
  {
    if n == |w| {
      assert w[..n] == w;
    } else {
      assert w[..|w| - 1][..n] == w[..n];
      RecordsGrow(w[..|w| - 1], n, hash);
    }
  }

  lemma {:induction false} RecordStaysGone(disk: Disk, b: Buffer, w: Waiting, trace: seq<Disk>, hash: nat)
    requires hash !in disk.undo && forall n :: 0 <= n <= |w| ==> hash !in Records(w[..n])
    requires Leaves(disk, b, w, trace)
    ensures forall d :: d in trace ==> hash !in d.undo
  {
    forall d | d in trace
      ensures hash !in d.undo
    {
      assert Torn(disk, b, w, d);
      var part, n :| PartialBy(disk, b, w, part, n, d);
    }
  }

  lemma {:induction false} FirstStays(w: Waiting, hash: nat, n: nat)
    requires n <= |w| && FirstOf(w[..n], hash).Some?
    ensures FirstOf(w, hash) == FirstOf(w[..n], hash)
  {
    if n == |w| {
      assert w[..n] == w;
    } else {
      assert w[..|w| - 1][..n] == w[..n];
      FirstStays(w[..|w| - 1], hash, n);
    }
  }
}
