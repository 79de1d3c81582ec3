/** The worklist traversals over the pool: descendants through the index, ancestors through the inputs. */
module MempoolWalks {
  import opened Sums
  import opened Transactions
  import opened Reachability
  import opened MempoolGraph

  function Members(queue: seq<Txid>): set<Txid>
  {
    set x | x in queue
  }

  lemma {:induction false} MembersConcat(q: seq<Txid>, r: seq<Txid>)
    ensures Members(q + r) == Members(q) + Members(r)
  {}

  lemma {:induction false} MembersPop(queue: seq<Txid>)
    requires |queue| > 0
    ensures Members(queue) == Members(queue[..|queue| - 1]) + {queue[|queue| - 1]}
  {
    assert queue == queue[..|queue| - 1] + [queue[|queue| - 1]];
  }

  predicate NoDup(queue: seq<Txid>)
  {
    |queue| == 0 || (NoDup(queue[..|queue| - 1]) && queue[|queue| - 1] !in Members(queue[..|queue| - 1]))
  }

  lemma {:induction false} NoDupSnoc(queue: seq<Txid>, x: Txid)
    requires NoDup(queue) && x !in Members(queue)
    ensures NoDup(queue + [x]) && Members(queue + [x]) == Members(queue) + {x}
  {
    assert (queue + [x])[..|queue|] == queue;
  }

  lemma {:induction false} NoDupAt(ids: seq<Txid>, i: nat)
    requires NoDup(ids) && i < |ids|
    ensures NoDup(ids[..i]) && NoDup(ids[..i + 1]) && ids[i] !in Members(ids[..i]) && ids[i] in Members(ids)
    ensures Members(ids[..i + 1]) == Members(ids[..i]) + {ids[i]}
  {
    if i < |ids| - 1 {
      NoDupAt(ids[..|ids| - 1], i);
      assert ids[..|ids| - 1][..i] == ids[..i] && ids[..|ids| - 1][..i + 1] == ids[..i + 1];
    } else {
      assert ids[..i + 1] == ids;
      MembersPop(ids);
    }
  }

  lemma {:induction false} CountMembers(ids: seq<Txid>)
    ensures Count(Members(ids)) <= |ids|
  {
    if |ids| == 0 {
      assert Members(ids) == {};
    } else {
      var front, last := ids[..|ids| - 1], ids[|ids| - 1];
      CountMembers(front);
      MembersPop(ids);
      if last in Members(front) {
        assert Members(ids) == Members(front);
      } else {
        CountWith(Members(front), last);
      }
    }
  }

  lemma {:induction false} CountNoDup(ids: seq<Txid>)
    requires NoDup(ids)
    ensures Count(Members(ids)) == |ids|
  {
    if |ids| == 0 {
      assert Members(ids) == {};
    } else {
      var front, last := ids[..|ids| - 1], ids[|ids| - 1];
      NoDupAt(ids, |front|);
      assert ids[..|front| + 1] == ids;
      CountNoDup(front);
      CountWith(Members(front), last);
    }
  }

  /** A list as long as its set of members repeats nothing. */
  lemma {:induction false} FullCountNoDup(ids: seq<Txid>)
    requires Count(Members(ids)) == |ids|
    ensures NoDup(ids)
  {
    if |ids| > 0 {
      var front, last := ids[..|ids| - 1], ids[|ids| - 1];
      CountMembers(front);
      MembersPop(ids);
      assert last in Members(front) ==> Members(front) + {last} == Members(front);
      if last !in Members(front) {
        CountWith(Members(front), last);
        FullCountNoDup(front);
      }
    }
  }

  // ----- Children through the index

  /** The transactions that spend one of the first `n` outputs of `id`. */
  function SpendersOf(spent: Index, id: Txid, n: nat): set<Txid>
  {
    if n == 0 then {}
    else SpendersOf(spent, id, n - 1) + if OutPoint(id, n - 1) in spent then {spent[OutPoint(id, n - 1)]} else {}
  }

  lemma {:induction false} SpenderAt(spent: Index, id: Txid, n: nat, v: nat)
    requires v < n && OutPoint(id, v) in spent
    ensures spent[OutPoint(id, v)] in SpendersOf(spent, id, n)
  {
    if v < n - 1 {
      SpenderAt(spent, id, n - 1, v);
    }
  }

  /** Looking up every output in the index finds exactly the children. */
  lemma {:induction false} SpendersAreChildren(txs: Pool, spent: Index, id: Txid)
    requires Inverse(txs, spent) && id in txs
    ensures SpendersOf(spent, id, |txs[id].tx.outputs|) == ChildrenIn(txs, id)
  {
    assert txs - {} == txs;
    SpendersLeft(txs, {}, spent, id);
  }

  /** After some entries are gone, the index still finds the children that are left. */
  lemma {:induction false} SpendersLeft(txs: Pool, gone: set<Txid>, less: Index, id: Txid)
    requires Inverse(txs - gone, less) && id in txs
    ensures SpendersOf(less, id, |txs[id].tx.outputs|) == ChildrenIn(txs, id) - gone
  {
    var rest, n := txs - gone, |txs[id].tx.outputs|;
    SpendersWithin(txs, gone, less, id, n);
    forall c | c in ChildrenIn(txs, id) - gone
      ensures c in SpendersOf(less, id, n)
    {
      var v :| 0 <= v < n && OutPoint(id, v) in Prevouts(txs[c].tx);
      assert EntryIndexed(less, c, rest[c]);
      SpenderAt(less, id, n, v);
    }
  }

  lemma {:induction false} SpendersWithin(txs: Pool, gone: set<Txid>, less: Index, id: Txid, n: nat)
    requires Inverse(txs - gone, less) && id in txs && n <= |txs[id].tx.outputs|
    ensures SpendersOf(less, id, n) <= ChildrenIn(txs, id) - gone
  {
    if n > 0 {
      SpendersWithin(txs, gone, less, id, n - 1);
      var op := OutPoint(id, n - 1);
      if op in less {
        assert IsSpender(txs - gone, less[op], op);
      }
    }
  }

  method QueueSpenders(spent: Index, id: Txid, n: nat, queue: seq<Txid>) returns (longer: seq<Txid>)
    ensures Members(longer) == Members(queue) + SpendersOf(spent, id, n)
  {
    longer := queue;
    var v := 0;
    while v < n
      invariant 0 <= v <= n && Members(longer) == Members(queue) + SpendersOf(spent, id, v)
    {
      if OutPoint(id, v) in spent {
        MembersConcat(longer, [spent[OutPoint(id, v)]]);
        longer := longer + [spent[OutPoint(id, v)]];
      }
      v := v + 1;
    }
  }

  // ----- Descendants

  /** Expand one element: its children join the waiting ones. */
  method Expand(txs: Pool, spent: Index, id: Txid, queue: seq<Txid>) returns (longer: seq<Txid>)
    requires Inverse(txs, spent) && id in txs
    ensures Members(longer) == Members(queue) + Next(Down(txs), id)
  {
    SpendersAreChildren(txs, spent, id);
    DownIs(txs, id);
    longer := QueueSpenders(spent, id, |txs[id].tx.outputs|, queue);
  }

  /** Slate the queued transactions and all their descendants, on top of a set already closed under descendants. */
  method CollectDescendants(txs: Pool, spent: Index, q: Measure, roots: seq<Txid>, slated: set<Txid>)
    returns (order: seq<Txid>, all: set<Txid>, freed: nat)
    requires Inverse(txs, spent) && Members(roots) <= txs.Keys && slated <= txs.Keys && ClosedDown(txs, slated)
    ensures IsClosure(Down(txs), slated + Members(roots), all) && ClosedDown(txs, all)
    ensures Members(order) == all - slated && NoDup(order) && all <= txs.Keys
    ensures freed + Weight(q, txs - all) == Weight(q, txs - slated)
  {
    order, all, freed := [], slated, 0;
    var queue := roots;
    ghost var start := slated + Members(roots);
    while |queue| > 0
      invariant Exploring(Down(txs), start, all, Members(queue))
      invariant slated <= all <= txs.Keys && Members(queue) <= txs.Keys
      invariant Members(order) == all - slated && NoDup(order)
      invariant freed + Weight(q, txs - all) == Weight(q, txs - slated)
      decreases txs.Keys - all, |queue|
    {
      var id := queue[|queue| - 1];
      MembersPop(queue);
      ghost var todo := Members(queue);
      queue := queue[..|queue| - 1];
      if id in all {
        ExploreLess(Down(txs), start, all, todo, Members(queue));
      } else {
        ExploreStep(Down(txs), start, all, todo, id, Members(queue));
        WeightWithoutOneMore(q, txs, all, id);
        NoDupSnoc(order, id);
        queue := Expand(txs, spent, id, queue);
        all, order, freed := all + {id}, order + [id], freed + Weigh(q, txs[id]);
      }
    }
    ExploreDone(Down(txs), start, all);
  }

  /** The in-pool descendants of a transaction, itself excluded. */
  ghost function Descendants(txs: Pool, id: Txid): set<Txid>
  {
    set d | d in txs && d != id && IsDescendant(txs, id, d)
  }

  lemma {:induction false} ClosureIsDescendants(txs: Pool, id: Txid, all: set<Txid>)
    requires id in txs && IsClosure(Down(txs), {id}, all)
    ensures all == Descendants(txs, id) + {id}
  {
    assert From(Down(txs), {id}, id);
    forall d | d in all && d != id
      ensures d in Descendants(txs, id)
    {
      assert From(Down(txs), {id}, d);
      DescendantInPool(txs, id, d);
    }
    forall d | d in Descendants(txs, id)
      ensures d in all
    {
      assert id in {id};
      assert From(Down(txs), {id}, d);
    }
  }

  lemma {:induction false} DescendantInPool(txs: Pool, a: Txid, d: Txid)
    requires IsDescendant(txs, a, d)
    ensures d in txs
  {
    var n: nat :| Within(Down(txs), a, d, n);
    WithinPool(txs, a, d, n);
  }

  lemma {:induction false} WithinPool(txs: Pool, a: Txid, d: Txid, n: nat)
    requires Within(Down(txs), a, d, n)
    ensures d in txs
    decreases n
  {
    DownIs(txs, a);
    if d !in Next(Down(txs), a) {
      var m :| m in Next(Down(txs), a) && Within(Down(txs), m, d, n - 1);
      WithinPool(txs, m, d, n - 1);
    }
  }

  /** Visit and queue the children not seen before, counting them. */
  method QueueUnseen(spent: Index, id: Txid, n: nat, seen: set<Txid>, queue: seq<Txid>, count: nat)
    returns (seen': set<Txid>, longer: seq<Txid>, count': nat)
    requires count + 1 == Count(seen)
    ensures seen' == seen + SpendersOf(spent, id, n) && count' + 1 == Count(seen')
    ensures Members(longer) == Members(queue) + (SpendersOf(spent, id, n) - seen)
    ensures (seen' == seen && longer == queue) || seen < seen'
  {
    seen', longer, count' := seen, queue, count;
    var v := 0;
    while v < n
      invariant 0 <= v <= n
      invariant seen' == seen + SpendersOf(spent, id, v) && count' + 1 == Count(seen')
      invariant Members(longer) == Members(queue) + (SpendersOf(spent, id, v) - seen)
      invariant (seen' == seen && longer == queue) || seen < seen'
    {
      if OutPoint(id, v) in spent {
        var child := spent[OutPoint(id, v)];
        if child !in seen' {
          MembersConcat(longer, [child]);
          CountWith(seen', child);
          seen', longer, count' := seen' + {child}, longer + [child], count' + 1;
        }
      }
      v := v + 1;
    }
  }

  method ExpandUnseen(txs: Pool, spent: Index, id: Txid, seen: set<Txid>, queue: seq<Txid>, count: nat)
    returns (seen': set<Txid>, longer: seq<Txid>, count': nat)
    requires Inverse(txs, spent) && id in txs && count + 1 == Count(seen)
    ensures seen' == seen + Next(Down(txs), id) && count' + 1 == Count(seen')
    ensures Members(longer) == Members(queue) + (Next(Down(txs), id) - seen)
    ensures (seen' == seen && longer == queue) || seen < seen'
  {
    SpendersAreChildren(txs, spent, id);
    DownIs(txs, id);
    seen', longer, count' := QueueUnseen(spent, id, |txs[id].tx.outputs|, seen, queue, count);
  }

  lemma {:induction false} SeenStep(done: set<Txid>, rest: set<Txid>, x: Txid, children: set<Txid>, seen: set<Txid>)
    requires seen == done + (rest + {x})
    ensures seen + children == (done + {x}) + (rest + (children - seen))
    ensures rest + children <= (done + {x}) + (rest + (children - seen))
  {}

  /** One step of the count: expand the last queued transaction. */
  method VisitChildren(txs: Pool, spent: Index, ghost id: Txid, current: Txid, ghost done: set<Txid>, seen: set<Txid>,
                       queue: seq<Txid>, count: nat)
    returns (seen': set<Txid>, queue': seq<Txid>, count': nat, ghost done': set<Txid>)
    requires Inverse(txs, spent) && |queue| > 0 && current == queue[|queue| - 1]
    requires Exploring(Down(txs), {id}, done, Members(queue))
    requires seen == done + Members(queue) && current in seen && seen <= txs.Keys && count + 1 == Count(seen)
    ensures Exploring(Down(txs), {id}, done', Members(queue'))
    ensures seen' == done' + Members(queue') && seen' <= txs.Keys && count' + 1 == Count(seen')
    ensures (seen' == seen && |queue'| < |queue|) || txs.Keys - seen' < txs.Keys - seen
  {
    MembersPop(queue);
    var shorter := queue[..|queue| - 1];
    ghost var rest := Members(shorter);
    ExploreStep(Down(txs), {id}, done, Members(queue), current, rest);
    seen', queue', count' := ExpandUnseen(txs, spent, current, seen, shorter, count);
    done' := done + {current};
    SeenStep(done, rest, current, Next(Down(txs), current), seen);
    ExploreLess(Down(txs), {id}, done', rest + Next(Down(txs), current), Members(queue'));
    Fewer(txs.Keys, seen, seen');
  }

  lemma {:induction false} Fewer(all: set<Txid>, seen: set<Txid>, more: set<Txid>)
    requires seen <= more <= all
    ensures seen < more ==> all - more < all - seen
  {
    if seen < more {
      var x :| x in more && x !in seen;
      assert x in all - seen && x !in all - more;
    }
  }

  /** The number of in-pool descendants. */
  method CountDescendants(txs: Pool, spent: Index, id: Txid) returns (count: nat)
    requires Inverse(txs, spent)
    ensures count == if id in txs then Count(Descendants(txs, id)) else 0
  {
    if id !in txs {
      return 0;
    }
    var seen, queue := {id}, [id];
    count := 0;
    ghost var done := {};
    CountOne(id);
    ExploreStart(Down(txs), {id});
    assert Members(queue) == {id};
    while |queue| > 0
      invariant Exploring(Down(txs), {id}, done, Members(queue))
      invariant seen == done + Members(queue) && seen <= txs.Keys && count + 1 == Count(seen)
      decreases txs.Keys - seen, |queue|
    {
      var current := queue[|queue| - 1];
      MembersPop(queue);
      seen, queue, count, done := VisitChildren(txs, spent, id, current, done, seen, queue, count);
    }
    assert Members(queue) == {};
    AllCounted(txs, id, done, seen);
  }

  lemma {:induction false} AllCounted(txs: Pool, id: Txid, done: set<Txid>, seen: set<Txid>)
    requires id in txs && Exploring(Down(txs), {id}, done, {}) && seen == done
    ensures Count(seen) == Count(Descendants(txs, id)) + 1
  {
    ExploreDone(Down(txs), {id}, done);
    ClosureIsDescendants(txs, id, done);
    CountWith(Descendants(txs, id), id);
  }

  lemma {:induction false} CountOne(id: Txid)
    ensures Count({id}) == 1
  {
    CountWith({}, id);
    assert {} + {id} == {id};
  }

  /** Some entries with all their descendants. */
  ghost function Tree(txs: Pool, roots: set<Txid>): set<Txid>
  {
    set id | id in txs && From(Down(txs), roots * txs.Keys, id)
  }

  lemma {:induction false} FromInPool(txs: Pool, roots: set<Txid>, id: Txid)
    requires roots <= txs.Keys && From(Down(txs), roots, id)
    ensures id in txs
  {
    if id !in roots {
      var r :| r in roots && Reaches(Down(txs), r, id);
      DescendantInPool(txs, r, id);
    }
  }

  /** A closure of entries is their tree. */
  lemma {:induction false} ClosureIsTree(txs: Pool, roots: set<Txid>, all: set<Txid>)
    requires roots <= txs.Keys && IsClosure(Down(txs), roots, all)
    ensures all == Tree(txs, roots)
  {
    assert roots * txs.Keys == roots;
    forall id | id in all
      ensures id in Tree(txs, roots)
    {
      assert From(Down(txs), roots, id);
      FromInPool(txs, roots, id);
    }
  }

  lemma {:induction false} TreeClosed(txs: Pool, roots: set<Txid>)
    ensures ClosedDown(txs, Tree(txs, roots))
  {
    forall p | p in Tree(txs, roots)
      ensures Next(Down(txs), p) <= Tree(txs, roots)
    {
      DownIs(txs, p);
      forall c | c in Next(Down(txs), p)
        ensures c in Tree(txs, roots)
      {
        FromNext(Down(txs), roots * txs.Keys, p, c);
      }
    }
  }

  lemma {:induction false} TreeHasRoot(txs: Pool, roots: set<Txid>, r: Txid)
    requires r in roots && r in txs
    ensures r in Tree(txs, roots)
  {
    assert From(Down(txs), roots * txs.Keys, r);
  }

  lemma {:induction false} NoTree(txs: Pool)
    ensures Tree(txs, {}) == {}
  {
    assert {} * txs.Keys == {};
  }

  lemma {:induction false} StillChild(txs: Pool, gone: set<Txid>, p: Txid, c: Txid)
    requires c in Next(Down(txs), p) && p !in gone && c !in gone
    ensures c in Next(Down(txs - gone), p)
  {
    DownIs(txs, p);
    DownIs(txs - gone, p);
  }

  /** A path in a pool either meets a closed set or stays clear of it. */
  lemma {:induction false} AroundClosed(txs: Pool, gone: set<Txid>, a: Txid, d: Txid, n: nat)
    requires ClosedDown(txs, gone) && a !in gone && d !in gone && Within(Down(txs), a, d, n)
    ensures IsDescendant(txs - gone, a, d)
    decreases n
  {
    if d in Next(Down(txs), a) {
      StillChild(txs, gone, a, d);
      ReachesNext(Down(txs - gone), a, d);
    } else {
      var m :| m in Next(Down(txs), a) && Within(Down(txs), m, d, n - 1);
      if m in gone {
        WithinClosed(Down(txs), gone, m, d, n - 1);
      } else {
        AroundClosed(txs, gone, m, d, n - 1);
        StillChild(txs, gone, a, m);
        ReachesVia(Down(txs - gone), a, m, d);
      }
    }
  }

  lemma {:induction false} ReachesAround(txs: Pool, gone: set<Txid>, a: Txid, d: Txid)
    requires ClosedDown(txs, gone) && a !in gone && d !in gone && IsDescendant(txs, a, d)
    ensures IsDescendant(txs - gone, a, d)
  {
    var n: nat :| Within(Down(txs), a, d, n);
    AroundClosed(txs, gone, a, d, n);
  }

  /** Removing trees one after the other is removing them together. */
  lemma {:induction false} TreeSplit(txs: Pool, roots: set<Txid>, more: set<Txid>)
    ensures var gone := Tree(txs, roots); Tree(txs, roots + more) == gone + Tree(txs - gone, more)
  {
    var gone := Tree(txs, roots);
    var rest := txs - gone;
    TreeClosed(txs, roots);
    forall id | id in Tree(txs, roots + more)
      ensures id in gone + Tree(rest, more)
    {
      TreeSplitFrom(txs, roots, more, id);
    }
    forall id | id in gone + Tree(rest, more)
      ensures id in Tree(txs, roots + more)
    {
      TreeSplitInto(txs, roots, more, id);
    }
  }

  lemma {:induction false} TreeSplitFrom(txs: Pool, roots: set<Txid>, more: set<Txid>, id: Txid)
    requires id in Tree(txs, roots + more)
    ensures var gone := Tree(txs, roots); id in gone + Tree(txs - gone, more)
  {
    var gone := Tree(txs, roots);
    var rest := txs - gone;
    TreeClosed(txs, roots);
    if id !in gone {
      var r :| r in (roots + more) * txs.Keys && (id == r || Reaches(Down(txs), r, id));
      if r in roots {
        TreeHasRoot(txs, roots, r);
      }
      if r in gone {
        ClosedReaches(Down(txs), gone, r, id);
      } else if id != r {
        ReachesAround(txs, gone, r, id);
      }
      assert From(Down(rest), more * rest.Keys, id);
    }
  }

  lemma {:induction false} TreeSplitInto(txs: Pool, roots: set<Txid>, more: set<Txid>, id: Txid)
    requires var gone := Tree(txs, roots); id in gone + Tree(txs - gone, more)
    ensures id in Tree(txs, roots + more)
  {
    var gone := Tree(txs, roots);
    var both := (roots + more) * txs.Keys;
    if id in gone {
      FromMore(Down(txs), roots * txs.Keys, both, id);
    } else {
      forall p
        ensures Next(Down(txs - gone), p) <= Next(Down(txs), p)
      {
        DownIs(txs, p);
        DownIs(txs - gone, p);
      }
      FromFewer(Down(txs - gone), Down(txs), more * (txs - gone).Keys, id);
      FromMore(Down(txs), more * (txs - gone).Keys, both, id);
    }
  }

  // ----- Ancestors

  ghost function AllParents(txs: Pool): set<Txid>
  {
    set id, p | id in txs && p in ParentIds(txs[id].tx.inputs) :: p
  }

  /** The in-pool ancestors of a transaction with these inputs. */
  ghost function AncestorsOf(txs: Pool, inputs: seq<TxIn>): set<Txid>
  {
    set a | a in txs && From(Up(txs), ParentIds(inputs), a)
  }

  method QueueParents(inputs: seq<TxIn>, queue: seq<Txid>) returns (longer: seq<Txid>)
    ensures Members(longer) == Members(queue) + ParentIds(inputs)
  {
    longer := queue;
    var i := 0;
    while i < |inputs|
      invariant 0 <= i <= |inputs| && Members(longer) == Members(queue) + ParentIds(inputs[..i])
    {
      assert inputs[..i + 1][..i] == inputs[..i];
      MembersConcat(longer, [inputs[i].prev.txid]);
      longer := longer + [inputs[i].prev.txid];
      i := i + 1;
    }
    assert inputs[..i] == inputs;
  }

  /** Every in-pool ancestor of a transaction that is not admitted yet. */
  method InMempoolAncestors(txs: Pool, inputs: seq<TxIn>) returns (ancestors: set<Txid>)
    ensures ancestors == AncestorsOf(txs, inputs)
  {
    ghost var roots, universe := ParentIds(inputs), ParentIds(inputs) + AllParents(txs);
    var visited: set<Txid> := {};
    ancestors := {};
    var queue := QueueParents(inputs, []);
    assert Members([]) == {};
    ExploreStart(Up(txs), roots);
    while |queue| > 0
      invariant Exploring(Up(txs), roots, visited, Members(queue))
      invariant visited + Members(queue) <= universe && ancestors == visited * txs.Keys
      decreases universe - visited, |queue|
    {
      var parent := queue[|queue| - 1];
      MembersPop(queue);
      ghost var todo := Members(queue);
      queue := queue[..|queue| - 1];
      if parent in visited {
        ExploreLess(Up(txs), roots, visited, todo, Members(queue));
      } else {
        ExploreStep(Up(txs), roots, visited, todo, parent, Members(queue));
        visited := visited + {parent};
        if parent in txs {
          ancestors := ancestors + {parent};
          queue := QueueParents(txs[parent].tx.inputs, queue);
        }
      }
    }
    assert Members(queue) == {};
    ExploreDone(Up(txs), roots, visited);
    assert forall x :: x in visited <==> From(Up(txs), roots, x);
  }

  lemma {:induction false} UpIsDown(u: Utxos, txs: Pool, c: Txid, a: Txid, n: nat)
    requires Grounded(u, txs) && a in txs && Within(Up(txs), c, a, n)
    ensures c in txs && IsDescendant(txs, a, c)
    decreases n
  {
    if a in Next(Up(txs), c) {
      ParentHasChild(u, txs, a, c);
      ReachesNext(Down(txs), a, c);
    } else {
      var m :| m in Next(Up(txs), c) && Within(Up(txs), m, a, n - 1);
      UpIsDown(u, txs, m, a, n - 1);
      ParentHasChild(u, txs, m, c);
      ReachesThenNext(Down(txs), a, m, c);
    }
  }

  lemma {:induction false} DownIsUp(u: Utxos, txs: Pool, a: Txid, c: Txid, n: nat)
    requires Grounded(u, txs) && Within(Down(txs), a, c, n)
    ensures a in txs && c in txs && Reaches(Up(txs), c, a)
    decreases n
  {
    if c in Next(Down(txs), a) {
      ParentHasChild(u, txs, a, c);
      ReachesNext(Up(txs), c, a);
    } else {
      var m :| m in Next(Down(txs), a) && Within(Down(txs), m, c, n - 1);
      DownIsUp(u, txs, m, c, n - 1);
      ParentHasChild(u, txs, a, m);
      ReachesThenNext(Up(txs), c, m, a);
    }
  }

  /** The two walks are dual: what reaches up to an entry over inputs is what the entry reaches down to over the
      index. */
  lemma {:induction false} WalksDual(u: Utxos, txs: Pool, a: Txid, c: Txid)
    requires Grounded(u, txs) && a in txs
    ensures Reaches(Up(txs), c, a) <==> IsDescendant(txs, a, c)
  {
    if Reaches(Up(txs), c, a) {
      var n: nat :| Within(Up(txs), c, a, n);
      UpIsDown(u, txs, c, a, n);
    }
    if IsDescendant(txs, a, c) {
      var n: nat :| Within(Down(txs), a, c, n);
      DownIsUp(u, txs, a, c, n);
    }
  }

  /** An ancestor is a parent, or has a parent as a descendant. */
  lemma {:induction false} AncestorsAreDual(u: Utxos, txs: Pool, inputs: seq<TxIn>, a: Txid)
    requires Grounded(u, txs) && a in txs
    ensures a in AncestorsOf(txs, inputs) <==>
            a in ParentIds(inputs) || exists p :: p in ParentIds(inputs) && IsDescendant(txs, a, p)
  {
    if a in AncestorsOf(txs, inputs) && a !in ParentIds(inputs) {
      var p :| p in ParentIds(inputs) && Reaches(Up(txs), p, a);
      WalksDual(u, txs, a, p);
    }
    if exists p :: p in ParentIds(inputs) && IsDescendant(txs, a, p) {
      var p :| p in ParentIds(inputs) && IsDescendant(txs, a, p);
      WalksDual(u, txs, a, p);
    }
  }

  // ----- Package limits

  const MAX_ANCESTORS: nat := 25
  const MAX_DESCENDANTS: nat := 25

  ghost predicate WithinLimits(txs: Pool, id: Txid)
  {
    id in txs ==>
      && Count(AncestorsOf(txs, txs[id].tx.inputs)) <= MAX_ANCESTORS
      && Count(Descendants(txs, id)) <= MAX_DESCENDANTS
  }

  /** No entry has too many in-pool ancestors or descendants. */
  ghost predicate Limited(txs: Pool)
  {
    forall id {:trigger WithinLimits(txs, id)} :: WithinLimits(txs, id)
  }

  lemma {:induction false} FewerDescendants(txs: Pool, gone: set<Txid>, a: Txid, d: Txid)
    ensures IsDescendant(txs - gone, a, d) ==> IsDescendant(txs, a, d)
  {
    forall p
      ensures Next(Down(txs - gone), p) <= Next(Down(txs), p)
    {
      DownIs(txs, p);
      DownIs(txs - gone, p);
    }
    ReachesFewer(Down(txs - gone), Down(txs), a, d);
  }

  lemma {:induction false} FewerAncestors(txs: Pool, gone: set<Txid>, inputs: seq<TxIn>)
    ensures AncestorsOf(txs - gone, inputs) <= AncestorsOf(txs, inputs)
  {
    var rest := txs - gone;
    forall c
      ensures Next(Up(rest), c) <= Next(Up(txs), c)
    {}
    forall a | a in AncestorsOf(rest, inputs)
      ensures a in AncestorsOf(txs, inputs)
    {
      FromFewer(Up(rest), Up(txs), ParentIds(inputs), a);
    }
  }

  /** Removing entries never breaks a limit. */
  lemma {:induction false} LimitedLess(txs: Pool, gone: set<Txid>)
    requires Limited(txs)
    ensures Limited(txs - gone)
  {
    var rest := txs - gone;
    forall id
      ensures WithinLimits(rest, id)
    {
      if id in rest {
        assert WithinLimits(txs, id);
        FewerAncestors(txs, gone, txs[id].tx.inputs);
        CountSubset(AncestorsOf(rest, txs[id].tx.inputs), AncestorsOf(txs, txs[id].tx.inputs));
        forall d | d in Descendants(rest, id)
          ensures d in Descendants(txs, id)
        {
          FewerDescendants(txs, gone, id, d);
        }
        CountSubset(Descendants(rest, id), Descendants(txs, id));
      }
    }
  }
}
