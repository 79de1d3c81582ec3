/** Choosing pool transactions for a block. */
module BlockTemplate {
  import opened Sums
  import opened Transactions
  import opened TimeLocks
  import opened Ledger
  import opened MempoolGraph
  import opened MempoolWalks

  /** Both kinds of locks allow the entry in a block at this height and time. */
  predicate FinalForBlock(e: Entry, height: nat, mtp: nat)
  {
    IsFinalTx(e.tx, height, mtp) && height >= e.lockHeight && mtp >= e.lockTime
  }

  /** Higher fee rate first, then earlier arrival. */
  predicate Precedes(a: Entry, b: Entry)
  {
    a.rate > b.rate || (a.rate == b.rate && a.time <= b.time)
  }

  ghost predicate Known(txs: Pool, ids: seq<Txid>)
  {
    forall i :: 0 <= i < |ids| ==> ids[i] in txs
  }

  ghost predicate Ranked(txs: Pool, ids: seq<Txid>)
  {
    Known(txs, ids) && forall i, j :: 0 <= i < j < |ids| ==> Precedes(txs[ids[i]], txs[ids[j]])
  }

  function WeightOf(txs: Pool, ids: seq<Txid>): nat
  {
    if |ids| == 0 then 0
    else WeightOf(txs, ids[..|ids| - 1]) + if ids[|ids| - 1] in txs then txs[ids[|ids| - 1]].tx.weight else 0
  }

  /** Every in-pool parent of the entry is among `ids`. */
  predicate Ready(txs: Pool, ids: set<Txid>, x: Txid)
  {
    x in txs ==> ParentIds(txs[x].tx.inputs) * txs.Keys <= ids
  }

  /** Parents come before children. */
  ghost predicate ParentsFirst(txs: Pool, ids: seq<Txid>)
  {
    |ids| == 0 ||
    (ParentsFirst(txs, ids[..|ids| - 1]) && Ready(txs, Members(ids[..|ids| - 1]), ids[|ids| - 1]))
  }

  /** No room for the entry after these. */
  predicate Full(txs: Pool, ids: seq<Txid>, maxWeight: nat, maxCount: nat, x: Txid)
    requires x in txs
  {
    |ids| >= maxCount || WeightOf(txs, ids) + txs[x].tx.weight > maxWeight
  }

  // ----- Ordering the candidates

  lemma {:induction false} PrecedesTotal(a: Entry, b: Entry)
    ensures Precedes(a, b) || Precedes(b, a)
  {}

  lemma {:induction false} PrecedesTransitive(a: Entry, b: Entry, c: Entry)
    requires Precedes(a, b) && Precedes(b, c)
    ensures Precedes(a, c)
  {}

  /** Put an id where it belongs in a ranked list. */
  method RankOne(txs: Pool, ranked: seq<Txid>, x: Txid) returns (r: seq<Txid>)
    requires Ranked(txs, ranked) && x in txs
    ensures Ranked(txs, r) && |r| == |ranked| + 1 && Members(r) == Members(ranked) + {x}
  {
    var i := |ranked|;
    while i > 0 && !Precedes(txs[ranked[i - 1]], txs[x])
      invariant 0 <= i <= |ranked|
      invariant forall j :: i <= j < |ranked| ==> Precedes(txs[x], txs[ranked[j]])
    {
      PrecedesTotal(txs[ranked[i - 1]], txs[x]);
      i := i - 1;
    }
    r := ranked[..i] + [x] + ranked[i..];
    RankedInsert(txs, ranked, x, i, r);
  }

  lemma {:induction false} RankedInsert(txs: Pool, ranked: seq<Txid>, x: Txid, i: nat, r: seq<Txid>)
    requires Ranked(txs, ranked) && x in txs && i <= |ranked| && r == ranked[..i] + [x] + ranked[i..]
    requires i > 0 ==> Precedes(txs[ranked[i - 1]], txs[x])
    requires forall j :: i <= j < |ranked| ==> Precedes(txs[x], txs[ranked[j]])
    ensures Ranked(txs, r) && Members(r) == Members(ranked) + {x}
  {
    InsertedMembers(ranked, x, i, r);
    forall j | 0 <= j < i
      ensures Precedes(txs[ranked[j]], txs[x])
    {
      if j < i - 1 {
        PrecedesTransitive(txs[ranked[j]], txs[ranked[i - 1]], txs[x]);
      }
    }
    forall p, q | 0 <= p < q < |r|
      ensures r[p] in txs && r[q] in txs && Precedes(txs[r[p]], txs[r[q]])
    {
      InsertedAt(ranked, x, i, r, p);
      InsertedAt(ranked, x, i, r, q);
    }
    forall p | 0 <= p < |r|
      ensures r[p] in txs
    {
      InsertedAt(ranked, x, i, r, p);
    }
  }

  lemma {:induction false} InsertedAt(ranked: seq<Txid>, x: Txid, i: nat, r: seq<Txid>, j: nat)
    requires i <= |ranked| && r == ranked[..i] + [x] + ranked[i..] && j < |r|
    ensures r[j] == if j < i then ranked[j] else if j == i then x else ranked[j - 1]
  {}

  lemma {:induction false} InsertedMembers(ranked: seq<Txid>, x: Txid, i: nat, r: seq<Txid>)
    requires i <= |ranked| && r == ranked[..i] + [x] + ranked[i..]
    ensures Members(r) == Members(ranked) + {x}
  {
    assert ranked == ranked[..i] + ranked[i..];
    MembersConcat(ranked[..i], ranked[i..]);
    MembersConcat(ranked[..i] + [x], ranked[i..]);
    MembersConcat(ranked[..i], [x]);
  }

  /** The final entries, best first. */
  method Candidates(txs: Pool, height: nat, mtp: nat) returns (r: seq<Txid>)
    ensures Ranked(txs, r) && NoDup(r) && Members(r) == set id | id in txs && FinalForBlock(txs[id], height, mtp)
  {
    r := [];
    var left := set id | id in txs && FinalForBlock(txs[id], height, mtp);
    ghost var all := left;
    assert Members(r) == {};
    while left != {}
      invariant left <= all && Ranked(txs, r) && Members(r) == all - left && Count(Members(r)) == |r|
      decreases left
    {
      var id :| id in left;
      CountWith(Members(r), id);
      r := RankOne(txs, r, id);
      left := left - {id};
    }
    FullCountNoDup(r);
  }

  // ----- Selecting

  /** The state of the selection. */
  datatype Pick = Pick(selected: seq<Txid>, chosen: set<Txid>, weight: nat)

  ghost predicate Sensible(txs: Pool, maxWeight: nat, maxCount: nat, pool: set<Txid>, s: Pick)
  {
    && NoDup(s.selected) && Members(s.selected) == s.chosen <= pool && pool <= txs.Keys
    && ParentsFirst(txs, s.selected)
    && s.weight == WeightOf(txs, s.selected) <= maxWeight && |s.selected| <= maxCount
  }

  /** Everything already selected for good, in order. */
  ghost predicate Extends(less: Pick, more: Pick)
  {
    |less.selected| <= |more.selected| && more.selected[..|less.selected|] == less.selected
  }

  lemma {:induction false} WeightGrows(txs: Pool, ids: seq<Txid>, n: nat)
    requires n <= |ids|
    ensures WeightOf(txs, ids[..n]) <= WeightOf(txs, ids)
  {
    if n < |ids| {
      WeightGrows(txs, ids[..|ids| - 1], n);
      assert ids[..|ids| - 1][..n] == ids[..n];
    } else {
      assert ids[..n] == ids;
    }
  }

  lemma {:induction false} StaysFull(txs: Pool, less: Pick, more: Pick, maxWeight: nat, maxCount: nat, x: Txid)
    requires x in txs && Extends(less, more) && Full(txs, less.selected, maxWeight, maxCount, x)
    ensures Full(txs, more.selected, maxWeight, maxCount, x)
  {
    WeightGrows(txs, more.selected, |less.selected|);
  }

  lemma {:induction false} SelectOne(txs: Pool, maxWeight: nat, maxCount: nat, pool: set<Txid>, s: Pick, x: Txid)
    requires Sensible(txs, maxWeight, maxCount, pool, s) && x in pool && x !in s.chosen
    requires !Full(txs, s.selected, maxWeight, maxCount, x) && Ready(txs, s.chosen, x)
    ensures var t := Pick(s.selected + [x], s.chosen + {x}, s.weight + txs[x].tx.weight);
            Sensible(txs, maxWeight, maxCount, pool, t) && Extends(s, t)
  {
    NoDupSnoc(s.selected, x);
    assert (s.selected + [x])[..|s.selected|] == s.selected;
  }

  /** There was no room left for the entry, and only better ones had taken it. */
  ghost predicate Outranked(txs: Pool, selected: seq<Txid>, maxWeight: nat, maxCount: nat, x: Txid)
    requires x in txs
  {
    exists k :: 0 <= k <= |selected| && OutrankedBy(txs, selected[..k], maxWeight, maxCount, x)
  }

  ghost predicate OutrankedBy(txs: Pool, selected: seq<Txid>, maxWeight: nat, maxCount: nat, x: Txid)
    requires x in txs
  {
    && Full(txs, selected, maxWeight, maxCount, x)
    && forall y :: y in Members(selected) && y in txs ==> Precedes(txs[y], txs[x])
  }

  lemma {:induction false} StaysOutranked(txs: Pool, less: Pick, more: Pick, maxWeight: nat, maxCount: nat, x: Txid)
    requires x in txs && Extends(less, more) && Outranked(txs, less.selected, maxWeight, maxCount, x)
    ensures Outranked(txs, more.selected, maxWeight, maxCount, x)
  {
    var k :| 0 <= k <= |less.selected| && OutrankedBy(txs, less.selected[..k], maxWeight, maxCount, x);
    assert less.selected[..k] == more.selected[..k];
  }

  /** Everything seen that was neither selected nor kept had to make way for better entries. */
  ghost predicate Fair(txs: Pool, maxWeight: nat, maxCount: nat, seen: set<Txid>, s: Pick, kept: seq<Txid>)
  {
    forall x :: x in seen && x in txs && x !in s.chosen && x !in Members(kept) ==>
                  Outranked(txs, s.selected, maxWeight, maxCount, x)
  }

  /** What became of the candidates looked at so far in a pass: selected, dropped for lack of room, or kept. */
  ghost predicate Sifted(txs: Pool, maxWeight: nat, maxCount: nat, seen: set<Txid>, before: Pick, s: Pick,
                         kept: seq<Txid>)
  {
    && Extends(before, s)
    && NoDup(kept) && Members(kept) <= seen && Members(kept) !! s.chosen
    && (forall x :: x in Members(kept) ==> !Ready(txs, {}, x))
    && (forall x :: x in seen && x in txs && x !in s.chosen && x !in Members(kept) ==>
                      Full(txs, s.selected, maxWeight, maxCount, x))
    && (|s.selected| == |before.selected| ==> forall x :: x in Members(kept) ==> !Ready(txs, s.chosen, x))
  }

  /** One candidate of a pass. */
  method Consider(txs: Pool, maxWeight: nat, maxCount: nat, ghost pool: set<Txid>, ghost seen: set<Txid>,
                  ghost before: Pick, s: Pick, kept: seq<Txid>, x: Txid)
    returns (s': Pick, kept': seq<Txid>)
    requires Sensible(txs, maxWeight, maxCount, pool, s) && x in pool && x !in s.chosen && x !in seen
    requires Sifted(txs, maxWeight, maxCount, seen, before, s, kept)
    ensures Sensible(txs, maxWeight, maxCount, pool, s')
    ensures Sifted(txs, maxWeight, maxCount, seen + {x}, before, s', kept')
    ensures Extends(s, s') && s'.chosen <= s.chosen + {x}
    ensures x !in s'.chosen && x !in Members(kept') ==> s' == s && Full(txs, s.selected, maxWeight, maxCount, x)
    ensures Members(kept) <= Members(kept')
    ensures |kept'| + |s'.selected| <= |kept| + |s.selected| + 1
  {
    if |s.selected| >= maxCount || s.weight + txs[x].tx.weight > maxWeight {
      SiftedMore(txs, maxWeight, maxCount, seen, before, s, kept, x, kept);
      return s, kept;
    }
    if Ready(txs, s.chosen, x) {
      SelectOne(txs, maxWeight, maxCount, pool, s, x);
      s', kept' := Pick(s.selected + [x], s.chosen + {x}, s.weight + txs[x].tx.weight), kept;
      SiftedSelect(txs, maxWeight, maxCount, seen, before, s, kept, x, s');
    } else {
      NoDupSnoc(kept, x);
      s', kept' := s, kept + [x];
      MembersConcat(kept, [x]);
      SiftedMore(txs, maxWeight, maxCount, seen, before, s, kept, x, kept');
    }
  }

  /** A candidate that is not selected is full or kept. */
  lemma {:induction false} SiftedMore(txs: Pool, maxWeight: nat, maxCount: nat, seen: set<Txid>, before: Pick, s: Pick,
                                      kept: seq<Txid>, x: Txid, kept': seq<Txid>)
    requires Sifted(txs, maxWeight, maxCount, seen, before, s, kept) && x !in seen && x !in s.chosen && NoDup(kept')
    requires if kept' == kept then x in txs && Full(txs, s.selected, maxWeight, maxCount, x)
             else Members(kept') == Members(kept) + {x} && !Ready(txs, s.chosen, x)
    ensures Sifted(txs, maxWeight, maxCount, seen + {x}, before, s, kept')
  {}

  lemma {:induction false} SiftedSelect(txs: Pool, maxWeight: nat, maxCount: nat, seen: set<Txid>, before: Pick,
                                        s: Pick, kept: seq<Txid>, x: Txid, t: Pick)
    requires Sifted(txs, maxWeight, maxCount, seen, before, s, kept) && Extends(s, t) && x !in seen
    requires t.chosen == s.chosen + {x} && |t.selected| == |s.selected| + 1
    ensures Sifted(txs, maxWeight, maxCount, seen + {x}, before, t, kept)
  {
    assert t.selected[..|before.selected|] == s.selected[..|before.selected|];
    forall y | y in seen + {x} && y in txs && y !in t.chosen && y !in Members(kept)
      ensures Full(txs, t.selected, maxWeight, maxCount, y)
    {
      StaysFull(txs, s, t, maxWeight, maxCount, y);
    }
  }

  /** In the first pass, whoever is dropped was dropped for better entries. */
  lemma {:induction false} FairStep(txs: Pool, maxWeight: nat, maxCount: nat, seen: set<Txid>, s: Pick, kept: seq<Txid>,
                                    x: Txid, t: Pick, kept': seq<Txid>)
    requires Fair(txs, maxWeight, maxCount, seen, s, kept) && Extends(s, t) && x in txs
    requires s.chosen <= t.chosen && Members(kept) <= Members(kept') && Members(s.selected) == s.chosen
    requires x !in t.chosen && x !in Members(kept') ==> t == s && Full(txs, s.selected, maxWeight, maxCount, x)
    requires forall y :: y in s.chosen && y in txs ==> Precedes(txs[y], txs[x])
    ensures Fair(txs, maxWeight, maxCount, seen + {x}, t, kept')
  {
    forall y | y in seen + {x} && y in txs && y !in t.chosen && y !in Members(kept')
      ensures Outranked(txs, t.selected, maxWeight, maxCount, y)
    {
      if y in seen {
        StaysOutranked(txs, s, t, maxWeight, maxCount, y);
      } else {
        assert t.selected[..|t.selected|] == t.selected;
        assert OutrankedBy(txs, t.selected[..|t.selected|], maxWeight, maxCount, y);
      }
    }
  }

  /** One pass over the candidates. */
  method Pass(txs: Pool, maxWeight: nat, maxCount: nat, ghost pool: set<Txid>, before: Pick, candidates: seq<Txid>)
    returns (s: Pick, kept: seq<Txid>)
    requires Sensible(txs, maxWeight, maxCount, pool, before)
    requires NoDup(candidates) && Members(candidates) <= pool && Members(candidates) !! before.chosen
    ensures Sensible(txs, maxWeight, maxCount, pool, s)
    ensures Sifted(txs, maxWeight, maxCount, Members(candidates), before, s, kept)
    ensures before.chosen == {} && Ranked(txs, candidates) ==>
              Fair(txs, maxWeight, maxCount, Members(candidates), s, kept)
    ensures |kept| + |s.selected| <= |candidates| + |before.selected|
  {
    s, kept := before, [];
    ghost var seen: set<Txid> := {};
    ghost var fair := before.chosen == {} && Ranked(txs, candidates);
    assert Members(candidates[..0]) == {} && Members(kept) == {};
    var i := 0;
    while i < |candidates|
      invariant 0 <= i <= |candidates| && seen == Members(candidates[..i])
      invariant Sensible(txs, maxWeight, maxCount, pool, s) && Sifted(txs, maxWeight, maxCount, seen, before, s, kept)
      invariant fair ==> Fair(txs, maxWeight, maxCount, seen, s, kept)
      invariant s.chosen <= before.chosen + seen
      invariant |kept| + |s.selected| <= i + |before.selected|
    {
      NoDupAt(candidates, i);
      s, kept := ConsiderNext(txs, maxWeight, maxCount, pool, seen, before, s, kept, candidates, i, fair);
      seen := seen + {candidates[i]};
      i := i + 1;
    }
    assert candidates[..i] == candidates;
  }

  /** One candidate of a pass, in its place in the list. */
  method ConsiderNext(txs: Pool, maxWeight: nat, maxCount: nat, ghost pool: set<Txid>, ghost seen: set<Txid>,
                      ghost before: Pick, s: Pick, kept: seq<Txid>, candidates: seq<Txid>, i: nat, ghost fair: bool)
    returns (s': Pick, kept': seq<Txid>)
    requires i < |candidates| && seen == Members(candidates[..i]) && candidates[i] !in seen && candidates[i] in pool
    requires Sensible(txs, maxWeight, maxCount, pool, s) && Sifted(txs, maxWeight, maxCount, seen, before, s, kept)
    requires candidates[i] !in before.chosen && s.chosen <= before.chosen + seen
    requires fair ==> before.chosen == {} && Ranked(txs, candidates) && Fair(txs, maxWeight, maxCount, seen, s, kept)
    ensures Sensible(txs, maxWeight, maxCount, pool, s')
    ensures Sifted(txs, maxWeight, maxCount, seen + {candidates[i]}, before, s', kept')
    ensures fair ==> Fair(txs, maxWeight, maxCount, seen + {candidates[i]}, s', kept')
    ensures s'.chosen <= before.chosen + (seen + {candidates[i]})
    ensures |kept'| + |s'.selected| <= |kept| + |s.selected| + 1
  {
    s', kept' := Consider(txs, maxWeight, maxCount, pool, seen, before, s, kept, candidates[i]);
    ChosenGrows(txs, maxWeight, maxCount, pool, s, s');
    if fair {
      BetterSeen(txs, candidates, i, before, s);
      FairStep(txs, maxWeight, maxCount, seen, s, kept, candidates[i], s', kept');
    }
  }

  lemma {:induction false} BetterSeen(txs: Pool, candidates: seq<Txid>, i: nat, before: Pick, s: Pick)
    requires Ranked(txs, candidates) && i < |candidates| && s.chosen <= before.chosen + Members(candidates[..i])
    requires before.chosen == {}
    ensures forall y :: y in s.chosen && y in txs ==> Precedes(txs[y], txs[candidates[i]])
  {}

  /** Whoever was considered and is neither selected nor waiting does not fit any more. */
  ghost predicate Settled(txs: Pool, maxWeight: nat, maxCount: nat, all: set<Txid>, s: Pick, left: seq<Txid>)
  {
    forall x :: x in all && x in txs && x !in s.chosen && x !in Members(left) ==>
                  Full(txs, s.selected, maxWeight, maxCount, x)
  }

  lemma {:induction false} SettledPass(txs: Pool, maxWeight: nat, maxCount: nat, all: set<Txid>, before: Pick,
                                       left: seq<Txid>, s: Pick, kept: seq<Txid>)
    requires Settled(txs, maxWeight, maxCount, all, before, left) && before.chosen <= s.chosen
    requires Sifted(txs, maxWeight, maxCount, Members(left), before, s, kept)
    ensures Settled(txs, maxWeight, maxCount, all, s, kept)
  {
    forall x | x in all && x in txs && x !in s.chosen && x !in Members(kept)
      ensures Full(txs, s.selected, maxWeight, maxCount, x)
    {
      if x !in Members(left) {
        StaysFull(txs, before, s, maxWeight, maxCount, x);
      }
    }
  }

  lemma {:induction false} ChosenGrows(txs: Pool, maxWeight: nat, maxCount: nat, pool: set<Txid>, less: Pick,
                                       more: Pick)
    requires Sensible(txs, maxWeight, maxCount, pool, less) && Sensible(txs, maxWeight, maxCount, pool, more)
    requires Extends(less, more)
    ensures less.chosen <= more.chosen
  {
    var n := |less.selected|;
    assert more.selected == more.selected[..n] + more.selected[n..];
    MembersConcat(more.selected[..n], more.selected[n..]);
  }

  /** An entry without in-pool parents was left out only for entries that pay at least as well. */
  ghost predicate FairToRoots(txs: Pool, maxWeight: nat, maxCount: nat, all: set<Txid>, s: Pick)
  {
    forall x :: x in all && x in txs && x !in s.chosen && Ready(txs, {}, x) ==>
                  Outranked(txs, s.selected, maxWeight, maxCount, x)
  }

  lemma {:induction false} FairFirst(txs: Pool, maxWeight: nat, maxCount: nat, all: set<Txid>, before: Pick, s: Pick,
                                     kept: seq<Txid>)
    requires Fair(txs, maxWeight, maxCount, all, s, kept) && Sifted(txs, maxWeight, maxCount, all, before, s, kept)
    ensures FairToRoots(txs, maxWeight, maxCount, all, s)
  {}

  lemma {:induction false} FairLater(txs: Pool, maxWeight: nat, maxCount: nat, all: set<Txid>, less: Pick, more: Pick)
    requires FairToRoots(txs, maxWeight, maxCount, all, less) && Extends(less, more) && less.chosen <= more.chosen
    ensures FairToRoots(txs, maxWeight, maxCount, all, more)
  {
    forall x | x in all && x in txs && x !in more.chosen && Ready(txs, {}, x)
      ensures Outranked(txs, more.selected, maxWeight, maxCount, x)
    {
      StaysOutranked(txs, less, more, maxWeight, maxCount, x);
    }
  }

  function FinalIds(txs: Pool, height: nat, mtp: nat): set<Txid>
  {
    set id | id in txs && FinalForBlock(txs[id], height, mtp)
  }

  /** The template: final entries, none twice, parents first, within weight and count; and whoever is left out either
      does not fit or lacks a parent. */
  ghost predicate IsTemplate(txs: Pool, height: nat, mtp: nat, maxWeight: nat, maxCount: nat, ids: seq<Txid>)
  {
    && NoDup(ids) && Members(ids) <= FinalIds(txs, height, mtp) && ParentsFirst(txs, ids)
    && WeightOf(txs, ids) <= maxWeight && |ids| <= maxCount
    && forall x :: x in FinalIds(txs, height, mtp) && x !in Members(ids) && Ready(txs, Members(ids), x) ==>
         Full(txs, ids, maxWeight, maxCount, x)
  }

  /** Select by fee rate in passes, so that parents precede children. */
  method SelectForBlock(txs: Pool, height: nat, mtp: nat, maxWeight: nat, maxCount: nat) returns (ids: seq<Txid>)
    ensures IsTemplate(txs, height, mtp, maxWeight, maxCount, ids)
    ensures forall x :: x in FinalIds(txs, height, mtp) && x !in Members(ids) && Ready(txs, {}, x) ==>
              Outranked(txs, ids, maxWeight, maxCount, x)
  {
    ghost var all := FinalIds(txs, height, mtp);
    var candidates := Candidates(txs, height, mtp);
    var empty := Pick([], {}, 0);
    NothingPicked(txs, maxWeight, maxCount, all);
    var s, left := Pass(txs, maxWeight, maxCount, all, empty, candidates);
    FairFirst(txs, maxWeight, maxCount, all, empty, s, left);
    SettledPass(txs, maxWeight, maxCount, all, empty, candidates, s, left);
    var progress := |s.selected| > 0;
    while progress && |left| > 0
      invariant Sensible(txs, maxWeight, maxCount, all, s) && Settled(txs, maxWeight, maxCount, all, s, left)
      invariant NoDup(left) && Members(left) <= all && Members(left) !! s.chosen
      invariant FairToRoots(txs, maxWeight, maxCount, all, s)
      invariant !progress ==> forall x :: x in Members(left) ==> !Ready(txs, s.chosen, x)
      decreases |left|, progress
    {
      progress, s, left := NextPass(txs, maxWeight, maxCount, all, s, left);
    }
    ids := s.selected;
    Finished(txs, height, mtp, maxWeight, maxCount, s, left, progress);
  }

  lemma {:induction false} NothingPicked(txs: Pool, maxWeight: nat, maxCount: nat, all: set<Txid>)
    requires all <= txs.Keys
    ensures Sensible(txs, maxWeight, maxCount, all, Pick([], {}, 0))
  {
    assert Members([]) == {};
  }

  /** Another pass over what is waiting. */
  method NextPass(txs: Pool, maxWeight: nat, maxCount: nat, ghost all: set<Txid>, s: Pick, left: seq<Txid>)
    returns (progress: bool, s': Pick, left': seq<Txid>)
    requires Sensible(txs, maxWeight, maxCount, all, s) && Settled(txs, maxWeight, maxCount, all, s, left)
    requires NoDup(left) && Members(left) <= all && Members(left) !! s.chosen
    requires FairToRoots(txs, maxWeight, maxCount, all, s)
    ensures Sensible(txs, maxWeight, maxCount, all, s') && Settled(txs, maxWeight, maxCount, all, s', left')
    ensures NoDup(left') && Members(left') <= all && Members(left') !! s'.chosen
    ensures FairToRoots(txs, maxWeight, maxCount, all, s')
    ensures !progress ==> |left'| <= |left| && forall x :: x in Members(left') ==> !Ready(txs, s'.chosen, x)
    ensures progress ==> |left'| < |left|
  {
    s', left' := Pass(txs, maxWeight, maxCount, all, s, left);
    ChosenGrows(txs, maxWeight, maxCount, all, s, s');
    SettledPass(txs, maxWeight, maxCount, all, s, left, s', left');
    FairLater(txs, maxWeight, maxCount, all, s, s');
    progress := |s'.selected| > |s.selected|;
  }

  lemma {:induction false} Finished(txs: Pool, height: nat, mtp: nat, maxWeight: nat, maxCount: nat, s: Pick,
                                    left: seq<Txid>, progress: bool)
    requires var all := FinalIds(txs, height, mtp);
             Sensible(txs, maxWeight, maxCount, all, s) && Settled(txs, maxWeight, maxCount, all, s, left)
    requires !progress ==> forall x :: x in Members(left) ==> !Ready(txs, s.chosen, x)
    requires progress ==> |left| == 0
    ensures IsTemplate(txs, height, mtp, maxWeight, maxCount, s.selected)
  {}

  // ----- The template replays

  /** A block of a coinbase and selected entries. */
  ghost predicate IsBlockOf(txs: Pool, ids: seq<Txid>, coinbase: Tx, block: seq<Tx>)
  {
    && |block| == |ids| + 1 && block[0] == coinbase
    && forall i :: 0 <= i < |ids| ==> ids[i] in txs && block[i + 1] == txs[ids[i]].tx
  }

  lemma {:induction false} ParentsFirstAt(txs: Pool, ids: seq<Txid>, i: nat)
    requires ParentsFirst(txs, ids) && i < |ids|
    ensures Ready(txs, Members(ids[..i]), ids[i])
  {
    var n := |ids| - 1;
    if i < n {
      ParentsFirstAt(txs, ids[..n], i);
      assert ids[..n][..i] == ids[..i];
    }
  }

  lemma {:induction false} BlockTxids(txs: Pool, ids: seq<Txid>, coinbase: Tx, block: seq<Tx>, k: nat)
    requires Sane(txs) && IsBlockOf(txs, ids, coinbase, block) && 0 < k <= |block|
    ensures Txids(block, k) == {coinbase.txid} + Members(ids[..k - 1])
  {
    if k == 1 {
      assert Txids(block, 0) == {};
      assert ids[..0] == [];
    } else {
      BlockTxids(txs, ids, coinbase, block, k - 1);
      assert EntrySane(ids[k - 2], txs[ids[k - 2]]);
      MembersPop(ids[..k - 1]);
      assert ids[..k - 1][..k - 2] == ids[..k - 2];
      assert block[(k - 2) + 1] == txs[ids[k - 2]].tx;
    }
  }

  lemma {:induction false} CreatedEarlier(block: seq<Tx>, height: nat, j: nat, k: nat, op: OutPoint)
    requires j < k <= |block| && op in Created(block[j], height, j == 0)
    ensures op in CreatedBy(block, height, k)
  {
    if j < k - 1 {
      CreatedEarlier(block, height, j, k - 1, op);
    }
  }

  /** An entry's inputs are not spent by the other entries of the block. */
  lemma {:induction false} UnspentSoFar(txs: Pool, spent: Index, ids: seq<Txid>, coinbase: Tx, block: seq<Tx>, k: nat,
                                        id: Txid)
    requires Inverse(txs, spent) && IsBlockOf(txs, ids, coinbase, block) && 0 < k <= |block|
    requires id in txs && id !in Members(ids[..k - 1])
    ensures Prevouts(txs[id].tx) !! SpentBy(block, k)
  {
    if k > 1 {
      MembersPop(ids[..k - 1]);
      assert ids[..k - 1][..k - 2] == ids[..k - 2];
      UnspentSoFar(txs, spent, ids, coinbase, block, k - 1, id);
      var other := ids[k - 2];
      assert block[(k - 2) + 1] == txs[other].tx;
      assert EntryIndexed(spent, id, txs[id]) && EntryIndexed(spent, other, txs[other]);
    }
  }

  /** Each input of the next entry exists once its parents are in. */
  lemma {:induction false} InputsExist(u: Utxos, txs: Pool, spent: Index, ids: seq<Txid>, coinbase: Tx, block: seq<Tx>,
                                       height: nat, k: nat)
    requires Grounded(u, txs) && Sane(txs) && Inverse(txs, spent) && IsBlockOf(txs, ids, coinbase, block)
    requires NoDup(ids) && ParentsFirst(txs, ids) && 0 < k < |block| && Replays(u, block, height, k)
    ensures Prevouts(block[k]) <= After(u, block, height, k).Keys
  {
    var i := k - 1;
    var id := ids[i];
    NoDupAt(ids, i);
    ParentsFirstAt(txs, ids, i);
    UnspentSoFar(txs, spent, ids, coinbase, block, k, id);
    TracksAll(u, block, height, k);
    assert block[i + 1] == txs[id].tx;
    forall op | op in Prevouts(txs[id].tx)
      ensures op in u + CreatedBy(block, height, k)
    {
      InputExists(u, txs, ids, coinbase, block, height, k, op);
    }
  }

  lemma {:induction false} InputExists(u: Utxos, txs: Pool, ids: seq<Txid>, coinbase: Tx, block: seq<Tx>, height: nat,
                                       k: nat, op: OutPoint)
    requires Grounded(u, txs) && Sane(txs) && IsBlockOf(txs, ids, coinbase, block) && 0 < k < |block|
    requires ids[k - 1] in txs && op in Prevouts(txs[ids[k - 1]].tx) && Ready(txs, Members(ids[..k - 1]), ids[k - 1])
    ensures op in u + CreatedBy(block, height, k)
  {
    var e := txs[ids[k - 1]];
    assert EntryBacked(u, txs, e);
    if op !in u {
      ParentIdsAre(e.tx.inputs);
      assert op.txid in Members(ids[..k - 1]);
      ParentCreates(txs, ids, coinbase, block, height, k, op);
    }
  }

  lemma {:induction false} ParentCreates(txs: Pool, ids: seq<Txid>, coinbase: Tx, block: seq<Tx>, height: nat, k: nat,
                                         op: OutPoint)
    requires Sane(txs) && IsBlockOf(txs, ids, coinbase, block) && 0 < k <= |block|
    requires op.txid in Members(ids[..k - 1]) && PoolCoin(txs, op)
    ensures op in CreatedBy(block, height, k)
  {
    var j := MemberAt(ids[..k - 1], op.txid);
    assert ids[j] == op.txid;
    assert EntrySane(op.txid, txs[op.txid]);
    var tx := block[j + 1];
    assert tx == txs[ids[j]].tx;
    OutputsAre(tx, height, false, |tx.outputs|);
    CreatedEarlier(block, height, j + 1, k, op);
  }

  lemma {:induction false} MemberAt(ids: seq<Txid>, x: Txid) returns (j: nat)
    requires x in Members(ids)
    ensures j < |ids| && ids[j] == x
  {
    j :| 0 <= j < |ids| && ids[j] == x;
  }

  /** A coinbase followed by the template replays on the coins: no missing input, no double spend. */
  lemma {:induction false} TemplateReplays(u: Utxos, txs: Pool, spent: Index, ids: seq<Txid>, coinbase: Tx,
                                           block: seq<Tx>, height: nat, k: nat)
    requires Grounded(u, txs) && Sane(txs) && Inverse(txs, spent) && IsBlockOf(txs, ids, coinbase, block)
    requires NoDup(ids) && ParentsFirst(txs, ids)
    requires coinbase.txid !in txs && NotYetCreated(u, coinbase) && k <= |block|
    ensures Replays(u, block, height, k)
  {
    if k > 0 {
      var j := k - 1;
      TemplateReplays(u, txs, spent, ids, coinbase, block, height, j);
      if j == 0 {
        assert Txids(block, 0) == {};
      } else {
        InputsExist(u, txs, spent, ids, coinbase, block, height, j);
        NoDupAt(ids, j - 1);
        BlockTxids(txs, ids, coinbase, block, j);
        assert EntrySane(ids[j - 1], txs[ids[j - 1]]) && block[(j - 1) + 1] == txs[ids[j - 1]].tx;
      }
      assert Follows(u, block, height, j);
    }
  }
}
