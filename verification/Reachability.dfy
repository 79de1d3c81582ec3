/** Reachability along the edges of a directed graph given by its successor sets. */
module Reachability {

  function Next<T>(graph: map<T, set<T>>, x: T): set<T>
  {
    if x in graph then graph[x] else {}
  }

  /** A path of at most `n` edges leads from `x` to `y`. */
  ghost predicate Within<T(!new)>(next: map<T, set<T>>, x: T, y: T, n: nat)
  {
    n > 0 && (y in Next(next, x) || exists m :: m in Next(next, x) && Within(next, m, y, n - 1))
  }

  /** A path of at least one edge leads from `x` to `y`. */
  ghost predicate Reaches<T(!new)>(next: map<T, set<T>>, x: T, y: T)
  {
    exists n: nat :: Within(next, x, y, n)
  }

  lemma {:induction false} ReachesNext<T(!new)>(next: map<T, set<T>>, x: T, y: T)
    requires y in Next(next, x)
    ensures Reaches(next, x, y)
  {
    assert Within(next, x, y, 1);
  }

  lemma {:induction false} ReachesVia<T(!new)>(next: map<T, set<T>>, x: T, m: T, y: T)
    requires m in Next(next, x) && Reaches(next, m, y)
    ensures Reaches(next, x, y)
  {
    var n: nat :| Within(next, m, y, n);
    assert Within(next, x, y, n + 1);
  }

  lemma {:induction false} WithinThen<T(!new)>(next: map<T, set<T>>, x: T, m: T, y: T, n: nat)
    requires Within(next, x, m, n) && Reaches(next, m, y)
    ensures Reaches(next, x, y)
    decreases n
  {
    if m in Next(next, x) {
      ReachesVia(next, x, m, y);
    } else {
      var k :| k in Next(next, x) && Within(next, k, m, n - 1);
      WithinThen(next, k, m, y, n - 1);
      ReachesVia(next, x, k, y);
    }
  }

  lemma {:induction false} ReachesTransitive<T(!new)>(next: map<T, set<T>>, x: T, m: T, y: T)
    requires Reaches(next, x, m) && Reaches(next, m, y)
    ensures Reaches(next, x, y)
  {
    var n: nat :| Within(next, x, m, n);
    WithinThen(next, x, m, y, n);
  }

  lemma {:induction false} ReachesThenNext<T(!new)>(next: map<T, set<T>>, x: T, m: T, y: T)
    requires Reaches(next, x, m) && y in Next(next, m)
    ensures Reaches(next, x, y)
  {
    ReachesNext(next, m, y);
    ReachesTransitive(next, x, m, y);
  }

  /** No edge leaves the set. */
  ghost predicate Closed<T(!new)>(next: map<T, set<T>>, s: set<T>)
  {
    forall x {:trigger Next(next, x)} :: x in s ==> Next(next, x) <= s
  }

  lemma {:induction false} WithinClosed<T(!new)>(next: map<T, set<T>>, s: set<T>, x: T, y: T, n: nat)
    requires Closed(next, s) && x in s && Within(next, x, y, n)
    ensures y in s
    decreases n
  {
    assert Next(next, x) <= s;
    if y !in Next(next, x) {
      var m :| m in Next(next, x) && Within(next, m, y, n - 1);
      WithinClosed(next, s, m, y, n - 1);
    }
  }

  /** A closed set contains everything reachable from its members. */
  lemma {:induction false} ClosedReaches<T(!new)>(next: map<T, set<T>>, s: set<T>, x: T, y: T)
    requires Closed(next, s) && x in s && Reaches(next, x, y)
    ensures y in s
  {
    var n: nat :| Within(next, x, y, n);
    WithinClosed(next, s, x, y, n);
  }

  /** Fewer edges reach no further. */
  lemma {:induction false} ReachesFewer<T(!new)>(less: map<T, set<T>>, more: map<T, set<T>>, x: T, y: T)
    requires forall a :: Next(less, a) <= Next(more, a)
    ensures Reaches(less, x, y) ==> Reaches(more, x, y)
  {
    if Reaches(less, x, y) {
      var n: nat :| Within(less, x, y, n);
      WithinFewer(less, more, x, y, n);
    }
  }

  lemma {:induction false} WithinFewer<T(!new)>(less: map<T, set<T>>, more: map<T, set<T>>, x: T, y: T, n: nat)
    requires forall a :: Next(less, a) <= Next(more, a)
    requires Within(less, x, y, n)
    ensures Reaches(more, x, y)
    decreases n
  {
    if y in Next(less, x) {
      ReachesNext(more, x, y);
    } else {
      var m :| m in Next(less, x) && Within(less, m, y, n - 1);
      WithinFewer(less, more, m, y, n - 1);
      ReachesVia(more, x, m, y);
    }
  }

  // ----- Closures and how a worklist computes them

  /** `x` is one of the roots or reachable from one. */
  ghost predicate From<T(!new)>(next: map<T, set<T>>, roots: set<T>, x: T)
  {
    x in roots || exists r :: r in roots && Reaches(next, r, x)
  }

  /** `s` is the roots and everything reachable from them. */
  ghost predicate IsClosure<T(!new)>(next: map<T, set<T>>, roots: set<T>, s: set<T>)
  {
    forall x {:trigger From(next, roots, x)} :: x in s <==> From(next, roots, x)
  }

  /** `done` has been expanded, `todo` is waiting; together they hold the roots and only reachable elements. */
  ghost predicate Exploring<T(!new)>(next: map<T, set<T>>, roots: set<T>, done: set<T>, todo: set<T>)
  {
    && roots <= done + todo
    && (forall x {:trigger From(next, roots, x)} :: x in done + todo ==> From(next, roots, x))
    && (forall x {:trigger Next(next, x)} :: x in done ==> Next(next, x) <= done + todo)
  }

  lemma {:induction false} FromNext<T(!new)>(next: map<T, set<T>>, roots: set<T>, x: T, y: T)
    requires From(next, roots, x) && y in Next(next, x)
    ensures From(next, roots, y)
  {
    if x in roots {
      ReachesNext(next, x, y);
    } else {
      var r :| r in roots && Reaches(next, r, x);
      ReachesThenNext(next, r, x, y);
    }
  }

  lemma {:induction false} ExploreStart<T(!new)>(next: map<T, set<T>>, roots: set<T>)
    ensures Exploring(next, roots, {}, roots)
  {}

  /** Elements that were already expanded can be dropped from the waiting ones. */
  lemma {:induction false} ExploreLess<T(!new)>(next: map<T, set<T>>, roots: set<T>, done: set<T>, todo: set<T>,
                                                rest: set<T>)
    requires Exploring(next, roots, done, todo) && rest <= todo <= done + rest
    ensures Exploring(next, roots, done, rest)
  {
    assert done + todo == done + rest;
  }

  /** Expand one waiting element. */
  lemma {:induction false} ExploreStep<T(!new)>(next: map<T, set<T>>, roots: set<T>, done: set<T>, todo: set<T>,
                                                x: T, rest: set<T>)
    requires Exploring(next, roots, done, todo) && todo == rest + {x}
    ensures Exploring(next, roots, done + {x}, rest + Next(next, x))
  {
    var done', todo' := done + {x}, rest + Next(next, x);
    assert done + todo <= done' + todo';
    forall y | y in done' + todo'
      ensures From(next, roots, y)
    {
      assert From(next, roots, x);
      if y in Next(next, x) {
        FromNext(next, roots, x, y);
      }
    }
  }

  /** With nothing waiting the expanded elements are the closure. */
  lemma {:induction false} ExploreDone<T(!new)>(next: map<T, set<T>>, roots: set<T>, done: set<T>)
    requires Exploring(next, roots, done, {})
    ensures IsClosure(next, roots, done) && Closed(next, done)
  {
    assert done + {} == done;
    forall x | From(next, roots, x)
      ensures x in done
    {
      if x !in roots {
        var r :| r in roots && Reaches(next, r, x);
        ClosedReaches(next, done, r, x);
      }
    }
  }

  lemma {:induction false} FromFewer<T(!new)>(less: map<T, set<T>>, more: map<T, set<T>>, roots: set<T>, x: T)
    requires forall a :: Next(less, a) <= Next(more, a)
    requires From(less, roots, x)
    ensures From(more, roots, x)
  {
    if x !in roots {
      var r :| r in roots && Reaches(less, r, x);
      ReachesFewer(less, more, r, x);
    }
  }

  lemma {:induction false} FromMore<T(!new)>(next: map<T, set<T>>, roots: set<T>, more: set<T>, x: T)
    requires roots <= more && From(next, roots, x)
    ensures From(next, more, x)
  {}

  // ----- One more node

  /** `more` is `less` with a node that has edges in but none out. */
  ghost predicate SinkAdded<T(!new)>(less: map<T, set<T>>, more: map<T, set<T>>, s: T)
  {
    Next(more, s) == {} && forall x {:trigger Next(more, x)} :: Next(more, x) <= Next(less, x) + {s}
  }

  lemma {:induction false} SinkReachesNothing<T(!new)>(graph: map<T, set<T>>, s: T, y: T)
    requires Next(graph, s) == {}
    ensures !Reaches(graph, s, y)
  {}

  lemma {:induction false} WithinBeforeSink<T(!new)>(less: map<T, set<T>>, more: map<T, set<T>>, s: T, x: T,
                                                     y: T, n: nat)
    requires SinkAdded(less, more, s) && y != s && Within(more, x, y, n)
    ensures Within(less, x, y, n)
  {
    if y !in Next(more, x) {
      var m :| m in Next(more, x) && Within(more, m, y, n - 1);
      WithinBeforeSink(less, more, s, m, y, n - 1);
      assert Next(more, x) <= Next(less, x) + {s};
      assert m != s;
    }
  }

  lemma {:induction false} ReachesBeforeSink<T(!new)>(less: map<T, set<T>>, more: map<T, set<T>>, s: T, x: T, y: T)
    requires SinkAdded(less, more, s) && y != s && Reaches(more, x, y)
    ensures Reaches(less, x, y)
  {
    var n: nat :| Within(more, x, y, n);
    WithinBeforeSink(less, more, s, x, y, n);
  }

  /** The last step into the sink starts somewhere the smaller graph reaches. */
  lemma {:induction false} WithinSink<T(!new)>(less: map<T, set<T>>, more: map<T, set<T>>, s: T, x: T, n: nat)
    returns (p: T)
    requires SinkAdded(less, more, s) && Within(more, x, s, n)
    ensures s in Next(more, p) && (p == x || Reaches(less, x, p))
    decreases n
  {
    if s in Next(more, x) {
      p := x;
    } else {
      var m :| m in Next(more, x) && Within(more, m, s, n - 1);
      p := WithinSink(less, more, s, m, n - 1);
      assert Next(more, x) <= Next(less, x) + {s};
      if p == m {
        ReachesNext(less, x, p);
      } else {
        ReachesVia(less, x, m, p);
      }
    }
  }

  lemma {:induction false} ReachesSink<T(!new)>(less: map<T, set<T>>, more: map<T, set<T>>, s: T, x: T) returns (p: T)
    requires SinkAdded(less, more, s) && Reaches(more, x, s)
    ensures s in Next(more, p) && (p == x || Reaches(less, x, p))
  {
    var n: nat :| Within(more, x, s, n);
    p := WithinSink(less, more, s, x, n);
  }

  /** `more` is `less` with a node that has edges out but none in. */
  ghost predicate SourceAdded<T(!new)>(less: map<T, set<T>>, more: map<T, set<T>>, s: T)
  {
    forall x {:trigger Next(more, x)} :: s !in Next(more, x) && (x != s ==> Next(more, x) <= Next(less, x))
  }

  lemma {:induction false} WithinFromOthers<T(!new)>(less: map<T, set<T>>, more: map<T, set<T>>, s: T, x: T,
                                                     y: T, n: nat)
    requires SourceAdded(less, more, s) && x != s && Within(more, x, y, n)
    ensures Within(less, x, y, n)
  {
    assert Next(more, x) <= Next(less, x);
    if y !in Next(more, x) {
      var m :| m in Next(more, x) && Within(more, m, y, n - 1);
      WithinFromOthers(less, more, s, m, y, n - 1);
    }
  }

  lemma {:induction false} FromOthers<T(!new)>(less: map<T, set<T>>, more: map<T, set<T>>, s: T, roots: set<T>, y: T)
    requires SourceAdded(less, more, s) && s !in roots && From(more, roots, y)
    ensures From(less, roots, y)
  {
    if y !in roots {
      var r :| r in roots && Reaches(more, r, y);
      var n: nat :| Within(more, r, y, n);
      WithinFromOthers(less, more, s, r, y, n);
    }
  }
}
