/** Sums over the values of a finite map. */
module Sums {

  ghost function Pick<K>(m: map<K, nat>): (k: K)
    requires m != map[]
    ensures k in m
  {
    var k :| k in m;
    k
  }

  ghost function Sum<K>(m: map<K, nat>): nat
    decreases m.Keys
  {
    if m == map[] then 0 else m[Pick(m)] + Sum(m - {Pick(m)})
  }

  lemma {:induction false} SumWithout<K>(m: map<K, nat>, k: K)
    requires k in m
    ensures Sum(m) == m[k] + Sum(m - {k})
    decreases m.Keys
  {
    var j := Pick(m);
    if j != k {
      var mj, mk := m - {j}, m - {k};
      SumWithout(mj, k);
      SumWithout(mk, j);
      assert mj - {k} == mk - {j};
    }
  }

  lemma {:induction false} SumWith<K>(m: map<K, nat>, k: K, v: nat)
    requires k !in m
    ensures Sum(m[k := v]) == Sum(m) + v
  {
    SumWithout(m[k := v], k);
    assert m[k := v] - {k} == m;
  }

  lemma {:induction false} SumPut<K>(m: map<K, nat>, k: K, v: nat)
    ensures k in m ==> m[k] <= Sum(m)
    ensures Sum(m[k := v]) == Sum(m) + v - if k in m then m[k] else 0
  {
    if k in m {
      SumWithout(m, k);
      SumWith(m - {k}, k, v);
      assert (m - {k})[k := v] == m[k := v];
    } else {
      SumWith(m, k, v);
    }
  }

  lemma {:induction false} SumWithoutOneMore<K>(m: map<K, nat>, gone: set<K>, k: K)
    requires k in m && k !in gone
    ensures Sum(m - gone) == m[k] + Sum(m - (gone + {k}))
  {
    SumWithout(m - gone, k);
    assert (m - gone) - {k} == m - (gone + {k});
  }

  lemma {:induction false} SumLess<K>(m: map<K, nat>, gone: set<K>)
    ensures Sum(m - gone) <= Sum(m)
  {
    if gone == {} {
      assert m - gone == m;
    } else {
      var k := PickOne(gone);
      var rest := gone - {k};
      SumLess(m, rest);
      if k in m {
        SumWithoutOneMore(m, rest, k);
        assert rest + {k} == gone;
      } else {
        assert m - gone == m - rest;
      }
    }
  }

  lemma {:induction false} SumUnion<K>(a: map<K, nat>, b: map<K, nat>)
    requires a.Keys !! b.Keys
    ensures Sum(a + b) == Sum(a) + Sum(b)
    decreases b.Keys
  {
    if b == map[] {
      assert a + b == a;
    } else {
      var k := PickOne(b.Keys);
      SumWithout(b, k);
      SumWithout(a + b, k);
      SumUnion(a, b - {k});
      assert (a + b) - {k} == a + (b - {k});
    }
  }

  // ----- Counting a set one element at a time

  ghost function PickOne<T>(s: set<T>): (x: T)
    requires s != {}
    ensures x in s
  {
    var x :| x in s;
    x
  }

  ghost function Count<T>(s: set<T>): nat
  {
    if s == {} then 0 else 1 + Count(s - {PickOne(s)})
  }

  lemma {:induction false} CountWithout<T>(s: set<T>, x: T)
    requires x in s
    ensures Count(s) == 1 + Count(s - {x})
  {
    var y := PickOne(s);
    if x != y {
      CountWithout(s - {y}, x);
      CountWithout(s - {x}, y);
      assert (s - {y}) - {x} == (s - {x}) - {y};
    }
  }

  lemma {:induction false} CountWith<T>(s: set<T>, x: T)
    requires x !in s
    ensures Count(s + {x}) == Count(s) + 1
  {
    CountWithout(s + {x}, x);
    assert (s + {x}) - {x} == s;
  }

  lemma {:induction false} CountIsSize<T>(s: set<T>)
    ensures Count(s) == |s|
  {
    if s != {} {
      CountIsSize(s - {PickOne(s)});
    }
  }

  lemma {:induction false} CountSubset<T>(s: set<T>, t: set<T>)
    requires s <= t
    ensures Count(s) <= Count(t)
  {
    if s != {} {
      var x := PickOne(s);
      CountWithout(t, x);
      CountSubset(s - {x}, t - {x});
    }
  }
}
