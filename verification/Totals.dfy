/** Sums of byte charges over finite sets of owners. */
module Totals {

  ghost function Sum<T>(ids: set<T>, m: map<T, nat>): nat
    requires ids <= m.Keys
  {
    if ids == {} then 0
    else
      var x :| x in ids;
      m[x] + Sum(ids - {x}, m)
  }

  lemma {:induction false} SumRemove<T>(ids: set<T>, m: map<T, nat>, x: T)
    requires ids <= m.Keys && x in ids
    ensures Sum(ids, m) == m[x] + Sum(ids - {x}, m)
    decreases |ids|
  {
    var y :| y in ids && Sum(ids, m) == m[y] + Sum(ids - {y}, m);
    if x != y {
      SumRemove(ids - {y}, m, x);
      SumRemove(ids - {x}, m, y);
      assert ids - {y} - {x} == ids - {x} - {y};
    }
  }

  lemma {:induction false} SumAdd<T>(ids: set<T>, m: map<T, nat>, x: T)
    requires ids <= m.Keys && x in m && x !in ids
    ensures Sum(ids + {x}, m) == Sum(ids, m) + m[x]
  {
    SumRemove(ids + {x}, m, x);
    assert ids + {x} - {x} == ids;
  }

  /** A sum only depends on the charges it adds up. */
  lemma {:induction false} SumFrame<T>(ids: set<T>, m: map<T, nat>, n: map<T, nat>)
    requires ids <= m.Keys && ids <= n.Keys && forall x :: x in ids ==> m[x] == n[x]
    ensures Sum(ids, m) == Sum(ids, n)
    decreases |ids|
  {
    if ids != {} {
      var x :| x in ids;
      SumRemove(ids, m, x);
      SumRemove(ids, n, x);
      SumFrame(ids - {x}, m, n);
    }
  }

  lemma {:induction false} SumUnion<T>(x: set<T>, y: set<T>, m: map<T, nat>)
    requires x <= m.Keys && y <= m.Keys && x !! y
    ensures Sum(x + y, m) == Sum(x, m) + Sum(y, m)
    decreases |y|
  {
    if y == {} {
      assert x + y == x;
    } else {
      var e :| e in y;
      SumRemove(y, m, e);
      SumRemove(x + y, m, e);
      assert x + y - {e} == x + (y - {e});
      SumUnion(x, y - {e}, m);
    }
  }

  /** The total of a whole ledger. */
  ghost function Total<T>(m: map<T, nat>): nat {
    Sum(m.Keys, m)
  }

  lemma {:induction false} TotalInsert<T>(m: map<T, nat>, x: T, v: nat)
    requires x !in m
    ensures Total(m[x := v]) == Total(m) + v
  {
    var n := m[x := v];
    assert n.Keys == m.Keys + {x};
    SumAdd(m.Keys, n, x);
    SumFrame(m.Keys, m, n);
  }

  lemma {:induction false} TotalRemove<T>(m: map<T, nat>, x: T)
    requires x in m
    ensures Total(m) == m[x] + Total(m - {x})
  {
    var n := m - {x};
    SumRemove(m.Keys, m, x);
    assert n.Keys == m.Keys - {x};
    SumFrame(n.Keys, m, n);
  }

  lemma {:induction false} TotalUpdate<T>(m: map<T, nat>, x: T, v: nat)
    requires x in m
    ensures Total(m[x := v]) == Total(m) - m[x] + v
  {
    TotalRemove(m, x);
    TotalRemove(m[x := v], x);
    assert m[x := v] - {x} == m - {x};
  }

  lemma {:induction false} SubsetSize<T>(x: set<T>, y: set<T>)
    requires x <= y
    ensures |x| <= |y|
  {
    assert y == x + (y - x);
  }
}
