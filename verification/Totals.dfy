/** Sums over the entries of a finite map, whatever order they are visited in. */
module Totals {

  ghost function Total<K, V>(m: map<K, V>, f: V -> int): int
    decreases |m.Keys|
  {
    if m.Keys == {} then 0
    else
      var k :| k in m.Keys;
      assert (m - {k}).Keys == m.Keys - {k};
      f(m[k]) + Total(m - {k}, f)
  }

  /** Any entry can be taken out first. */
  lemma {:induction false} TotalRemove<K, V>(m: map<K, V>, f: V -> int, k: K)
    requires k in m
    ensures Total(m, f) == f(m[k]) + Total(m - {k}, f)
    decreases |m.Keys|
  {
    var a :| a in m.Keys && Total(m, f) == f(m[a]) + Total(m - {a}, f);
    assert (m - {a}).Keys == m.Keys - {a};
    assert (m - {k}).Keys == m.Keys - {k};
    if a != k {
      TotalRemove(m - {a}, f, k);
      TotalRemove(m - {k}, f, a);
      assert m - {a} - {k} == m - {k} - {a};
    }
  }

  lemma TotalInsert<K, V>(m: map<K, V>, f: V -> int, k: K, v: V)
    requires k !in m
    ensures Total(m[k := v], f) == Total(m, f) + f(v)
  {
    TotalRemove(m[k := v], f, k);
    assert m[k := v] - {k} == m;
  }

  lemma TotalUpdate<K, V>(m: map<K, V>, f: V -> int, k: K, v: V)
    requires k in m
    ensures Total(m[k := v], f) == Total(m, f) - f(m[k]) + f(v)
  {
    TotalRemove(m, f, k);
    TotalRemove(m[k := v], f, k);
    assert m[k := v] - {k} == m - {k};
  }

  /** A sum of values that are never negative is at least each of them. */
  lemma {:induction false} TotalAtLeast<K, V>(m: map<K, V>, f: V -> int)
    requires forall k {:trigger m[k]} :: k in m ==> f(m[k]) >= 0
    ensures Total(m, f) >= 0
    ensures forall k {:trigger m[k]} :: k in m ==> f(m[k]) <= Total(m, f)
    decreases |m.Keys|
  {
    if m.Keys != {} {
      var a :| a in m.Keys && Total(m, f) == f(m[a]) + Total(m - {a}, f);
      assert (m - {a}).Keys == m.Keys - {a};
      TotalAtLeast(m - {a}, f);
      forall k | k in m ensures f(m[k]) <= Total(m, f) {
        if k != a {
          assert (m - {a})[k] == m[k];
        }
      }
    }
  }

  /** A sum of zeros is zero. */
  lemma {:induction false} TotalZero<K, V>(m: map<K, V>, f: V -> int)
    requires forall k {:trigger m[k]} :: k in m ==> f(m[k]) == 0
    ensures Total(m, f) == 0
    decreases |m.Keys|
  {
    if m.Keys != {} {
      var a :| a in m.Keys && Total(m, f) == f(m[a]) + Total(m - {a}, f);
      assert (m - {a}).Keys == m.Keys - {a};
      TotalZero(m - {a}, f);
    }
  }
}
