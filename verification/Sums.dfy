/** Sums over finite tables, independent of the order in which the entries are visited. */
module Sums {

  /** The sum of `f` over all entries. */
  ghost function Sum<K, V>(m: map<K, V>, f: (K, V) -> nat): nat
    decreases |m|
  {
    if m == map[] then 0
    else
      var k :| k in m;
      f(k, m[k]) + Sum(m - {k}, f)
  }

  /** Any entry can be counted first. */
  lemma {:induction false} SumTakesAny<K, V>(m: map<K, V>, f: (K, V) -> nat, k: K)
    requires k in m
    ensures Sum(m, f) == f(k, m[k]) + Sum(m - {k}, f)
    decreases |m|
  {
    var first :| first in m && Sum(m, f) == f(first, m[first]) + Sum(m - {first}, f);
    if first != k {
      SumTakesAny(m - {first}, f, k);
      SumTakesAny(m - {k}, f, first);
      assert m - {first} - {k} == m - {k} - {first};
    }
  }

  lemma TakeBack<K, V>(m: map<K, V>, k: K, v: V)
    requires k !in m
    ensures m[k := v] - {k} == m
  {
  }

  lemma SumAdd<K, V>(m: map<K, V>, f: (K, V) -> nat, k: K, v: V)
    requires k !in m
    ensures Sum(m[k := v], f) == Sum(m, f) + f(k, v)
  {
    SumTakesAny(m[k := v], f, k);
    TakeBack(m, k, v);
  }

  lemma MergeUpdate<K, V>(a: map<K, V>, b: map<K, V>, k: K, v: V)
    ensures (a + b)[k := v] == a + b[k := v]
  {
  }

  lemma SumUnionAdd<K, V>(a: map<K, V>, b: map<K, V>, f: (K, V) -> nat, k: K, v: V)
    requires k !in a && k !in b && Sum(a + b, f) == Sum(a, f) + Sum(b, f)
    ensures Sum(a + b[k := v], f) == Sum(a, f) + Sum(b[k := v], f)
  {
    SumAdd(b, f, k, v);
    SumAdd(a + b, f, k, v);
    MergeUpdate(a, b, k, v);
  }

  lemma PutBack<K, V>(m: map<K, V>, k: K)
    requires k in m
    ensures (m - {k})[k := m[k]] == m
  {
  }

  /** The sum over two tables with no key in common is the sum of their sums. */
  lemma {:induction false} SumUnion<K, V>(a: map<K, V>, b: map<K, V>, f: (K, V) -> nat)
    requires a.Keys !! b.Keys
    ensures Sum(a + b, f) == Sum(a, f) + Sum(b, f)
    decreases |b|
  {
    if b == map[] {
      assert a + b == a;
    } else {
      var k :| k in b;
      SumUnion(a, b - {k}, f);
      SumUnionAdd(a, b - {k}, f, k, b[k]);
      PutBack(b, k);
    }
  }

  /** Splitting off the entries under some keys splits the sum. */
  lemma SumSplit<K, V>(m: map<K, V>, keys: set<K>, f: (K, V) -> nat)
    requires keys <= m.Keys
    ensures Sum(m, f) == Sum(m - keys, f) + Sum(map k | k in keys :: m[k], f)
  {
    var part := map k | k in keys :: m[k];
    SumUnion(m - keys, part, f);
    assert (m - keys) + part == m;
  }

  /** Tables with the same keys whose entries weigh the same have the same sum. */
  lemma {:induction false} SumAgrees<K, V, W>(m: map<K, V>, f: (K, V) -> nat, n: map<K, W>, g: (K, W) -> nat)
    requires m.Keys == n.Keys && forall k | k in m :: f(k, m[k]) == g(k, n[k])
    ensures Sum(m, f) == Sum(n, g)
    decreases |m|
  {
    if m == map[] {
      assert n.Keys == {};
    } else {
      var k :| k in m;
      SumTakesAny(m, f, k);
      SumTakesAny(n, g, k);
      SumAgrees(m - {k}, f, n - {k}, g);
    }
  }
}
