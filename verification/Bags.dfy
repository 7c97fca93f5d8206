/** Sums and multiset unions over the values of a finite map. */
module Bags {

  ghost function MapBag<K, V, O>(m: map<K, V>, f: V -> multiset<O>): multiset<O>
    decreases |m|
  {
    if m == map[] then multiset{} else var k :| k in m; f(m[k]) + MapBag(m - {k}, f)
  }

  ghost function MapSum<K, V>(m: map<K, V>, f: V -> nat): nat
    decreases |m|
  {
    if m == map[] then 0 else var k :| k in m; f(m[k]) + MapSum(m - {k}, f)
  }

  lemma {:induction false} BagSplit<K, V, O>(m: map<K, V>, f: V -> multiset<O>, k: K)
    requires k in m
    ensures MapBag(m, f) == f(m[k]) + MapBag(m - {k}, f)
    decreases |m|
  {
    var j :| j in m && MapBag(m, f) == f(m[j]) + MapBag(m - {j}, f);
    if j != k {
      BagSplit(m - {j}, f, k);
      BagSplit(m - {k}, f, j);
      assert m - {j} - {k} == m - {k} - {j};
    }
  }

  lemma BagUpdate<K, V, O>(m: map<K, V>, f: V -> multiset<O>, k: K, v: V)
    ensures MapBag(m[k := v], f) == f(v) + MapBag(m - {k}, f)
  {
    BagSplit(m[k := v], f, k);
    assert m[k := v] - {k} == m - {k};
  }

  lemma BagFresh<K, V, O>(m: map<K, V>, f: V -> multiset<O>, k: K, v: V)
    requires k !in m
    ensures MapBag(m[k := v], f) == f(v) + MapBag(m, f)
  {
    BagUpdate(m, f, k, v);
    assert m - {k} == m;
  }

  lemma Cancel<T>(a: multiset<T>, b: multiset<T>, c: multiset<T>)
    requires a + c == b + c
    ensures a == b
  {
    assert (a + c) - c == a && (b + c) - c == b;
  }

  ghost function BagAt<K, V, O>(m: map<K, V>, f: V -> multiset<O>, k: K): multiset<O> {
    if k in m then f(m[k]) else multiset{}
  }

  lemma BagReplace<K, V, O>(m: map<K, V>, f: V -> multiset<O>, k: K, v: V)
    ensures MapBag(m[k := v], f) + BagAt(m, f, k) == MapBag(m, f) + f(v)
  {
    BagUpdate(m, f, k, v);
    if k in m {
      BagSplit(m, f, k);
    } else {
      assert m - {k} == m;
    }
  }

  lemma {:induction false} SumSplit<K, V>(m: map<K, V>, f: V -> nat, k: K)
    requires k in m
    ensures MapSum(m, f) == f(m[k]) + MapSum(m - {k}, f)
    decreases |m|
  {
    var j :| j in m && MapSum(m, f) == f(m[j]) + MapSum(m - {j}, f);
    if j != k {
      SumSplit(m - {j}, f, k);
      SumSplit(m - {k}, f, j);
      assert m - {j} - {k} == m - {k} - {j};
    }
  }

  lemma SumUpdate<K, V>(m: map<K, V>, f: V -> nat, k: K, v: V)
    ensures MapSum(m[k := v], f) == f(v) + MapSum(m - {k}, f)
  {
    SumSplit(m[k := v], f, k);
    assert m[k := v] - {k} == m - {k};
  }

  lemma SumFresh<K, V>(m: map<K, V>, f: V -> nat, k: K, v: V)
    requires k !in m
    ensures MapSum(m[k := v], f) == f(v) + MapSum(m, f)
  {
    SumUpdate(m, f, k, v);
    assert m - {k} == m;
  }

  lemma Difference<T>(a: set<T>, b: set<T>)
    requires b <= a
    ensures |a - b| == |a| - |b|
  {
    assert a == (a - b) + b;
  }

  lemma Without<K, V>(m: map<K, V>, b: set<K>)
    requires b <= m.Keys
    ensures |m - b| == |m| - |b|
  {
    Difference(m.Keys, b);
    assert (m - b).Keys == m.Keys - b;
  }
}
