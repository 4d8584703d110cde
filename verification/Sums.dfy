/** Totals over the rows of a finite table. */
module Sums {

  ghost function Total<K(!new), V>(m: map<K, V>, weight: (K, V) -> nat): nat
    decreases |m|
  {
    if m == map[] then 0
    else
      var k :| k in m;
      assert |m - {k}| < |m| by { CardinalityOfRemoval(m, k); }
      weight(k, m[k]) + Total(m - {k}, weight)
  }

  lemma CardinalityOfRemoval<K, V>(m: map<K, V>, k: K)
    requires k in m
    ensures |m - {k}| == |m| - 1
  {
    assert (m - {k}).Keys == m.Keys - {k};
    assert |m.Keys - {k}| == |m.Keys| - 1;
  }

  /** The total does not depend on the order in which rows are visited. */
  lemma {:induction false} TotalRemove<K(!new), V>(m: map<K, V>, weight: (K, V) -> nat, k: K)
    requires k in m
    ensures Total(m, weight) == weight(k, m[k]) + Total(m - {k}, weight)
    decreases |m|
  {
    CardinalityOfRemoval(m, k);
    var first :| first in m && Total(m, weight) == weight(first, m[first]) + Total(m - {first}, weight);
    if first != k {
      CardinalityOfRemoval(m, first);
      TotalRemove(m - {first}, weight, k);
      TotalRemove(m - {k}, weight, first);
      assert m - {first} - {k} == m - {k} - {first};
    }
  }

  lemma TotalInsert<K(!new), V>(m: map<K, V>, weight: (K, V) -> nat, k: K, v: V)
    requires k !in m
    ensures Total(m[k := v], weight) == Total(m, weight) + weight(k, v)
  {
    TotalRemove(m[k := v], weight, k);
    assert m[k := v] - {k} == m;
  }

  lemma TotalUpdate<K(!new), V>(m: map<K, V>, weight: (K, V) -> nat, k: K, v: V)
    requires k in m
    ensures Total(m[k := v], weight) + weight(k, m[k]) == Total(m, weight) + weight(k, v)
  {
    TotalRemove(m[k := v], weight, k);
    TotalRemove(m, weight, k);
    assert m[k := v] - {k} == m - {k};
  }

  lemma {:induction false} TotalPointwise<K(!new), V>(m: map<K, V>, lower: (K, V) -> nat, upper: (K, V) -> nat)
    requires forall k :: k in m ==> lower(k, m[k]) <= upper(k, m[k])
    ensures Total(m, lower) <= Total(m, upper)
    decreases |m|
  {
    if m != map[] {
      var k :| k in m;
      CardinalityOfRemoval(m, k);
      TotalRemove(m, lower, k);
      TotalRemove(m, upper, k);
      TotalPointwise(m - {k}, lower, upper);
    }
  }

  /** Rows that weigh nothing may come and go. */
  lemma {:induction false} TotalExtend<K(!new), V>(m: map<K, V>, n: map<K, V>, weight: (K, V) -> nat)
    requires m.Keys <= n.Keys
    requires forall k :: k in m ==> weight(k, n[k]) == weight(k, m[k])
    requires forall k :: k in n && k !in m ==> weight(k, n[k]) == 0
    ensures Total(n, weight) == Total(m, weight)
    decreases |n|
  {
    if n != map[] {
      var k :| k in n;
      CardinalityOfRemoval(n, k);
      TotalRemove(n, weight, k);
      if k in m {
        TotalRemove(m, weight, k);
        TotalExtend(m - {k}, n - {k}, weight);
      } else {
        TotalExtend(m, n - {k}, weight);
      }
    }
  }
}
