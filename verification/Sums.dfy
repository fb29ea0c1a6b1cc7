/** Sums over the values of a finite map. */
module Sums {

  ghost function Sum<K(!new)>(m: map<K, int>): int
    decreases |m|
  {
    if m == map[] then 0 else var k :| k in m; Shrinks(m, k); m[k] + Sum(m - {k})
  }

  lemma Shrinks<K, V>(m: map<K, V>, k: K)
    requires k in m
    ensures |m - {k}| == |m| - 1
  {
    assert (m - {k}).Keys == m.Keys - {k};
    assert |(m - {k}).Keys| == |m - {k}| && |m.Keys| == |m|;
  }

  /** A sum does not depend on the order in which it is taken. */
  lemma {:induction false} SumWithout<K(!new)>(m: map<K, int>, k: K)
    requires k in m
    ensures Sum(m) == m[k] + Sum(m - {k})
    decreases |m|
  {
    var j :| j in m && Sum(m) == m[j] + Sum(m - {j});
    if j != k {
      Shrinks(m, j);
      SumWithout(m - {j}, k);
      Shrinks(m, k);
      SumWithout(m - {k}, j);
      assert m - {j} - {k} == m - {k} - {j};
    }
  }

  lemma SumWith<K(!new)>(m: map<K, int>, k: K, v: int)
    requires k !in m
    ensures Sum(m[k := v]) == Sum(m) + v
  {
    SumWithout(m[k := v], k);
    assert m[k := v] - {k} == m;
  }
}
