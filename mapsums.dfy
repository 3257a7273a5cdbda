// Sums over the values of a finite map, for the counting properties of the
// graph code (sum of in-degrees, size of a degree distribution).
module MapSums {

  ghost function SumValues<K>(m: map<K, int>): int
    decreases |m.Keys|
  {
    if m == map[] then 0
    else
      var k :| k in m;
      assert |(m - {k}).Keys| < |m.Keys| by { assert (m - {k}).Keys == m.Keys - {k}; }
      m[k] + SumValues(m - {k})
  }

  /** The sum does not depend on which key is taken out first. */
  lemma {:induction false} SumValuesRemove<K>(m: map<K, int>, k: K)
    requires k in m
    ensures SumValues(m) == m[k] + SumValues(m - {k})
    decreases |m.Keys|
  {
    var j :| j in m && SumValues(m) == m[j] + SumValues(m - {j});
    if j != k {
      assert (m - {j}).Keys == m.Keys - {j};
      assert (m - {k}).Keys == m.Keys - {k};
      SumValuesRemove(m - {j}, k);
      SumValuesRemove(m - {k}, j);
      assert (m - {j}) - {k} == (m - {k}) - {j};
    }
  }

  /** Raising one value by `d` raises the sum by `d`. */
  lemma {:induction false} SumValuesUpdate<K>(m: map<K, int>, k: K, v: int)
    ensures k in m ==> SumValues(m[k := v]) == SumValues(m) - m[k] + v
    ensures k !in m ==> SumValues(m[k := v]) == SumValues(m) + v
  {
    var m2 := m[k := v];
    SumValuesRemove(m2, k);
    if k in m {
      SumValuesRemove(m, k);
      assert m2 - {k} == m - {k};
    } else {
      assert m2 - {k} == m;
    }
  }

  /** A map whose values are all zero sums to zero. */
  lemma {:induction false} SumValuesZero<K>(m: map<K, int>)
    requires forall k :: k in m ==> m[k] == 0
    ensures SumValues(m) == 0
    decreases |m.Keys|
  {
    if m != map[] {
      var k :| k in m;
      SumValuesRemove(m, k);
      assert (m - {k}).Keys == m.Keys - {k};
      SumValuesZero(m - {k});
    }
  }

  /** Adding one to the values at the keys of `s` adds |s| to the sum. */
  lemma {:induction false} SumValuesAddOnes<K>(m: map<K, int>, m2: map<K, int>, s: set<K>)
    requires s <= m.Keys && m2.Keys == m.Keys
    requires forall k :: k in m ==> m2[k] == m[k] + (if k in s then 1 else 0)
    ensures SumValues(m2) == SumValues(m) + |s|
    decreases |s|
  {
    if s == {} {
      assert m2 == m;
    } else {
      var x :| x in s;
      var m3 := m2[x := m[x]];
      SumValuesAddOnes(m, m3, s - {x});
      assert m2 == m3[x := m3[x] + 1];
      SumValuesUpdate(m3, x, m3[x] + 1);
    }
  }
}
