/** Totals over the values of a finite map, each value weighed by a given
    function: the sum of a counter table, or the total length of the lists
    a table holds. */
module Sums {

  /** The sum of `w(m[k])` over every key `k` of `m`. */
  ghost function SumBy<K, V>(m: map<K, V>, w: V -> nat): (total: nat)
    decreases |m.Keys|
  {
    if m == map[] then 0
    else
      var k :| k in m;
      assert |(m - {k}).Keys| < |m.Keys| by {
        assert (m - {k}).Keys == m.Keys - {k};
      }
      w(m[k]) + SumBy(m - {k}, w)
  }

  /** The sum splits off any one key, not only the one the definition picks. */
  lemma {:induction false} SumByRemove<K, V>(m: map<K, V>, w: V -> nat, k: K)
    requires k in m
    ensures SumBy(m, w) == w(m[k]) + SumBy(m - {k}, w)
    decreases |m.Keys|
  {
    var j :| j in m && SumBy(m, w) == w(m[j]) + SumBy(m - {j}, w);
    if j != k {
      var mj, mk := m - {j}, m - {k};
      assert (mj).Keys == m.Keys - {j} && (mk).Keys == m.Keys - {k};
      SumByRemove(mj, w, k);
      SumByRemove(mk, w, j);
      assert mj - {k} == mk - {j};
    }
  }

  /** Storing `v` under `k` changes the sum by the weight of `v`, less the
      weight of what `k` held before. */
  lemma SumByStore<K, V>(m: map<K, V>, w: V -> nat, k: K, v: V)
    ensures k in m ==> SumBy(m[k := v], w) + w(m[k]) == SumBy(m, w) + w(v)
    ensures k !in m ==> SumBy(m[k := v], w) == SumBy(m, w) + w(v)
  {
    SumByRemove(m[k := v], w, k);
    assert m[k := v] - {k} == m - {k};
    if k in m {
      SumByRemove(m, w, k);
    } else {
      assert m - {k} == m;
    }
  }

  /** When every value weighs at least one, there are no more keys than
      the sum. */
  lemma {:induction false} SizeAtMostSum<K, V>(m: map<K, V>, w: V -> nat)
    requires forall k :: k in m ==> w(m[k]) >= 1
    ensures |m| <= SumBy(m, w)
    decreases |m.Keys|
  {
    if m != map[] {
      var k :| k in m;
      var rest := m - {k};
      assert rest.Keys == m.Keys - {k};
      SumByRemove(m, w, k);
      SizeAtMostSum(rest, w);
    }
  }

  /** The keys whose value weighs exactly one. */
  ghost function UnitKeys<K, V>(m: map<K, V>, w: V -> nat): set<K> {
    set k | k in m && w(m[k]) == 1
  }

  /** When every value weighs zero or one, the sum counts the keys whose
      value weighs one. */
  lemma {:induction false} SumOfUnitWeights<K, V>(m: map<K, V>, w: V -> nat)
    requires forall k :: k in m ==> w(m[k]) <= 1
    ensures SumBy(m, w) == |UnitKeys(m, w)|
    decreases |m.Keys|
  {
    if m == map[] {
      assert UnitKeys(m, w) == {};
    } else {
      var k :| k in m;
      var rest := m - {k};
      assert rest.Keys == m.Keys - {k};
      SumByRemove(m, w, k);
      SumOfUnitWeights(rest, w);
      var ones := UnitKeys(m, w);
      var restOnes := UnitKeys(rest, w);
      if w(m[k]) == 1 {
        assert ones == restOnes + {k};
      } else {
        assert ones == restOnes;
      }
    }
  }

  /** The keys whose value does not weigh one are the rest of the keys. */
  lemma UnitKeysComplement<K, V>(m: map<K, V>, w: V -> nat, rest: set<K>)
    requires forall k :: k in rest <==> k in m && w(m[k]) != 1
    ensures |rest| == |m| - |UnitKeys(m, w)|
  {
    var ones := UnitKeys(m, w);
    assert m.Keys == ones + rest;
    assert ones * rest == {};
    assert |m.Keys| == |ones| + |rest|;
  }
}
