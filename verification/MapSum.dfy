/** Sums over the values of a finite map. */
module MapSum {

  ghost function Pick<K>(m: map<K, nat>): K
    requires m != map[]
  {
    var k :| k in m; k
  }

  ghost function Sum<K>(m: map<K, nat>): nat
    decreases |m|
  {
    if m == map[] then 0
    else
      assert (m - {Pick(m)}).Keys == m.Keys - {Pick(m)};
      assert |(m - {Pick(m)}).Keys| < |m.Keys|;
      m[Pick(m)] + Sum(m - {Pick(m)})
  }

  lemma {:induction false} SumSplit<K>(m: map<K, nat>, k: K)
    requires k in m
    ensures Sum(m) == m[k] + Sum(m - {k})
    decreases |m|
  {
    var p := Pick(m);
    if p != k {
      assert (m - {p}).Keys == m.Keys - {p} && (m - {k}).Keys == m.Keys - {k};
      assert |(m - {p}).Keys| < |m.Keys| && |(m - {k}).Keys| < |m.Keys|;
      SumSplit(m - {p}, k);
      SumSplit(m - {k}, p);
      assert m - {p} - {k} == m - {k} - {p};
    }
  }

  lemma SumUpdate<K>(m: map<K, nat>, k: K, v: nat)
    ensures Sum(m[k := v]) == Sum(m) - (if k in m then m[k] else 0) + v
  {
    SumSplit(m[k := v], k);
    assert m[k := v] - {k} == m - {k};
    if k in m {
      SumSplit(m, k);
    } else {
      assert m - {k} == m;
    }
  }

  lemma {:induction false} SumAtMost<K>(m: map<K, nat>, bound: nat)
    requires forall k :: k in m ==> m[k] <= bound
    ensures Sum(m) <= |m| * bound
    decreases |m|
  {
    if m != map[] {
      var p := Pick(m);
      assert (m - {p}).Keys == m.Keys - {p} && |(m - {p}).Keys| == |m - {p}| && |m.Keys| == |m|;
      SumAtMost(m - {p}, bound);
      assert |m| * bound == (|m| - 1) * bound + bound;
    }
  }
}
