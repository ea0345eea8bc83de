// Sums over finite maps: the measure of the outbox drain and the media totals use them.

module MapSums {
  ghost function AnyKey<K(!new), V>(m: map<K, V>): (k: K)
    requires m != map[]
    ensures k in m
  {
    var k :| k in m; k
  }

  /** The sum of a map's values. */
  ghost function Sum<K(!new)>(m: map<K, int>): int
    decreases |m|, 1
  {
    if m == map[] then 0 else SumFrom(m, AnyKey(m))
  }

  /** The same, beginning with one given key. */
  ghost function SumFrom<K(!new)>(m: map<K, int>, k: K): int
    requires k in m
    decreases |m|, 0
  {
    SmallerWithout(m, k);
    m[k] + Sum(m - {k})
  }

  lemma SmallerWithout<K, V>(m: map<K, V>, k: K)
    requires k in m
    ensures |m - {k}| == |m| - 1
  {
    assert (m - {k}).Keys == m.Keys - {k};
    assert |m.Keys - {k}| == |m.Keys| - 1;
    assert |(m - {k}).Keys| == |m - {k}|;
  }

  /** Any key may be split off first. */
  lemma {:induction false} SumSplit<K(!new)>(m: map<K, int>, k: K)
    requires k in m
    ensures Sum(m) == m[k] + Sum(m - {k})
    decreases |m|
  {
    var j := AnyKey(m);
    assert Sum(m) == SumFrom(m, j);
    if j != k {
      SmallerWithout(m, j);
      SmallerWithout(m, k);
      SumSplit(m - {j}, k);
      SumSplit(m - {k}, j);
      assert m - {j} - {k} == m - {k} - {j};
    }
  }

  lemma SumRemove<K(!new)>(m: map<K, int>, k: K)
    ensures Sum(m - {k}) == Sum(m) - (if k in m then m[k] else 0)
  {
    if k in m {
      SumSplit(m, k);
    } else {
      assert m - {k} == m;
    }
  }

  /** Pointwise smaller on a subset of the keys: a smaller sum, strictly if anything shrank. */
  lemma {:induction false} SumMonotone<K(!new)>(a: map<K, int>, b: map<K, int>)
    requires a.Keys <= b.Keys
    requires forall k :: k in a ==> a[k] <= b[k]
    requires forall k :: k in b ==> b[k] >= 0
    ensures Sum(a) <= Sum(b)
    ensures (exists k :: k in b && (if k in a then a[k] < b[k] else b[k] > 0)) ==> Sum(a) < Sum(b)
    decreases |b|
  {
    if b != map[] {
      var k :| k in b;
      if exists j :: j in b && (if j in a then a[j] < b[j] else b[j] > 0) {
        k :| k in b && (if k in a then a[k] < b[k] else b[k] > 0);
      }
      SumSplit(b, k);
      SmallerWithout(b, k);
      SumRemove(a, k);
      SumMonotone(a - {k}, b - {k});
    }
  }
}
