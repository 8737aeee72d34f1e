/** Weight tables that read a missing key as zero, the way the generator's
    `defaultdict(int)` tables do, and the sum of a table's weights. */
module Tables {

  /** The weight stored under `k`, or zero when `k` was never written. */
  function Get<K>(m: map<K, real>, k: K): real
  {
    if k in m then m[k] else 0.0
  }

  /** `m[k] += w` on a zero-default table. As with a `defaultdict`, the key is
      created even when `w` is zero. */
  function Add<K>(m: map<K, real>, k: K, w: real): map<K, real>
  {
    m[k := Get(m, k) + w]
  }

  /** The sum of all weights of a table, in no particular order. */
  ghost function Sum<K>(m: map<K, real>): real
    decreases |m.Keys|
  {
    if m.Keys == {} then 0.0
    else
      var k :| k in m.Keys;
      assert (m - {k}).Keys == m.Keys - {k};
      m[k] + Sum(m - {k})
  }

  /** The sum may be taken apart at any key, not only at the one `Sum` picks. */
  lemma {:induction false} SumRemove<K>(m: map<K, real>, k: K)
    requires k in m
    ensures Sum(m) == m[k] + Sum(m - {k})
    decreases |m.Keys|
  {
    var k0 :| k0 in m.Keys && Sum(m) == m[k0] + Sum(m - {k0});
    if k0 != k {
      assert (m - {k0}).Keys == m.Keys - {k0};
      assert (m - {k}).Keys == m.Keys - {k};
      SumRemove(m - {k0}, k);
      SumRemove(m - {k}, k0);
      assert m - {k0} - {k} == m - {k} - {k0};
    }
  }

  /** Adding `w` under one key adds `w` to the sum: the fact that keeps a
      running total in step with its table. */
  lemma SumAdd<K>(m: map<K, real>, k: K, w: real)
    ensures Sum(Add(m, k, w)) == Sum(m) + w
  {
    var r := Add(m, k, w);
    SumRemove(r, k);
    assert r - {k} == m - {k};
    if k in m {
      SumRemove(m, k);
    } else {
      assert m - {k} == m;
    }
  }

  /** A table without keys sums to zero. */
  lemma SumEmpty<K>(m: map<K, real>)
    requires m.Keys == {}
    ensures Sum(m) == 0.0
  {
  }
}
