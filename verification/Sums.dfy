/** Sums over finite maps. */
module Sums {
  ghost function PickKey<K>(f: map<K, nat>): (k: K)
    requires f != map[]
    ensures k in f
  {
    assert f.Keys != {};
    var k :| k in f;
    k
  }

  ghost function Sum<K>(f: map<K, nat>): nat {
    if f == map[] then 0
    else
      var k := PickKey(f);
      f[k] + Sum(f - {k})
  }

  /** Any entry may be taken out first. */
  lemma {:induction false} SumRemove<K>(f: map<K, nat>, k: K)
    requires k in f
    ensures Sum(f) == f[k] + Sum(f - {k})
    decreases |f|
  {
    var p := PickKey(f);
    if p != k {
      SumRemove(f - {p}, k);
      SumRemove(f - {k}, p);
      assert f - {p} - {k} == f - {k} - {p};
    }
  }

  /** Replacing an entry, or adding one where there was none. */
  lemma SumUpdate<K>(f: map<K, nat>, k: K, v: nat)
    ensures Sum(f[k := v]) == Sum(f) - (if k in f then f[k] else 0) + v
  {
    SumRemove(f[k := v], k);
    if k in f {
      SumRemove(f, k);
      assert f[k := v] - {k} == f - {k};
    } else {
      assert f[k := v] - {k} == f;
    }
  }

  lemma SumAtLeast<K>(f: map<K, nat>, k: K)
    requires k in f
    ensures Sum(f) >= f[k]
  {
    SumRemove(f, k);
  }
}
