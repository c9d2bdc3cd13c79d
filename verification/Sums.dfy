/** Sums over finite maps, and sizes of sets. */
module Sums {

  ghost function Sum<N>(f: map<N, nat>): nat {
    if f == map[] then 0 else
      var n :| n in f; f[n] + Sum(f - {n})
  }

  lemma {:induction false} SumRemove<N>(f: map<N, nat>, n: N)
    requires n in f
    ensures Sum(f) == f[n] + Sum(f - {n})
    decreases |f|
  {
    var k :| k in f && Sum(f) == f[k] + Sum(f - {k});
    if k != n {
      SumRemove(f - {k}, n);
      SumRemove(f - {n}, k);
      assert f - {k} - {n} == f - {n} - {k};
    }
  }

  lemma {:induction false} SumUpdate<N>(f: map<N, nat>, n: N, v: nat)
    ensures Sum(f[n := v]) == Sum(f) + v - (if n in f then f[n] else 0)
  {
    SumRemove(f[n := v], n);
    assert f[n := v] - {n} == f - {n};
    if n in f {
      SumRemove(f, n);
    } else {
      assert f - {n} == f;
    }
  }

  lemma {:induction false} SubsetSize<T>(a: set<T>, b: set<T>)
    requires a <= b
    ensures |a| <= |b| && (a != b ==> |a| < |b|)
  {
    assert b == a + (b - a);
    if a != b {
      var x :| x in b - a;
    }
  }
}
