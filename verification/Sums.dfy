/** Sums over the rows of a finite map. */
module Sums {

  ghost function SumBy<K(!new), V(!new)>(m: map<K, V>, w: (K, V) -> nat): nat
    decreases |m.Keys|
  {
    if m.Keys == {} then 0
    else
      var k :| k in m;
      assert (m - {k}).Keys == m.Keys - {k};
      w(k, m[k]) + SumBy(m - {k}, w)
  }

  /** Any row may be taken out first. */
  lemma {:induction false} SumTake<K(!new), V(!new)>(m: map<K, V>, w: (K, V) -> nat, k: K)
    requires k in m
    ensures SumBy(m, w) == w(k, m[k]) + SumBy(m - {k}, w)
    decreases |m.Keys|
  {
    var j :| j in m && SumBy(m, w) == w(j, m[j]) + SumBy(m - {j}, w);
    if j != k {
      assert (m - {j}).Keys == m.Keys - {j};
      SumTake(m - {j}, w, k);
      assert (m - {k}).Keys == m.Keys - {k};
      SumTake(m - {k}, w, j);
      assert m - {j} - {k} == m - {k} - {j};
    }
  }

  ghost function At<K(!new), V(!new)>(m: map<K, V>, w: (K, V) -> nat, k: K): nat {
    if k in m then w(k, m[k]) else 0
  }

  lemma SumPut<K(!new), V(!new)>(m: map<K, V>, w: (K, V) -> nat, k: K, v: V)
    ensures SumBy(m[k := v], w) == SumBy(m, w) - At(m, w, k) + w(k, v)
    ensures At(m, w, k) <= SumBy(m, w)
  {
    SumTake(m[k := v], w, k);
    assert m[k := v] - {k} == m - {k};
    if k in m {
      SumTake(m, w, k);
    } else {
      assert m - {k} == m;
    }
  }

  lemma SumDrop<K(!new), V(!new)>(m: map<K, V>, w: (K, V) -> nat, k: K)
    ensures SumBy(m - {k}, w) == SumBy(m, w) - At(m, w, k)
    ensures At(m, w, k) <= SumBy(m, w)
  {
    if k in m {
      SumTake(m, w, k);
    } else {
      assert m - {k} == m;
    }
  }

  lemma {:induction false} SumMono<K(!new), V(!new)>(m: map<K, V>, w: (K, V) -> nat, u: (K, V) -> nat)
    requires forall k :: k in m ==> w(k, m[k]) <= u(k, m[k])
    ensures SumBy(m, w) <= SumBy(m, u)
    decreases |m.Keys|
  {
    if m.Keys != {} {
      var k :| k in m;
      SumTake(m, w, k);
      SumTake(m, u, k);
      assert (m - {k}).Keys == m.Keys - {k};
      SumMono(m - {k}, w, u);
    }
  }

  lemma {:induction false} SumZero<K(!new), V(!new)>(m: map<K, V>, w: (K, V) -> nat)
    ensures SumBy(m, w) == 0 <==> forall k :: k in m ==> w(k, m[k]) == 0
    decreases |m.Keys|
  {
    if m.Keys != {} {
      var j :| j in m;
      SumTake(m, w, j);
      assert (m - {j}).Keys == m.Keys - {j};
      SumZero(m - {j}, w);
      assert forall k :: k in m <==> k == j || k in m - {j};
    }
  }

  /** When every row's weight splits into two parts, so does the sum. */
  lemma {:induction false} SumSplit<K(!new), V(!new)>(m: map<K, V>, n: map<K, V>, w: (K, V) -> nat,
                                                      u: (K, V) -> nat, x: (K, V) -> nat)
    requires m.Keys == n.Keys
    requires forall k :: k in m ==> w(k, m[k]) == u(k, m[k]) + x(k, n[k])
    ensures SumBy(m, w) == SumBy(m, u) + SumBy(n, x)
    decreases |m.Keys|
  {
    if m.Keys != {} {
      var k :| k in m;
      SumTake(m, w, k);
      SumTake(m, u, k);
      SumTake(n, x, k);
      assert (m - {k}).Keys == m.Keys - {k} && (n - {k}).Keys == n.Keys - {k};
      SumSplit(m - {k}, n - {k}, w, u, x);
    }
  }
}
