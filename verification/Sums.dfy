/** Finite sums of reals over sequences and maps, and how one update moves them. */
module Sums {
  function Sum<T>(xs: seq<T>, f: T -> real): real {
    if xs == [] then 0.0 else Sum(xs[..|xs| - 1], f) + f(xs[|xs| - 1])
  }

  lemma SumSnoc<T>(xs: seq<T>, x: T, f: T -> real)
    ensures Sum(xs + [x], f) == Sum(xs, f) + f(x)
  {
    assert (xs + [x])[..|xs|] == xs;
  }

  lemma {:induction false} SumUpdate<T>(xs: seq<T>, i: nat, x: T, f: T -> real)
    requires i < |xs|
    ensures Sum(xs[i := x], f) == Sum(xs, f) - f(xs[i]) + f(x)
  {
    var n := |xs| - 1;
    if i == n {
      assert xs[i := x][..n] == xs[..n];
    } else {
      SumUpdate(xs[..n], i, x, f);
      assert xs[i := x][..n] == xs[..n][i := x];
    }
  }

  lemma {:induction false} SumAtLeast<T>(xs: seq<T>, i: nat, f: T -> real)
    requires i < |xs|
    requires forall x :: x in xs ==> f(x) >= 0.0
    ensures Sum(xs, f) >= f(xs[i])
  {
    var n := |xs| - 1;
    if i == n {
      SumNonNegative(xs[..n], f);
    } else {
      SumAtLeast(xs[..n], i, f);
      assert xs[n] in xs;
    }
  }

  lemma {:induction false} SumNonNegative<T>(xs: seq<T>, f: T -> real)
    requires forall x :: x in xs ==> f(x) >= 0.0
    ensures Sum(xs, f) >= 0.0
  {
    if xs != [] {
      SumNonNegative(xs[..|xs| - 1], f);
      assert xs[|xs| - 1] in xs;
    }
  }

  lemma {:induction false} SumCong<T>(xs: seq<T>, f: T -> real, g: T -> real)
    requires forall x :: x in xs ==> f(x) == g(x)
    ensures Sum(xs, f) == Sum(xs, g)
  {
    if xs != [] {
      SumCong(xs[..|xs| - 1], f, g);
      assert xs[|xs| - 1] in xs;
    }
  }

  lemma {:induction false} SumSame<T>(xs: seq<T>, ys: seq<T>, f: T -> real)
    requires |xs| == |ys| && forall i :: 0 <= i < |xs| ==> f(xs[i]) == f(ys[i])
    ensures Sum(xs, f) == Sum(ys, f)
  {
    if xs != [] {
      SumSame(xs[..|xs| - 1], ys[..|ys| - 1], f);
    }
  }

  lemma {:induction false} SumWithout<T>(xs: seq<T>, i: nat, f: T -> real)
    requires i < |xs|
    ensures Sum(xs, f) == Sum(xs[..i] + xs[i + 1..], f) + f(xs[i])
    decreases |xs|
  {
    var n := |xs| - 1;
    var rest := xs[..i] + xs[i + 1..];
    if i < n {
      SumWithout(xs[..n], i, f);
      assert rest == (xs[..n][..i] + xs[..n][i + 1..]) + [xs[n]];
      SumSnoc(xs[..n][..i] + xs[..n][i + 1..], xs[n], f);
    } else {
      assert rest == xs[..n];
    }
  }

  /** The sum of f over the entries of a map, taken in an arbitrary order. */
  ghost function SumMap<K(!new), V>(m: map<K, V>, f: (K, V) -> real): real
    decreases |m|
  {
    if m == map[] then 0.0
    else
      assert m.Keys != {};
      var k :| k in m;
      f(k, m[k]) + SumMap(m - {k}, f)
  }

  /** The order does not matter: any entry may be taken out first. */
  lemma {:induction false} SumMapRemove<K(!new), V>(m: map<K, V>, k: K, f: (K, V) -> real)
    requires k in m
    ensures SumMap(m, f) == f(k, m[k]) + SumMap(m - {k}, f)
    decreases |m|
  {
    var j :| j in m && SumMap(m, f) == f(j, m[j]) + SumMap(m - {j}, f);
    if j != k {
      SumMapRemove(m - {j}, k, f);
      SumMapRemove(m - {k}, j, f);
      assert m - {j} - {k} == m - {k} - {j};
    }
  }

  lemma SumMapPut<K(!new), V>(m: map<K, V>, k: K, v: V, f: (K, V) -> real)
    ensures SumMap(m[k := v], f) == SumMap(m, f) - (if k in m then f(k, m[k]) else 0.0) + f(k, v)
  {
    SumMapRemove(m[k := v], k, f);
    assert m[k := v] - {k} == m - {k};
    if k in m {
      SumMapRemove(m, k, f);
    } else {
      assert m - {k} == m;
    }
  }

  lemma {:induction false} SumMapAtMost<K(!new), V, W>(m: map<K, V>, f: (K, V) -> real, n: map<K, W>, g: (K, W) -> real)
    requires forall k :: k in m ==> k in n && f(k, m[k]) <= g(k, n[k])
    requires forall k :: k in n ==> g(k, n[k]) >= 0.0
    ensures SumMap(m, f) <= SumMap(n, g)
    decreases |n|
  {
    if n == map[] {
      assert m == map[];
    } else {
      assert n.Keys != {};
      var k :| k in n;
      SumMapRemove(n, k, g);
      SumMapAtMost(m - {k}, f, n - {k}, g);
      if k in m {
        SumMapRemove(m, k, f);
      } else {
        assert m - {k} == m;
      }
    }
  }
}
