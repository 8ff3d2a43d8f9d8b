/** Weighted sums over finite maps and sequences. */
module Sums {

  /** The weight of the entry at `k`, zero when there is none. */
  ghost function At<K, V>(m: map<K, V>, k: K, w: (K, V) -> int): int {
    if k in m then w(k, m[k]) else 0
  }

  ghost function Sum<K, V>(m: map<K, V>, w: (K, V) -> int): int {
    if m == map[] then 0
    else
      var k :| k in m;
      w(k, m[k]) + Sum(m - {k}, w)
  }

  lemma {:induction false} SumRemove<K, V>(m: map<K, V>, k: K, w: (K, V) -> int)
    ensures Sum(m, w) == At(m, k, w) + Sum(m - {k}, w)
    decreases |m|
  {
    if k !in m {
      assert m - {k} == m;
    } else {
      var p :| p in m && Sum(m, w) == w(p, m[p]) + Sum(m - {p}, w);
      if p != k {
        SumRemove(m - {p}, k, w);
        SumRemove(m - {k}, p, w);
        assert m - {p} - {k} == m - {k} - {p};
      }
    }
  }

  /** Two maps that differ at most at `k` have sums that differ by the weights at `k`. */
  lemma SumChange<K, V>(m: map<K, V>, n: map<K, V>, k: K, w: (K, V) -> int)
    requires m - {k} == n - {k}
    ensures Sum(n, w) == Sum(m, w) - At(m, k, w) + At(n, k, w)
  {
    SumRemove(m, k, w);
    SumRemove(n, k, w);
  }

  lemma {:induction false} SumNonNegative<K, V>(m: map<K, V>, w: (K, V) -> int)
    requires forall k | k in m :: w(k, m[k]) >= 0
    ensures Sum(m, w) >= 0
    decreases |m|
  {
    if m != map[] {
      var p :| p in m && Sum(m, w) == w(p, m[p]) + Sum(m - {p}, w);
      SumNonNegative(m - {p}, w);
    }
  }

  lemma SumZero<K, V>(m: map<K, V>, w: (K, V) -> int)
    requires forall k | k in m :: w(k, m[k]) == 0
    ensures Sum(m, w) == 0
    decreases |m|
  {
    if m != map[] {
      var p :| p in m && Sum(m, w) == w(p, m[p]) + Sum(m - {p}, w);
      SumZero(m - {p}, w);
    }
  }

  /** Entries of equal weight have equal sums. */
  lemma {:induction false} SumEqual<K, V>(m: map<K, V>, n: map<K, V>, w: (K, V) -> int)
    requires m.Keys == n.Keys
    requires forall k | k in m :: w(k, n[k]) == w(k, m[k])
    ensures Sum(n, w) == Sum(m, w)
    decreases |m|
  {
    if m != map[] {
      var p :| p in m && Sum(m, w) == w(p, m[p]) + Sum(m - {p}, w);
      SumRemove(n, p, w);
      SumEqual(m - {p}, n - {p}, w);
    } else {
      assert n == map[];
    }
  }

  /** Three weights on the same entries, one the sum of the others. */
  lemma {:induction false} SumSplit<K, V>(m: map<K, V>, f: (K, V) -> int, g: (K, V) -> int, h: (K, V) -> int)
    requires forall k | k in m :: f(k, m[k]) == g(k, m[k]) + h(k, m[k])
    ensures Sum(m, f) == Sum(m, g) + Sum(m, h)
    decreases |m|
  {
    if m != map[] {
      var p :| p in m && Sum(m, f) == f(p, m[p]) + Sum(m - {p}, f);
      SumRemove(m, p, g);
      SumRemove(m, p, h);
      SumSplit(m - {p}, f, g, h);
    }
  }

  /** With weights that are never negative, any two distinct entries fit below the sum. */
  lemma SumAtLeastTwo<K, V>(m: map<K, V>, j: K, k: K, w: (K, V) -> int)
    requires forall i | i in m :: w(i, m[i]) >= 0
    requires j != k
    ensures At(m, j, w) + At(m, k, w) <= Sum(m, w)
  {
    SumRemove(m, j, w);
    SumRemove(m - {j}, k, w);
    SumNonNegative(m - {j} - {k}, w);
  }

  lemma SumAtLeast<K, V>(m: map<K, V>, k: K, w: (K, V) -> int)
    requires forall i | i in m :: w(i, m[i]) >= 0
    ensures At(m, k, w) <= Sum(m, w)
  {
    SumRemove(m, k, w);
    SumNonNegative(m - {k}, w);
  }

  ghost function SeqSum<T>(s: seq<T>, w: T -> int): int {
    if s == [] then 0 else SeqSum(s[..|s| - 1], w) + w(s[|s| - 1])
  }

  lemma SeqSumSnoc<T>(s: seq<T>, x: T, w: T -> int)
    ensures SeqSum(s + [x], w) == SeqSum(s, w) + w(x)
  {
    assert (s + [x])[..|s|] == s;
  }

  function RemoveAt<T>(s: seq<T>, i: nat): seq<T>
    requires i < |s|
  {
    s[..i] + s[i + 1..]
  }

  lemma {:induction false} SeqSumRemoveAt<T>(s: seq<T>, i: nat, w: T -> int)
    requires i < |s|
    ensures SeqSum(s, w) == SeqSum(RemoveAt(s, i), w) + w(s[i])
    decreases |s|
  {
    var n := |s| - 1;
    if i == n {
      assert RemoveAt(s, i) == s[..n];
    } else {
      SeqSumRemoveAt(s[..n], i, w);
      assert RemoveAt(s, i) == RemoveAt(s[..n], i) + [s[n]];
      SeqSumSnoc(RemoveAt(s[..n], i), s[n], w);
    }
  }

  lemma {:induction false} SeqSumAtLeast<T>(s: seq<T>, i: nat, w: T -> int)
    requires i < |s|
    requires forall x | x in s :: w(x) >= 0
    ensures w(s[i]) <= SeqSum(s, w)
  {
    SeqSumRemoveAt(s, i, w);
    SeqSumNonNegative(RemoveAt(s, i), w);
  }

  lemma {:induction false} SeqSumNonNegative<T>(s: seq<T>, w: T -> int)
    requires forall x | x in s :: w(x) >= 0
    ensures SeqSum(s, w) >= 0
    decreases |s|
  {
    if s != [] {
      SeqSumNonNegative(s[..|s| - 1], w);
    }
  }
}
