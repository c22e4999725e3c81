/** Finite sums over the rows of a table keyed by a unique column, and over a list, with the
    few laws the ledgers need. */
module Sums {

  ghost function SumMap<K, V>(f: (K, V) -> int, m: map<K, V>): int
    decreases |m|
  {
    if m == map[] then 0
    else
      var k :| k in m;
      f(k, m[k]) + SumMap(f, m - {k})
  }

  /** The value does not depend on the order in which the rows are visited. */
  lemma {:induction false} SumMapSplit<K, V>(f: (K, V) -> int, m: map<K, V>, k: K)
    requires k in m
    ensures SumMap(f, m) == f(k, m[k]) + SumMap(f, m - {k})
    decreases |m|
  {
    var j :| j in m && SumMap(f, m) == f(j, m[j]) + SumMap(f, m - {j});
    if j != k {
      SumMapSplit(f, m - {j}, k);
      SumMapSplit(f, m - {k}, j);
      assert m - {j} - {k} == m - {k} - {j};
    }
  }

  lemma SumMapInsert<K, V>(f: (K, V) -> int, m: map<K, V>, k: K, v: V)
    requires k !in m
    ensures SumMap(f, m[k := v]) == SumMap(f, m) + f(k, v)
  {
    SumMapSplit(f, m[k := v], k);
    assert m[k := v] - {k} == m;
  }

  lemma SumMapUpdate<K, V>(f: (K, V) -> int, m: map<K, V>, k: K, v: V)
    requires k in m
    ensures SumMap(f, m[k := v]) == SumMap(f, m) - f(k, m[k]) + f(k, v)
  {
    SumMapSplit(f, m, k);
    SumMapSplit(f, m[k := v], k);
    assert m[k := v] - {k} == m - {k};
  }

  lemma {:induction false} SumMapMono<K, V>(f: (K, V) -> int, g: (K, V) -> int, m: map<K, V>)
    requires forall k | k in m :: f(k, m[k]) <= g(k, m[k])
    ensures SumMap(f, m) <= SumMap(g, m)
    decreases |m|
  {
    if m != map[] {
      var k :| k in m;
      SumMapSplit(f, m, k);
      SumMapSplit(g, m, k);
      SumMapMono(f, g, m - {k});
    }
  }

  lemma SumMapEqual<K, V>(f: (K, V) -> int, g: (K, V) -> int, m: map<K, V>)
    requires forall k | k in m :: f(k, m[k]) == g(k, m[k])
    ensures SumMap(f, m) == SumMap(g, m)
  {
    SumMapMono(f, g, m);
    SumMapMono(g, f, m);
  }

  lemma {:induction false} SumMapNonNegative<K, V>(f: (K, V) -> int, m: map<K, V>)
    requires forall k | k in m :: f(k, m[k]) >= 0
    ensures SumMap(f, m) >= 0
    decreases |m|
  {
    if m != map[] {
      var k :| k in m;
      SumMapSplit(f, m, k);
      SumMapNonNegative(f, m - {k});
    }
  }

  lemma {:induction false} SumMapAdd<K, V>(f: (K, V) -> int, g: (K, V) -> int, h: (K, V) -> int, m: map<K, V>)
    requires forall k | k in m :: f(k, m[k]) == g(k, m[k]) + h(k, m[k])
    ensures SumMap(f, m) == SumMap(g, m) + SumMap(h, m)
    decreases |m|
  {
    if m != map[] {
      var k :| k in m;
      SumMapSplit(f, m, k);
      SumMapSplit(g, m, k);
      SumMapSplit(h, m, k);
      SumMapAdd(f, g, h, m - {k});
    }
  }

  /** Rows that contribute nothing can be left out: g on the larger table counts what f counts
      on the smaller one, and zero elsewhere. */
  lemma {:induction false} SumMapExtend<K, V, W>(f: (K, V) -> int, g: (K, W) -> int, small: map<K, V>, large: map<K, W>)
    requires small.Keys <= large.Keys
    requires forall k | k in small :: g(k, large[k]) == f(k, small[k])
    requires forall k | k in large && k !in small :: g(k, large[k]) == 0
    ensures SumMap(g, large) == SumMap(f, small)
    decreases |large|
  {
    if large != map[] {
      var k :| k in large;
      SumMapSplit(g, large, k);
      if k in small {
        SumMapSplit(f, small, k);
        SumMapExtend(f, g, small - {k}, large - {k});
      } else {
        SumMapExtend(f, g, small, large - {k});
      }
    }
  }

  ghost function SumSeq<T>(f: T -> int, s: seq<T>): int {
    if s == [] then 0 else SumSeq(f, s[..|s| - 1]) + f(s[|s| - 1])
  }

  lemma {:induction false} SumSeqEqual<T>(f: T -> int, g: T -> int, s: seq<T>)
    requires forall x :: f(x) == g(x)
    ensures SumSeq(f, s) == SumSeq(g, s)
  {
    if s != [] {
      SumSeqEqual(f, g, s[..|s| - 1]);
    }
  }

  lemma SumSeqAppend<T>(f: T -> int, s: seq<T>, x: T)
    ensures SumSeq(f, s + [x]) == SumSeq(f, s) + f(x)
  {
    assert (s + [x])[..|s|] == s;
  }
}
