/**
 * Sequence vocabulary shared by the client views: occurrence counts,
 * duplicate-free lists in first-occurrence order (what a JavaScript `Set` or
 * `Map` keeps), order-preserving sublists, and `slice(0, n)`.
 */
module Seqs {

  /** The number of occurrences of `x` in `s`. */
  function Count<T(==)>(s: seq<T>, x: T): nat {
    if s == [] then 0
    else Count(s[..|s| - 1], x) + (if s[|s| - 1] == x then 1 else 0)
  }

  predicate Distinct<T(==)>(s: seq<T>) {
    forall i, j :: 0 <= i < j < |s| ==> s[i] != s[j]
  }

  /**
   * The elements of `s`, each once, in the order of their first occurrence:
   * what `[...new Set(s)]` and the key order of a `Map` filled from `s` give.
   */
  function Dedup<T(==)>(s: seq<T>): (r: seq<T>)
    ensures Distinct(r)
    ensures forall i :: 0 <= i < |r| ==> r[i] in s
    ensures forall i :: 0 <= i < |s| ==> s[i] in r
  {
    if s == [] then []
    else
      var d := Dedup(s[..|s| - 1]);
      var last := s[|s| - 1];
      assert forall i :: 0 <= i < |s| - 1 ==> s[i] == s[..|s| - 1][i];
      if last in d then d else d + [last]
  }

  /** `a` is `b` with some elements dropped and the rest kept in order. */
  predicate Subsequence<T(==)>(a: seq<T>, b: seq<T>)
    decreases |b|
  {
    if a == [] then true
    else if b == [] then false
    else if a[0] == b[0] then Subsequence(a[1..], b[1..])
    else Subsequence(a, b[1..])
  }

  /** `s.slice(0, n)`. */
  function Take<T>(s: seq<T>, n: nat): (r: seq<T>)
    ensures |r| <= n && |r| <= |s|
    ensures r == s[..|r|]
    ensures |s| >= n ==> |r| == n
  {
    if |s| <= n then s else s[..n]
  }

  lemma CountSnoc<T>(s: seq<T>, x: T, y: T)
    ensures Count(s + [y], x) == Count(s, x) + (if y == x then 1 else 0)
  {
    assert (s + [y])[..|s|] == s;
  }

  lemma {:induction false} CountAbsent<T>(s: seq<T>, x: T)
    requires x !in s
    ensures Count(s, x) == 0
  {
    if s != [] {
      assert forall y :: y in s[..|s| - 1] ==> y in s;
      CountAbsent(s[..|s| - 1], x);
    }
  }

  /** In a duplicate-free list every listed element occurs exactly once. */
  lemma {:induction false} CountDistinct<T>(d: seq<T>, x: T)
    requires Distinct(d)
    ensures Count(d, x) == if x in d then 1 else 0
  {
    if d != [] {
      var p := d[..|d| - 1];
      assert Distinct(p);
      CountDistinct(p, x);
      assert d == p + [d[|d| - 1]];
      if d[|d| - 1] == x {
        assert x !in p;
      }
    }
  }

  /** The occurrences in `s` of the keys `ks`, added up. */
  function SumCount<T(==)>(ks: seq<T>, s: seq<T>): nat {
    if ks == [] then 0 else SumCount(ks[..|ks| - 1], s) + Count(s, ks[|ks| - 1])
  }

  lemma {:induction false} SumCountSnocSource<T>(ks: seq<T>, s: seq<T>, y: T)
    ensures SumCount(ks, s + [y]) == SumCount(ks, s) + Count(ks, y)
  {
    if ks != [] {
      SumCountSnocSource(ks[..|ks| - 1], s, y);
      CountSnoc(s, ks[|ks| - 1], y);
    }
  }

  lemma SumCountSnocKey<T>(ks: seq<T>, s: seq<T>, k: T)
    ensures SumCount(ks + [k], s) == SumCount(ks, s) + Count(s, k)
  {
    assert (ks + [k])[..|ks|] == ks;
  }

  /** Counting every distinct element of `s` in `s` accounts for all of `s`. */
  lemma {:induction false} DedupSumCount<T>(s: seq<T>)
    ensures SumCount(Dedup(s), s) == |s|
  {
    if s != [] {
      var p, x := s[..|s| - 1], s[|s| - 1];
      var d := Dedup(p);
      assert s == p + [x];
      DedupSumCount(p);
      SumCountSnocSource(d, p, x);
      CountDistinct(d, x);
      if x !in d {
        SumCountSnocKey(d, s, x);
        CountSnoc(p, x, x);
        CountAbsent(p, x);
      }
    }
  }

  /** Adding an element already present leaves `Dedup` as it was; a new one is appended. */
  lemma DedupSnoc<T>(s: seq<T>, x: T)
    ensures Dedup(s + [x]) == if x in s then Dedup(s) else Dedup(s) + [x]
  {
    assert (s + [x])[..|s|] == s;
  }

  /** `Dedup` does nothing to a list that is already duplicate-free. */
  lemma {:induction false} DedupOfDistinct<T>(s: seq<T>)
    requires Distinct(s)
    ensures Dedup(s) == s
  {
    if s != [] {
      var p := s[..|s| - 1];
      assert Distinct(p);
      DedupOfDistinct(p);
      assert s[|s| - 1] !in p;
      assert s == p + [s[|s| - 1]];
    }
  }

  lemma {:induction false} SubsequenceRefl<T>(s: seq<T>)
    ensures Subsequence(s, s)
    decreases |s|
  {
    if s != [] { SubsequenceRefl(s[1..]); }
  }

  /** A prefix keeps its elements in order. */
  lemma {:induction false} PrefixSubsequence<T>(s: seq<T>, n: nat)
    requires n <= |s|
    ensures Subsequence(s[..n], s)
    decreases |s|
  {
    if n > 0 {
      assert s[..n][0] == s[0];
      assert s[..n][1..] == s[1..][..n - 1];
      PrefixSubsequence(s[1..], n - 1);
    }
  }
  /** Dropping the first element of `b` keeps what was already a sublist of the rest. */
  lemma {:induction false} SubsequenceSkip<T>(a: seq<T>, b: seq<T>)
    requires b != [] && Subsequence(a, b[1..])
    ensures Subsequence(a, b)
    decreases |b|, 0
  {
    if a != [] && a[0] == b[0] {
      SubsequenceDropFirst(a, b[1..]);
    }
  }

  /** Dropping the first element of a sublist keeps it a sublist. */
  lemma {:induction false} SubsequenceDropFirst<T>(a: seq<T>, b: seq<T>)
    requires a != [] && Subsequence(a, b)
    ensures Subsequence(a[1..], b)
    decreases |b|, 1
  {
    if a[0] == b[0] {
      SubsequenceSkip(a[1..], b);
    } else {
      SubsequenceDropFirst(a, b[1..]);
      SubsequenceSkip(a[1..], b);
    }
  }
}
