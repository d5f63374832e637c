/**
 * Generic facts about boolean-mask selection on sequences: what pandas does with
 * `frame[mask]`, where the mask is computed row by row.
 */
module Seqs {

  /** The elements of `s` that satisfy `p`, in their original order. */
  function Filter<T>(p: T -> bool, s: seq<T>): (r: seq<T>)
    ensures |r| <= |s|
    ensures forall i :: 0 <= i < |r| ==> r[i] in s && p(r[i])
    ensures forall i :: 0 <= i < |s| && p(s[i]) ==> s[i] in r
  {
    if s == [] then []
    else
      var rest := Filter(p, s[1..]);
      if p(s[0]) then [s[0]] + rest else rest
  }

  /** Number of elements of `s` that satisfy `p`. */
  function CountIf<T>(p: T -> bool, s: seq<T>): (n: nat)
    ensures n <= |s|
    ensures n == 0 <==> forall i :: 0 <= i < |s| ==> !p(s[i])
  {
    if s == [] then 0
    else (if p(s[0]) then 1 else 0) + CountIf(p, s[1..])
  }

  /** `a` is obtained from `b` by deleting elements, keeping the order of the rest. */
  ghost predicate IsSubsequence<T>(a: seq<T>, b: seq<T>)
    decreases |b|
  {
    a == [] || (b != [] && ((a[0] == b[0] && IsSubsequence(a[1..], b[1..])) || IsSubsequence(a, b[1..])))
  }

  /** Filtering with a stronger predicate keeps a subsequence of what a weaker one keeps. */
  lemma {:induction false} FilterStrongerIsSubsequence<T>(p: T -> bool, q: T -> bool, s: seq<T>)
    requires forall i :: 0 <= i < |s| && p(s[i]) ==> q(s[i])
    ensures IsSubsequence(Filter(p, s), Filter(q, s))
  {
    if s != [] {
      FilterStrongerIsSubsequence(p, q, s[1..]);
      var a, b := Filter(p, s[1..]), Filter(q, s[1..]);
      if p(s[0]) {
        assert ([s[0]] + a)[1..] == a && ([s[0]] + b)[1..] == b;
      } else if q(s[0]) {
        assert ([s[0]] + b)[1..] == b;
      }
    }
  }

  /** Filtering keeps an order-preserving subsequence. */
  lemma FilterIsSubsequence<T>(p: T -> bool, s: seq<T>)
    ensures IsSubsequence(Filter(p, s), s)
  {
    var all := (x: T) => true;
    FilterStrongerIsSubsequence(p, all, s);
    FilterAllTrue(all, s);
  }

  /** Each kept element occurs as often as in `s`; each dropped one not at all. */
  lemma {:induction false} FilterMultiplicity<T>(p: T -> bool, s: seq<T>, x: T)
    ensures multiset(Filter(p, s))[x] == if p(x) then multiset(s)[x] else 0
  {
    if s != [] {
      FilterMultiplicity(p, s[1..], x);
      assert s == [s[0]] + s[1..];
    }
  }

  /** A mask that selects every element is the identity. */
  lemma {:induction false} FilterAllTrue<T>(p: T -> bool, s: seq<T>)
    requires forall i :: 0 <= i < |s| ==> p(s[i])
    ensures Filter(p, s) == s
  {
    if s != [] {
      FilterAllTrue(p, s[1..]);
    }
  }

  /** Filtering twice is filtering once with the conjunction of the masks. */
  lemma {:induction false} FilterFilter<T>(p: T -> bool, q: T -> bool, pq: T -> bool, s: seq<T>)
    requires forall i :: 0 <= i < |s| ==> pq(s[i]) == (p(s[i]) && q(s[i]))
    ensures Filter(p, Filter(q, s)) == Filter(pq, s)
  {
    if s != [] {
      FilterFilter(p, q, pq, s[1..]);
      var rest := Filter(q, s[1..]);
      if q(s[0]) {
        assert ([s[0]] + rest)[1..] == rest;
      }
    }
  }

  /**
   * Counting `q` after filtering by `p`, where every element satisfying `q`
   * gets the same verdict `keep` from `p`: the whole count survives or none of it.
   */
  lemma {:induction false} CountAfterFilter<T>(p: T -> bool, q: T -> bool, keep: bool, s: seq<T>)
    requires forall i :: 0 <= i < |s| && q(s[i]) ==> p(s[i]) == keep
    ensures CountIf(q, Filter(p, s)) == if keep then CountIf(q, s) else 0
  {
    if s != [] {
      CountAfterFilter(p, q, keep, s[1..]);
      var rest := Filter(p, s[1..]);
      if p(s[0]) {
        assert ([s[0]] + rest)[1..] == rest;
      }
    }
  }

  /** The number of rows a filter keeps is the number of rows satisfying its mask. */
  lemma {:induction false} FilterLength<T>(p: T -> bool, s: seq<T>)
    ensures |Filter(p, s)| == CountIf(p, s)
  {
    if s != [] {
      FilterLength(p, s[1..]);
    }
  }
}
