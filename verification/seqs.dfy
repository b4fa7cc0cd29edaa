/**
 * Order-preserving filtering of sequences (`Array.prototype.filter`) and the
 * subsequence relation that says what such a filter may and may not do.
 */
module Seqs {

  /** Keeps, in their original order, the elements of `xs` that satisfy `p`. */
  function Filter<T>(p: T -> bool, xs: seq<T>): (r: seq<T>)
    ensures |r| <= |xs|
    ensures forall x :: x in r ==> x in xs && p(x)
  {
    if xs == [] then []
    else (if p(xs[0]) then [xs[0]] else []) + Filter(p, xs[1..])
  }

  /** `xs` can be obtained from `ys` by deleting elements, without reordering. */
  predicate IsSubsequence<T(==)>(xs: seq<T>, ys: seq<T>)
    decreases |ys|
  {
    if xs == [] then true
    else if ys == [] then false
    else (xs[0] == ys[0] && IsSubsequence(xs[1..], ys[1..])) || IsSubsequence(xs, ys[1..])
  }

  lemma SubsequenceOfLonger<T>(xs: seq<T>, y: T, ys: seq<T>)
    requires IsSubsequence(xs, ys)
    ensures IsSubsequence(xs, [y] + ys)
  {
    assert ([y] + ys)[1..] == ys;
  }

  /**
   * Filtering by a weaker predicate keeps a superset, in the same order:
   * the output of the stronger filter is a subsequence of the weaker one's.
   */
  lemma {:induction false} FilterMonotone<T>(p: T -> bool, q: T -> bool, xs: seq<T>)
    requires forall i :: 0 <= i < |xs| && p(xs[i]) ==> q(xs[i])
    ensures IsSubsequence(Filter(p, xs), Filter(q, xs))
  {
    if xs != [] {
      var x, t := xs[0], xs[1..];
      assert forall i :: 0 <= i < |t| && p(t[i]) ==> q(t[i]) by {
        forall i | 0 <= i < |t| && p(t[i]) ensures q(t[i]) {
          assert t[i] == xs[i + 1];
        }
      }
      FilterMonotone(p, q, t);
      if p(x) {
        assert Filter(p, xs) == [x] + Filter(p, t);
        assert Filter(q, xs) == [x] + Filter(q, t);
        assert ([x] + Filter(p, t))[1..] == Filter(p, t);
        assert ([x] + Filter(q, t))[1..] == Filter(q, t);
      } else if q(x) {
        assert Filter(p, xs) == Filter(p, t);
        assert Filter(q, xs) == [x] + Filter(q, t);
        SubsequenceOfLonger(Filter(p, t), x, Filter(q, t));
      } else {
        assert Filter(p, xs) == Filter(p, t);
        assert Filter(q, xs) == Filter(q, t);
      }
    }
  }

  /** A filter returns an order-preserving subsequence of its input. */
  lemma FilterIsSubsequence<T>(p: T -> bool, xs: seq<T>)
    ensures IsSubsequence(Filter(p, xs), xs)
  {
    var all := (x: T) => true;
    FilterMonotone(p, all, xs);
    FilterAll(all, xs);
  }

  /**
   * A filter keeps every occurrence of an accepted element and none of a
   * rejected one: no deduplication, no invention.
   */
  lemma {:induction false} FilterCounts<T>(p: T -> bool, xs: seq<T>)
    ensures forall x :: multiset(Filter(p, xs))[x] == if p(x) then multiset(xs)[x] else 0
  {
    if xs != [] {
      FilterCounts(p, xs[1..]);
      assert xs == [xs[0]] + xs[1..];
      assert multiset(xs) == multiset([xs[0]]) + multiset(xs[1..]);
    }
  }

  /** A filter that accepts every element returns its input unchanged. */
  lemma {:induction false} FilterAll<T>(p: T -> bool, xs: seq<T>)
    requires forall i :: 0 <= i < |xs| ==> p(xs[i])
    ensures Filter(p, xs) == xs
  {
    if xs != [] {
      FilterAll(p, xs[1..]);
      assert xs == [xs[0]] + xs[1..];
    }
  }

  /** Filtering distributes over concatenation. */
  lemma {:induction false} FilterAppend<T>(p: T -> bool, a: seq<T>, b: seq<T>)
    ensures Filter(p, a + b) == Filter(p, a) + Filter(p, b)
  {
    if a != [] {
      FilterAppend(p, a[1..], b);
      assert (a + b)[1..] == a[1..] + b;
    } else {
      assert a + b == b;
    }
  }
}
