/** Sequence combinators standing in for `Array.prototype.filter`, `map` and `flatMap`. */
module Seqs {

  /** `a` can be obtained from `b` by deleting elements: an order-preserving subsequence. */
  ghost predicate IsSubsequence<T>(a: seq<T>, b: seq<T>)
    decreases |b|
  {
    |a| == 0 ||
    (|b| > 0 && ((a[0] == b[0] && IsSubsequence(a[1..], b[1..])) || IsSubsequence(a, b[1..])))
  }

  /** The number of positions of `s` holding an element that satisfies `p`. */
  function CountWhere<T>(p: T -> bool, s: seq<T>): nat
    decreases |s|
  {
    if |s| == 0 then 0 else (if p(s[0]) then 1 else 0) + CountWhere(p, s[1..])
  }

  /** The elements of `s` that satisfy `p`, in their original order: a subsequence holding only
      such elements and as many of them as `s` has positions satisfying `p`, which determines it. */
  function Filter<T(!new)>(p: T -> bool, s: seq<T>): (r: seq<T>)
    ensures |r| <= |s|
    ensures forall k :: 0 <= k < |r| ==> p(r[k])
    ensures forall x :: x in r <==> x in s && p(x)
    ensures |r| == CountWhere(p, s)
    ensures IsSubsequence(r, s)
    decreases |s|
  {
    if |s| == 0 then []
    else
      var rest := Filter(p, s[1..]);
      if p(s[0]) then
        assert ([s[0]] + rest)[1..] == rest;
        [s[0]] + rest
      else rest
  }

  /** Filtering with a predicate every element satisfies keeps the sequence as it is. */
  lemma {:induction false} FilterKeepsAll<T(!new)>(p: T -> bool, s: seq<T>)
    requires forall k :: 0 <= k < |s| ==> p(s[k])
    ensures Filter(p, s) == s
    decreases |s|
  {
    if |s| > 0 {
      FilterKeepsAll(p, s[1..]);
      assert s == [s[0]] + s[1..];
    }
  }

  /** `f` applied to every element, in order. */
  function Map<T, U>(f: T -> U, s: seq<T>): (r: seq<U>)
    ensures |r| == |s|
    ensures forall k :: 0 <= k < |s| ==> r[k] == f(s[k])
    decreases |s|
  {
    if |s| == 0 then [] else [f(s[0])] + Map(f, s[1..])
  }

  /** The total number of elements of the inner sequences. */
  function SumLengths<T>(xss: seq<seq<T>>): nat
    decreases |xss|
  {
    if |xss| == 0 then 0 else |xss[0]| + SumLengths(xss[1..])
  }

  /** The inner sequences concatenated in order. */
  function Flatten<T>(xss: seq<seq<T>>): (r: seq<T>)
    ensures |r| == SumLengths(xss)
    decreases |xss|
  {
    if |xss| == 0 then [] else xss[0] + Flatten(xss[1..])
  }

  /** An element occurs in the concatenation iff it occurs in one of the pieces. */
  lemma {:induction false} FlattenMembership<T>(xss: seq<seq<T>>, x: T)
    ensures x in Flatten(xss) <==> exists k :: 0 <= k < |xss| && x in xss[k]
    decreases |xss|
  {
    if |xss| > 0 {
      FlattenMembership(xss[1..], x);
      if x in Flatten(xss[1..]) {
        var k :| 0 <= k < |xss[1..]| && x in xss[1..][k];
        assert x in xss[k + 1];
      }
      if exists k :: 0 <= k < |xss| && x in xss[k] {
        var k :| 0 <= k < |xss| && x in xss[k];
        if k > 0 {
          assert x in xss[1..][k - 1];
        }
      }
    }
  }

  predicate IsNonEmpty<T>(s: seq<T>) {
    |s| > 0
  }

  /** Dropping the empty pieces does not change the concatenation. */
  lemma {:induction false} FlattenSkipsEmpty<T(!new)>(xss: seq<seq<T>>)
    ensures Flatten(Filter(IsNonEmpty, xss)) == Flatten(xss)
    decreases |xss|
  {
    if |xss| > 0 {
      FlattenSkipsEmpty(xss[1..]);
      var rest := Filter(IsNonEmpty, xss[1..]);
      if |xss[0]| > 0 {
        assert Filter(IsNonEmpty, xss) == [xss[0]] + rest;
        assert ([xss[0]] + rest)[1..] == rest;
      } else {
        assert xss[0] + Flatten(xss[1..]) == Flatten(xss[1..]);
      }
    }
  }
}
