/** Order-preserving filtering and counting over sequences (the shape of a queryset `.filter`). */
module Seqs {

  /** The elements of `s` that satisfy `p`, in their original order. */
  function Filter<T>(s: seq<T>, p: T -> bool): (r: seq<T>)
    ensures |r| <= |s|
    ensures forall x :: x in r ==> x in s && p(x)
  {
    if s == [] then []
    else Filter(s[..|s| - 1], p) + (if p(s[|s| - 1]) then [s[|s| - 1]] else [])
  }

  /** Filtering keeps every element that satisfies the predicate. */
  lemma {:induction false} FilterKeeps<T>(s: seq<T>, p: T -> bool, x: T)
    requires x in s && p(x)
    ensures x in Filter(s, p)
  {
    if x != s[|s| - 1] {
      assert x in s[..|s| - 1] by {
        var k :| 0 <= k < |s| && s[k] == x;
        assert k < |s| - 1;
        assert s[..|s| - 1][k] == x;
      }
      FilterKeeps(s[..|s| - 1], p, x);
    }
  }

  /** Membership in a filtered sequence, both directions. */
  lemma FilterMembership<T>(s: seq<T>, p: T -> bool, x: T)
    ensures x in Filter(s, p) <==> x in s && p(x)
  {
    if x in s && p(x) {
      FilterKeeps(s, p, x);
    }
  }

  /** Filtering by two predicates in turn is filtering by their conjunction. */
  lemma {:induction false} FilterFilter<T>(s: seq<T>, p: T -> bool, q: T -> bool)
    ensures Filter(Filter(s, p), q) == Filter(s, x => p(x) && q(x))
  {
    if s != [] {
      var init, last := s[..|s| - 1], s[|s| - 1];
      FilterFilter(init, p, q);
      var fp := Filter(s, p);
      if p(last) {
        assert fp[..|fp| - 1] == Filter(init, p);
        assert fp[|fp| - 1] == last;
      } else {
        assert fp == Filter(init, p);
      }
    }
  }

  /** How many elements of `s` satisfy `p`. */
  function Count<T>(s: seq<T>, p: T -> bool): (n: nat)
    ensures n <= |s|
  {
    if s == [] then 0
    else Count(s[..|s| - 1], p) + (if p(s[|s| - 1]) then 1 else 0)
  }

  /** Counting is the length of the filtered sequence. */
  lemma {:induction false} CountIsFilterLength<T>(s: seq<T>, p: T -> bool)
    ensures Count(s, p) == |Filter(s, p)|
  {
    if s != [] {
      CountIsFilterLength(s[..|s| - 1], p);
    }
  }
}
