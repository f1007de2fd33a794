/**
  Order-preserving sequence operations shared by the comment store and the
  language search: the model of JavaScript's `Array.prototype.filter`, and the
  subsequence relation that states "same order, some elements dropped".
 */
module Seqs {

  /** `a` is obtained from `b` by dropping elements, without reordering the rest. */
  predicate IsSubseq<T(==)>(a: seq<T>, b: seq<T>)
    decreases |b|
  {
    if a == [] then true
    else if b == [] then false
    else (a[0] == b[0] && IsSubseq(a[1..], b[1..])) || IsSubseq(a, b[1..])
  }

  /** Number of elements of `s` that satisfy `p`. */
  function Count<T>(s: seq<T>, p: T -> bool): (n: nat)
    ensures n <= |s|
  {
    if s == [] then 0 else (if p(s[0]) then 1 else 0) + Count(s[1..], p)
  }

  /** The elements of `s` that satisfy `p`, in their original order. */
  function Filter<T(==)>(s: seq<T>, p: T -> bool): (r: seq<T>)
    ensures |r| == Count(s, p)
    ensures forall i :: 0 <= i < |r| ==> p(r[i])
    ensures forall i :: 0 <= i < |s| && p(s[i]) ==> s[i] in r
    ensures IsSubseq(r, s)
  {
    if s == [] then []
    else if p(s[0]) then [s[0]] + Filter(s[1..], p)
    else Filter(s[1..], p)
  }

  /** Every element of a subsequence occurs in the whole sequence. */
  lemma {:induction false} SubseqMembers<T>(a: seq<T>, b: seq<T>)
    requires IsSubseq(a, b)
    ensures forall x :: x in a ==> x in b
    decreases |b|
  {
    if a != [] {
      assert b != [];
      if a[0] == b[0] && IsSubseq(a[1..], b[1..]) {
        SubseqMembers(a[1..], b[1..]);
        assert forall x :: x in a ==> x == a[0] || x in a[1..];
      } else {
        SubseqMembers(a, b[1..]);
      }
    }
  }

  /** The subsequence relation is reflexive. */
  lemma {:induction false} SubseqRefl<T>(s: seq<T>)
    ensures IsSubseq(s, s)
    decreases |s|
  {
    if s != [] {
      SubseqRefl(s[1..]);
    }
  }

  /** A subsequence whose elements all satisfy `p` is no longer than the
      number of elements of the whole sequence that satisfy `p`. */
  lemma {:induction false} SubseqCountBound<T>(a: seq<T>, s: seq<T>, p: T -> bool)
    requires IsSubseq(a, s)
    requires forall x :: x in a ==> p(x)
    ensures |a| <= Count(s, p)
    decreases |s|
  {
    if a != [] {
      assert s != [];
      if a[0] == s[0] && IsSubseq(a[1..], s[1..]) {
        assert p(a[0]);
        SubseqCountBound(a[1..], s[1..], p);
      } else {
        SubseqCountBound(a, s[1..], p);
      }
    }
  }

  /** Filter is the only subsequence of `s` that keeps nothing but elements
      satisfying `p` and keeps as many as there are: the three ensures of
      Filter determine its result completely. */
  lemma {:induction false} FilterUnique<T>(a: seq<T>, s: seq<T>, p: T -> bool)
    requires IsSubseq(a, s)
    requires forall x :: x in a ==> p(x)
    requires |a| == Count(s, p)
    ensures a == Filter(s, p)
    decreases |s|
  {
    if s == [] {
    } else if a == [] {
      assert Count(s, p) == 0;
      FilterEmptyWhenNoneSatisfy(s, p);
    } else if a[0] == s[0] && IsSubseq(a[1..], s[1..]) {
      assert p(s[0]);
      FilterUnique(a[1..], s[1..], p);
      assert a == [a[0]] + a[1..];
    } else {
      assert IsSubseq(a, s[1..]);
      SubseqCountBound(a, s[1..], p);
      if p(s[0]) {
        assert false;
      }
      FilterUnique(a, s[1..], p);
    }
  }

  /** When no element satisfies `p`, Filter returns the empty sequence. */
  lemma FilterEmptyWhenNoneSatisfy<T>(s: seq<T>, p: T -> bool)
    requires Count(s, p) == 0
    ensures Filter(s, p) == []
  {
  }

  /** Filter keeps a sequence whose elements all satisfy `p` unchanged. */
  lemma {:induction false} FilterKeepsAll<T>(s: seq<T>, p: T -> bool)
    requires forall x :: x in s ==> p(x)
    ensures Filter(s, p) == s
    decreases |s|
  {
    if s != [] {
      assert p(s[0]);
      assert forall x :: x in s[1..] ==> x in s;
      FilterKeepsAll(s[1..], p);
      assert s == [s[0]] + s[1..];
    }
  }

  /** Filtering twice by the same predicate is filtering once. */
  lemma FilterIdempotent<T>(s: seq<T>, p: T -> bool)
    ensures Filter(Filter(s, p), p) == Filter(s, p)
  {
  }
}
