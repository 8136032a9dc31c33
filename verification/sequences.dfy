/**
 * The two array operations the server builds on: `Array.prototype.filter`
 * (an order-preserving selection) and `[...new Set(xs)]` (duplicates
 * removed, first occurrences kept in order).
 */
module Sequences {

  // ---------------------------------------------------------------------
  // filter

  /** `s.filter(p)`. */
  function Filter<T(!new)>(s: seq<T>, p: T -> bool): (r: seq<T>)
    ensures |r| <= |s|
    ensures forall x :: x in r <==> x in s && p(x)
  {
    if s == [] then []
    else if p(s[0]) then [s[0]] + Filter(s[1..], p)
    else Filter(s[1..], p)
  }

  function Shift(idx: seq<nat>): (r: seq<nat>)
    ensures |r| == |idx| && forall k :: 0 <= k < |idx| ==> r[k] == idx[k] + 1
  {
    seq(|idx|, k requires 0 <= k < |idx| => idx[k] + 1)
  }

  /** The positions of `s` whose element satisfies `p`, in increasing order. */
  function KeptPositions<T>(s: seq<T>, p: T -> bool): seq<nat> {
    if s == [] then []
    else if p(s[0]) then [0] + Shift(KeptPositions(s[1..], p))
    else Shift(KeptPositions(s[1..], p))
  }

  /** `r` lists the elements of `s` at the strictly increasing positions `idx`. */
  ghost predicate IsOrderedSelection<T>(r: seq<T>, s: seq<T>, idx: seq<nat>) {
    && |idx| == |r|
    && (forall k :: 0 <= k < |idx| ==> idx[k] < |s| && r[k] == s[idx[k]])
    && (forall k, l :: 0 <= k < l < |idx| ==> idx[k] < idx[l])
  }

  /** A selection from the tail of `s` is a selection from `s`, one position further on. */
  lemma ShiftedSelection<T>(r: seq<T>, s: seq<T>, idx: seq<nat>)
    requires s != [] && IsOrderedSelection(r, s[1..], idx)
    ensures IsOrderedSelection(r, s, Shift(idx))
    ensures IsOrderedSelection([s[0]] + r, s, [0] + Shift(idx))
  {
    var sh := Shift(idx);
    assert forall k :: 0 <= k < |idx| ==> sh[k] < |s| && r[k] == s[sh[k]];
    var r0, idx0 := [s[0]] + r, [0] + sh;
    assert forall k :: 1 <= k < |idx0| ==> idx0[k] == sh[k - 1] && r0[k] == r[k - 1];
  }

  /** `filter` keeps the elements that pass, in their original order: `s` read at the kept positions. */
  lemma {:induction false} FilterIsOrderedSelection<T(!new)>(s: seq<T>, p: T -> bool)
    ensures IsOrderedSelection(Filter(s, p), s, KeptPositions(s, p))
    ensures forall j :: 0 <= j < |s| ==> (p(s[j]) <==> j in KeptPositions(s, p))
  {
    if s != [] {
      FilterIsOrderedSelection(s[1..], p);
      ShiftedSelection(Filter(s[1..], p), s, KeptPositions(s[1..], p));
      KeptPositionsExact(s, p);
    }
  }

  /** The kept positions are exactly those where `p` holds, given that they are so for the tail. */
  lemma KeptPositionsExact<T>(s: seq<T>, p: T -> bool)
    requires s != []
    requires forall j :: 0 <= j < |s| - 1 ==> (p(s[1..][j]) <==> j in KeptPositions(s[1..], p))
    ensures forall j :: 0 <= j < |s| ==> (p(s[j]) <==> j in KeptPositions(s, p))
  {
    var t := s[1..];
    var idx := KeptPositions(t, p);
    var sh := Shift(idx);
    forall j | 0 <= j < |s|
      ensures p(s[j]) <==> j in KeptPositions(s, p)
    {
      if j > 0 {
        assert s[j] == t[j - 1];
        assert (j - 1 in idx) <==> (j in sh) by {
          if j - 1 in idx {
            var k :| 0 <= k < |idx| && idx[k] == j - 1;
            assert sh[k] == j;
          }
          if j in sh {
            var k :| 0 <= k < |sh| && sh[k] == j;
            assert idx[k] == j - 1;
          }
        }
      }
      assert 0 !in sh;
    }
  }

  /** The count of each value after `filter`. */
  lemma {:induction false} FilterMultiplicity<T(!new)>(s: seq<T>, p: T -> bool, x: T)
    ensures multiset(Filter(s, p))[x] == if p(x) then multiset(s)[x] else 0
  {
    if s != [] {
      FilterMultiplicity(s[1..], p, x);
      assert s == [s[0]] + s[1..];
    }
  }

  /** Filtering twice with the same test is filtering once. */
  lemma {:induction false} FilterIdempotent<T(!new)>(s: seq<T>, p: T -> bool)
    ensures Filter(Filter(s, p), p) == Filter(s, p)
  {
    if s != [] {
      FilterIdempotent(s[1..], p);
      if p(s[0]) {
        assert ([s[0]] + Filter(s[1..], p))[1..] == Filter(s[1..], p);
      }
    }
  }

  /** Two filters commute: the order in which they are applied does not matter. */
  lemma {:induction false} FilterCommutes<T(!new)>(s: seq<T>, p: T -> bool, q: T -> bool)
    ensures Filter(Filter(s, p), q) == Filter(Filter(s, q), p)
  {
    if s != [] {
      FilterCommutes(s[1..], p, q);
      var x := s[0];
      var fp := Filter(s[1..], p);
      var fq := Filter(s[1..], q);
      if p(x) { assert ([x] + fp)[1..] == fp; }
      if q(x) { assert ([x] + fq)[1..] == fq; }
    }
  }

  // ---------------------------------------------------------------------
  // [...new Set(s)]

  /** Index of the first occurrence of `x` in `s`. */
  function FirstIndex<T(==)>(s: seq<T>, x: T): (i: nat)
    requires x in s
    ensures i < |s| && s[i] == x
    ensures forall k :: 0 <= k < i ==> s[k] != x
  {
    if s[0] == x then 0 else 1 + FirstIndex(s[1..], x)
  }

  /** `[...new Set(s)]`. */
  function Distinct<T(==,!new)>(s: seq<T>): (r: seq<T>)
    ensures forall x :: x in r <==> x in s
    ensures forall i, j :: 0 <= i < j < |r| ==> r[i] != r[j]
  {
    if s == [] then []
    else
      var r := Distinct(s[..|s| - 1]);
      if s[|s| - 1] in r then r else r + [s[|s| - 1]]
  }

  lemma FirstIndexOfPrefix<T>(s: seq<T>, n: nat, x: T)
    requires n <= |s| && x in s[..n]
    ensures FirstIndex(s, x) == FirstIndex(s[..n], x)
  {
    var i := FirstIndex(s[..n], x);
    var j := FirstIndex(s, x);
    assert s[..n][j] == x by { assert s[i] == x; assert j <= i; }
  }

  /** The distinct values come out in the order of their first occurrence. */
  lemma {:induction false} DistinctKeepsFirstOccurrenceOrder<T(!new)>(s: seq<T>)
    ensures forall i, j :: 0 <= i < j < |Distinct(s)| ==>
      FirstIndex(s, Distinct(s)[i]) < FirstIndex(s, Distinct(s)[j])
  {
    if s != [] {
      var n := |s| - 1;
      var pre := s[..n];
      DistinctKeepsFirstOccurrenceOrder(pre);
      var r := Distinct(pre);
      forall x | x in r ensures FirstIndex(s, x) == FirstIndex(pre, x) {
        FirstIndexOfPrefix(s, n, x);
      }
      if s[n] !in r {
        assert s[n] !in pre;
        assert FirstIndex(s, s[n]) == n;
      }
    }
  }
}
