/** The sequential standard algorithms the parallel examples split into
    blocks (`std::accumulate`, `std::partial_sum`, `std::for_each` and a
    linear search), together with the reference definitions their results
    are stated against. Elements are mathematical integers. */
module Ranges {

  /** The sum of a sequence, added from the left as `std::accumulate` does. */
  function Sum(s: seq<int>): int
  {
    if s == [] then 0 else Sum(s[..|s| - 1]) + s[|s| - 1]
  }

  /** Summing a concatenation is summing its parts. */
  lemma {:induction false} SumAppend(a: seq<int>, b: seq<int>)
    ensures Sum(a + b) == Sum(a) + Sum(b)
    decreases |b|
  {
    if b == [] {
      assert a + b == a;
    } else {
      assert (a + b)[..|a + b| - 1] == a + b[..|b| - 1];
      SumAppend(a, b[..|b| - 1]);
    }
  }

  lemma SumSingle(x: int)
    ensures Sum([x]) == x
  {
    assert [x][..0] == [];
  }

  /** Splitting a sequence at `m` splits its sum. */
  lemma SumSplit(s: seq<int>, m: nat)
    requires m <= |s|
    ensures Sum(s) == Sum(s[..m]) + Sum(s[m..])
  {
    assert s == s[..m] + s[m..];
    SumAppend(s[..m], s[m..]);
  }

  /** `std::accumulate(first, last, init)` over positions `lo .. hi` of `s`. */
  method AccumulateRange(s: seq<int>, lo: nat, hi: nat, init: int) returns (r: int)
    requires lo <= hi <= |s|
    ensures r == init + Sum(s[lo..hi])
  {
    r := init;
    var i := lo;
    while i < hi
      invariant lo <= i <= hi
      invariant r == init + Sum(s[lo..i])
    {
      assert s[lo..i + 1][..i - lo] == s[lo..i];
      r := r + s[i];
      i := i + 1;
    }
  }

  /** `f` applied to every element, in order. */
  function Apply(f: int -> int, s: seq<int>): (r: seq<int>)
    ensures |r| == |s| && forall i | 0 <= i < |s| :: r[i] == f(s[i])
  {
    seq(|s|, i requires 0 <= i < |s| => f(s[i]))
  }

  /** `std::for_each(first, last, f)` with an `f` that updates its argument in
      place: each element of `lo .. hi` is replaced by `f` of itself, once,
      and nothing outside the range changes. */
  method ForEachRange(a: array<int>, lo: nat, hi: nat, f: int -> int)
    requires lo <= hi <= a.Length
    modifies a
    ensures a[..] == old(a[..lo]) + Apply(f, old(a[lo..hi])) + old(a[hi..])
  {
    var i := lo;
    while i < hi
      invariant lo <= i <= hi
      invariant a[..lo] == old(a[..lo]) && a[i..] == old(a[i..])
      invariant a[lo..i] == Apply(f, old(a[lo..i]))
    {
      a[i] := f(a[i]);
      i := i + 1;
    }
    assert a[..] == a[..lo] + a[lo..hi] + a[hi..];
  }

  /** The inclusive prefix sums of `s`: the prefix sums of all but the last
      element, followed by the sum of all of them. */
  function PrefixSums(s: seq<int>): (r: seq<int>)
    ensures |r| == |s|
  {
    if s == [] then [] else PrefixSums(s[..|s| - 1]) + [Sum(s)]
  }

  /** Position `i` of the prefix sums holds the sum of the first `i + 1`
      elements. */
  lemma {:induction false} PrefixSumsAt(s: seq<int>, i: nat)
    requires i < |s|
    ensures PrefixSums(s)[i] == Sum(s[..i + 1])
  {
    if i < |s| - 1 {
      PrefixSumsAt(s[..|s| - 1], i);
      assert s[..|s| - 1][..i + 1] == s[..i + 1];
    } else {
      assert s[..i + 1] == s;
    }
  }

  /** A sequence whose every position `i` holds the sum of the first `i + 1`
      elements of `s` is the prefix sums of `s`. */
  lemma PrefixSumsFrom(s: seq<int>, r: seq<int>)
    requires |r| == |s| && forall i | 0 <= i < |s| :: r[i] == Sum(s[..i + 1])
    ensures r == PrefixSums(s)
  {
    forall i | 0 <= i < |s|
      ensures r[i] == PrefixSums(s)[i]
    {
      PrefixSumsAt(s, i);
    }
  }

  /** Every element raised by `c`. */
  function Shift(s: seq<int>, c: int): (r: seq<int>)
    ensures |r| == |s| && forall i | 0 <= i < |s| :: r[i] == s[i] + c
  {
    seq(|s|, i requires 0 <= i < |s| => s[i] + c)
  }

  /** The prefix sums of a concatenation: those of the first part, then those
      of the second part each raised by the sum of the first part. */
  lemma PrefixSumsAppend(a: seq<int>, b: seq<int>)
    ensures PrefixSums(a + b) == PrefixSums(a) + Shift(PrefixSums(b), Sum(a))
  {
    var r := PrefixSums(a) + Shift(PrefixSums(b), Sum(a));
    forall i | 0 <= i < |a + b|
      ensures r[i] == Sum((a + b)[..i + 1])
    {
      if i < |a| {
        PrefixSumsAt(a, i);
        assert (a + b)[..i + 1] == a[..i + 1];
      } else {
        PrefixSumsAt(b, i - |a|);
        assert (a + b)[..i + 1] == a + b[..i - |a| + 1];
        SumAppend(a, b[..i - |a| + 1]);
      }
    }
    PrefixSumsFrom(a + b, r);
  }

  /** `std::partial_sum(first, last, first)`: the range `lo .. hi` is replaced
      in place by its own prefix sums and nothing else changes. */
  method PartialSumRange(a: array<int>, lo: nat, hi: nat)
    requires lo <= hi <= a.Length
    modifies a
    ensures a[..] == old(a[..lo]) + PrefixSums(old(a[lo..hi])) + old(a[hi..])
  {
    ghost var a0 := a[..];
    ghost var orig := a[lo..hi];
    if lo < hi {
      assert orig[..1][..0] == [];
      var i := lo + 1;
      while i < hi
        invariant lo + 1 <= i <= hi
        invariant forall j | 0 <= j < lo :: a[j] == a0[j]
        invariant forall j | i <= j < a.Length :: a[j] == a0[j]
        invariant forall j | lo <= j < i :: a[j] == Sum(orig[..j - lo + 1])
      {
        assert orig[..i - lo + 1][..i - lo] == orig[..i - lo];
        a[i] := a[i - 1] + a[i];
        i := i + 1;
      }
    }
    PartialSumDone(a0, a[..], lo, hi);
  }

  /** The state `PartialSumRange` leaves, position by position, is the
      original outside `lo .. hi` followed by prefix sums inside it. */
  lemma PartialSumDone(a0: seq<int>, s: seq<int>, lo: nat, hi: nat)
    requires lo <= hi <= |a0| == |s|
    requires forall j | 0 <= j < lo :: s[j] == a0[j]
    requires forall j | hi <= j < |s| :: s[j] == a0[j]
    requires forall j | lo <= j < hi :: s[j] == Sum(a0[lo..hi][..j - lo + 1])
    ensures s == a0[..lo] + PrefixSums(a0[lo..hi]) + a0[hi..]
  {
    var mid := s[lo..hi];
    assert forall j | 0 <= j < hi - lo :: mid[j] == s[lo + j];
    PrefixSumsFrom(a0[lo..hi], mid);
    assert s == s[..lo] + mid + s[hi..];
  }

  /** The position of the first element of `lo .. hi` equal to `target`, or
      `hi` when there is none. */
  function FirstMatch(s: seq<int>, lo: nat, hi: nat, target: int): (k: nat)
    requires lo <= hi <= |s|
    ensures lo <= k <= hi
    ensures k < hi ==> s[k] == target
    ensures forall j | lo <= j < k :: s[j] != target
    decreases hi - lo
  {
    if lo == hi then hi
    else if s[lo] == target then lo
    else FirstMatch(s, lo + 1, hi, target)
  }

  /** Where the first match lies is determined: no other position has the three
      properties of `FirstMatch`. */
  lemma FirstMatchUnique(s: seq<int>, lo: nat, hi: nat, target: int, k: nat)
    requires lo <= k <= hi <= |s|
    requires k < hi ==> s[k] == target
    requires forall j | lo <= j < k :: s[j] != target
    ensures k == FirstMatch(s, lo, hi, target)
  {
  }

  /** Searching two adjacent ranges: the left one decides unless it has no
      match, in which case the right one does. */
  lemma FirstMatchSplit(s: seq<int>, lo: nat, mid: nat, hi: nat, target: int)
    requires lo <= mid <= hi <= |s|
    ensures FirstMatch(s, lo, hi, target) ==
            (if FirstMatch(s, lo, mid, target) == mid then FirstMatch(s, mid, hi, target)
             else FirstMatch(s, lo, mid, target))
  {
    var l := FirstMatch(s, lo, mid, target);
    if l == mid {
      FirstMatchUnique(s, lo, hi, target, FirstMatch(s, mid, hi, target));
    } else {
      FirstMatchUnique(s, lo, hi, target, l);
    }
  }
}
