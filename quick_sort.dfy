/** `sequential_quick_sort` and `parallel_quick_sort` on lists of integers:
    the first element is the pivot, the rest is partitioned into the
    elements below the pivot and the others, both parts are sorted
    recursively and spliced around the pivot. The parallel version sorts the
    lower part through `std::async`; evaluated sequentially it is the same
    computation. */
module QuickSort {

  predicate Sorted(s: seq<int>)
  {
    forall i, j | 0 <= i < j < |s| :: s[i] <= s[j]
  }

  /** The part `std::partition` moves in front of the divide point: the
      elements below the pivot, in their original order. */
  function Lower(s: seq<int>, pivot: int): (r: seq<int>)
    ensures |r| <= |s|
    ensures forall x | x in r :: x < pivot
    decreases |s|
  {
    if s == [] then []
    else if s[0] < pivot then [s[0]] + Lower(s[1..], pivot)
    else Lower(s[1..], pivot)
  }

  /** The part left behind the divide point: the elements not below the
      pivot, in their original order. */
  function Higher(s: seq<int>, pivot: int): (r: seq<int>)
    ensures |r| <= |s|
    ensures forall x | x in r :: x >= pivot
    decreases |s|
  {
    if s == [] then []
    else if s[0] < pivot then Higher(s[1..], pivot)
    else [s[0]] + Higher(s[1..], pivot)
  }

  /** Partitioning neither loses nor invents an element. */
  lemma {:induction false} PartitionKeepsElements(s: seq<int>, pivot: int)
    ensures multiset(Lower(s, pivot)) + multiset(Higher(s, pivot)) == multiset(s)
    decreases |s|
  {
    if s != [] {
      PartitionKeepsElements(s[1..], pivot);
      assert s == [s[0]] + s[1..];
    }
  }

  function SequentialQuickSort(input: seq<int>): (r: seq<int>)
    ensures multiset(r) == multiset(input)
    decreases |input|
  {
    if input == [] then input
    else
      var pivot := input[0];
      var rest := input[1..];
      PartitionKeepsElements(rest, pivot);
      assert input == [pivot] + rest;
      var newLower := SequentialQuickSort(Lower(rest, pivot));
      var newHigher := SequentialQuickSort(Higher(rest, pivot));
      newLower + [pivot] + newHigher
  }

  /** The result is in ascending order. */
  lemma {:induction false} SequentialQuickSortSorted(input: seq<int>)
    ensures Sorted(SequentialQuickSort(input))
    decreases |input|
  {
    if input != [] {
      var pivot := input[0];
      var rest := input[1..];
      var newLower := SequentialQuickSort(Lower(rest, pivot));
      var newHigher := SequentialQuickSort(Higher(rest, pivot));
      SequentialQuickSortSorted(Lower(rest, pivot));
      SequentialQuickSortSorted(Higher(rest, pivot));
      forall x | x in newLower
        ensures x < pivot
      {
        assert x in multiset(newLower);
        assert x in multiset(Lower(rest, pivot));
        assert x in Lower(rest, pivot);
      }
      forall x | x in newHigher
        ensures x >= pivot
      {
        assert x in multiset(newHigher);
        assert x in multiset(Higher(rest, pivot));
        assert x in Higher(rest, pivot);
      }
      var r := newLower + [pivot] + newHigher;
      forall i, j | 0 <= i < j < |r|
        ensures r[i] <= r[j]
      {
        if j < |newLower| {
        } else if i < |newLower| {
          assert r[i] in newLower;
          if j > |newLower| {
            assert r[j] in newHigher;
          }
        } else if i == |newLower| {
          assert r[j] in newHigher;
        }
      }
    }
  }

  /** Two ascending sequences with the same elements are equal. */
  lemma {:induction false} SortedPermutationsEqual(a: seq<int>, b: seq<int>)
    requires Sorted(a) && Sorted(b) && multiset(a) == multiset(b)
    ensures a == b
    decreases |a|
  {
    if a == [] {
      assert |b| == |multiset(b)| == 0;
    } else {
      assert |b| == |multiset(b)| == |multiset(a)| == |a|;
      SortedFirstIsLeast(b, a[0]);
      SortedFirstIsLeast(a, b[0]);
      assert a[0] == b[0];
      TailMultiset(a);
      TailMultiset(b);
      SortedPermutationsEqual(a[1..], b[1..]);
    }
  }

  /** Dropping the first element removes one occurrence of it. */
  lemma TailMultiset(s: seq<int>)
    requires s != []
    ensures multiset(s[1..]) == multiset(s) - multiset{s[0]}
  {
    assert s == [s[0]] + s[1..];
  }

  /** The first element of an ascending sequence is its least. */
  lemma SortedFirstIsLeast(s: seq<int>, x: int)
    requires Sorted(s) && x in multiset(s)
    ensures s != [] && s[0] <= x
  {
    assert x in s;
    var i :| 0 <= i < |s| && s[i] == x;
  }

  /** The result depends only on which elements the input holds, not on
      their order; so any of the orders `std::partition` may leave the
      parts in gives the same result as the stable one above. */
  lemma SequentialQuickSortOrderIndependent(a: seq<int>, b: seq<int>)
    requires multiset(a) == multiset(b)
    ensures SequentialQuickSort(a) == SequentialQuickSort(b)
  {
    SequentialQuickSortSorted(a);
    SequentialQuickSortSorted(b);
    SortedPermutationsEqual(SequentialQuickSort(a), SequentialQuickSort(b));
  }

  /** The lower part is sorted by the asynchronous call, the higher part
      directly; both results are spliced around the pivot as before. */
  function ParallelQuickSort(input: seq<int>): (r: seq<int>)
    ensures r == SequentialQuickSort(input)
    decreases |input|
  {
    if input == [] then input
    else
      var pivot := input[0];
      var rest := input[1..];
      var newLower := ParallelQuickSort(Lower(rest, pivot));
      var newHigher := ParallelQuickSort(Higher(rest, pivot));
      newLower + [pivot] + newHigher
  }
}
