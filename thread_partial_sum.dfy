/** `thread_partial_sum`: the array is cut into chunks; each chunk is
    prefix-summed in place, then raised by the running total that the
    previous chunk publishes through a future, and in turn publishes its own
    last element. Here the chunks are processed one after the other, so each
    previous end value is available when it is needed. */
module ThreadPartialSum {
  import opened Common
  import opened Ranges
  import opened Blocks

  /** `process_chunk` on positions `begin .. last` (inclusive): with no
      previous end value the chunk becomes its own prefix sums; with one,
      every element is raised by it as well. When the chunk has an end-value
      promise, it publishes its new last element, which is the previous end
      value plus the sum of the chunk. */
  method ProcessChunk(a: array<int>, begin: nat, last: nat, previousEndValue: Option<int>, hasEndValue: bool)
    returns (endValue: Option<int>)
    requires begin <= last < a.Length
    modifies a
    ensures var addend := if previousEndValue.Some? then previousEndValue.value else 0;
            a[..] == old(a[..begin]) + Shift(PrefixSums(old(a[begin..last + 1])), addend) + old(a[last + 1..])
    ensures hasEndValue <==> endValue.Some?
    ensures endValue.Some? ==>
              endValue.value == a[last] &&
              endValue.value == (if previousEndValue.Some? then previousEndValue.value else 0) + Sum(old(a[begin..last + 1]))
  {
    ghost var chunk := a[begin..last + 1];
    ghost var a0 := a[..];
    var end := last + 1;
    PartialSumRange(a, begin, end);
    ghost var a1 := a[..];
    LastPrefixSum(chunk);
    endValue := None;
    if previousEndValue.Some? {
      var addend := previousEndValue.value;
      a[last] := a[last] + addend;
      if hasEndValue {
        endValue := Some(a[last]);
      }
      ghost var a2 := a[..];
      ForEachRange(a, begin, last, x => x + addend);
      RaiseChunk(a0, a1, a2, a[..], begin, last, addend);
    } else {
      if hasEndValue {
        endValue := Some(a[last]);
      }
      ShiftZero(PrefixSums(chunk));
    }
  }

  /** The last prefix sum is the sum of the whole chunk. */
  lemma LastPrefixSum(s: seq<int>)
    requires s != []
    ensures PrefixSums(s)[|s| - 1] == Sum(s)
  {
  }

  lemma ShiftZero(s: seq<int>)
    ensures Shift(s, 0) == s
  {
  }

  /** Adding `addend` to the last element of the prefix-summed chunk and then,
      through `for_each`, to every other element raises the whole chunk. */
  lemma RaiseChunk(a0: seq<int>, a1: seq<int>, a2: seq<int>, a3: seq<int>, begin: nat, last: nat, addend: int)
    requires begin <= last < |a0|
    requires a1 == a0[..begin] + PrefixSums(a0[begin..last + 1]) + a0[last + 1..]
    requires a2 == a1[last := a1[last] + addend]
    requires a3 == a2[..begin] + Apply(x => x + addend, a2[begin..last]) + a2[last..]
    ensures a3 == a0[..begin] + Shift(PrefixSums(a0[begin..last + 1]), addend) + a0[last + 1..]
  {
    var r := a0[..begin] + Shift(PrefixSums(a0[begin..last + 1]), addend) + a0[last + 1..];
    assert |a3| == |r|;
    forall i | 0 <= i < |a3|
      ensures a3[i] == r[i]
    {
      if i < begin {
      } else if i < last {
        assert a3[i] == a2[i] + addend;
      } else if i == last {
        assert a3[i] == a2[last];
      } else {
        assert a3[i] == a2[i];
      }
    }
  }

  /** The whole computation: the array becomes its own inclusive prefix
      sums. Chunk `i` of the first `num_threads - 1` covers `block_size`
      elements and gets the end value of chunk `i - 1`; the final chunk
      covers the rest and gets the end value of the last of them. */
  method PartialSum(a: array<int>, hw: nat)
    modifies a
    ensures a[..] == PrefixSums(old(a[..]))
  {
    var length := a.Length;
    if length == 0 {
      assert a[..] == [];
      return;
    }
    ghost var orig := a[..];
    var numThreads := NumThreads(length, hw);
    var blockSize := BlockSize(length, hw);
    var blockStart, previousEndValues := LeadingChunks(a, orig, hw);
    BlocksTile(length, hw, numThreads - 1);
    var finalElement := blockStart + (length - blockStart) - 1;
    var previous := if numThreads > 1 then Some(previousEndValues[|previousEndValues| - 1]) else None;
    var _ := ProcessNextChunk(a, orig, blockStart, finalElement, previous, false);
    AllChunksDone(orig, a[..]);
  }

  /** The loop over the first `num_threads - 1` chunks: afterwards the array
      holds the prefix sums up to where the final chunk starts, and the last
      published end value is the element just before it. */
  method LeadingChunks(a: array<int>, ghost orig: seq<int>, hw: nat)
    returns (blockStart: nat, previousEndValues: seq<int>)
    requires 0 < a.Length && a[..] == orig
    modifies a
    ensures Leading(a[..], orig, hw, NumThreads(a.Length, hw) - 1, blockStart, previousEndValues)
  {
    var numThreads := NumThreads(a.Length, hw);
    previousEndValues := [];
    blockStart := 0;
    var i := 0;
    assert orig[..0] == [] && orig[0..] == orig;
    while i < numThreads - 1
      invariant i <= numThreads - 1
      invariant Leading(a[..], orig, hw, i, blockStart, previousEndValues)
    {
      blockStart, previousEndValues := LeadingStep(a, orig, hw, i, blockStart, previousEndValues);
      i := i + 1;
    }
  }

  /** The state after `i` of the leading chunks: they cover `..blockStart`,
      which the array holds as prefix sums, and the last end value published
      is the running total there. */
  ghost predicate Leading(s: seq<int>, orig: seq<int>, hw: nat, i: nat, blockStart: nat, previousEndValues: seq<int>)
  {
    0 < |orig| == |s| && i <= NumThreads(|orig|, hw) - 1 &&
    blockStart == BlockStart(i, BlockSize(|orig|, hw)) && blockStart <= |orig| &&
    |previousEndValues| == i &&
    (i > 0 ==> 0 < blockStart && previousEndValues[i - 1] == Sum(orig[..blockStart])) &&
    s == PrefixSums(orig[..blockStart]) + orig[blockStart..]
  }

  /** One turn of the loop over the leading chunks: chunk `i` is processed
      with the end value of chunk `i - 1` and publishes its own. */
  method LeadingStep(a: array<int>, ghost orig: seq<int>, hw: nat, i: nat, blockStart: nat, previousEndValues: seq<int>)
    returns (blockStart': nat, previousEndValues': seq<int>)
    requires Leading(a[..], orig, hw, i, blockStart, previousEndValues) && i < NumThreads(a.Length, hw) - 1
    modifies a
    ensures Leading(a[..], orig, hw, i + 1, blockStart', previousEndValues')
  {
    var blockSize := BlockSize(a.Length, hw);
    BlocksTile(a.Length, hw, i + 1);
    var blockLast := blockStart + blockSize - 1;
    var previous := if i != 0 then Some(previousEndValues[i - 1]) else None;
    var endValue := ProcessNextChunk(a, orig, blockStart, blockLast, previous, true);
    blockStart' := blockLast + 1;
    previousEndValues' := previousEndValues + [endValue.value];
  }

  lemma AllChunksDone(orig: seq<int>, done: seq<int>)
    requires done == PrefixSums(orig[..|orig|]) + orig[|orig|..]
    ensures done == PrefixSums(orig)
  {
    assert orig[..|orig|] == orig && orig[|orig|..] == [];
  }

  /** `process_chunk` on the chunk after the processed prefix `..start` of the
      array, with the previous chunk's end value (the running total) when
      there is a previous chunk: the prefix sums now reach past the chunk. */
  method ProcessNextChunk(a: array<int>, ghost orig: seq<int>, start: nat, last: nat,
                          previousEndValue: Option<int>, hasEndValue: bool)
    returns (endValue: Option<int>)
    requires start <= last < |orig| == a.Length
    requires a[..] == PrefixSums(orig[..start]) + orig[start..]
    requires previousEndValue.Some? ==> 0 < start && previousEndValue.value == Sum(orig[..start])
    requires previousEndValue.None? ==> start == 0
    modifies a
    ensures a[..] == PrefixSums(orig[..last + 1]) + orig[last + 1..]
    ensures hasEndValue ==> endValue == Some(Sum(orig[..last + 1]))
  {
    ghost var a0 := a[..];
    endValue := ProcessChunk(a, start, last, previousEndValue, hasEndValue);
    NextChunkDone(orig, start, last, a0, a[..], previousEndValue, endValue);
  }

  /** The values behind `ProcessNextChunk`: the chunk raised by the running
      total continues the prefix sums, and its published end value is the
      running total after the chunk. */
  lemma NextChunkDone(orig: seq<int>, start: nat, last: nat, a0: seq<int>, a1: seq<int>,
                      previousEndValue: Option<int>, endValue: Option<int>)
    requires start <= last < |orig|
    requires a0 == PrefixSums(orig[..start]) + orig[start..]
    requires previousEndValue.Some? ==> previousEndValue.value == Sum(orig[..start])
    requires previousEndValue.None? ==> start == 0
    requires var addend := if previousEndValue.Some? then previousEndValue.value else 0;
             a1 == a0[..start] + Shift(PrefixSums(a0[start..last + 1]), addend) + a0[last + 1..] &&
             (endValue.Some? ==> endValue.value == addend + Sum(a0[start..last + 1]))
    ensures a1 == PrefixSums(orig[..last + 1]) + orig[last + 1..]
    ensures endValue.Some? ==> endValue.value == Sum(orig[..last + 1])
  {
    Unprocessed(orig, start, last + 1);
    if previousEndValue.None? {
      assert orig[..start] == [];
    }
    ChunkDone(orig, start, last + 1);
    assert orig[..last + 1] == orig[..start] + orig[start..last + 1];
    SumAppend(orig[..start], orig[start..last + 1]);
  }

  /** How the array, processed up to `start`, splits around the next chunk. */
  lemma Unprocessed(orig: seq<int>, start: nat, end: nat)
    requires start <= end <= |orig|
    ensures var a := PrefixSums(orig[..start]) + orig[start..];
            a[..start] == PrefixSums(orig[..start]) && a[start..end] == orig[start..end] && a[end..] == orig[end..]
  {
  }

  /** Chunk `start .. end` processed with the running total of everything
      before it extends the prefix sums of the array to `end`. */
  lemma ChunkDone(orig: seq<int>, start: nat, end: nat)
    requires start <= end <= |orig|
    ensures PrefixSums(orig[..start]) + Shift(PrefixSums(orig[start..end]), Sum(orig[..start])) + orig[end..] ==
            PrefixSums(orig[..end]) + orig[end..]
  {
    assert orig[..end] == orig[..start] + orig[start..end];
    PrefixSumsAppend(orig[..start], orig[start..end]);
  }
}
