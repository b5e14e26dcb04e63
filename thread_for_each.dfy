/** `thread_for_each`: `num_threads - 1` blocks of `block_size` elements go
    to workers and the calling thread handles the rest. Here the workers run
    one after the other, each updating its block of the array in place. */
module ThreadForEach {
  import opened Ranges
  import opened Blocks

  /** Every element is replaced by `f` of its old value, exactly once. */
  method ForEach(a: array<int>, f: int -> int, hw: nat)
    modifies a
    ensures a[..] == Apply(f, old(a[..]))
  {
    var length := a.Length;
    if length == 0 {
      assert a[..] == [];
      return;
    }
    ghost var orig := a[..];
    var numThreads := NumThreads(length, hw);
    var blockSize := BlockSize(length, hw);
    var blockStart := 0;
    var i := 0;
    while i < numThreads - 1
      invariant 0 <= i <= numThreads - 1
      invariant blockStart == BlockStart(i, blockSize) && blockStart <= length
      invariant a[..] == Apply(f, orig[..blockStart]) + orig[blockStart..]
    {
      BlocksTile(length, hw, i + 1);
      var blockEnd := blockStart + blockSize;
      ghost var before := a[..];
      ForEachRange(a, blockStart, blockEnd, f);
      ApplyExtends(orig, blockStart, blockEnd, f, before, a[..]);
      blockStart := blockEnd;
      i := i + 1;
    }
    BlocksTile(length, hw, i);
    ghost var before := a[..];
    ForEachRange(a, blockStart, length, f);
    ApplyExtends(orig, blockStart, length, f, before, a[..]);
    assert orig[..length] == orig && orig[length..] == [];
    assert a[..] == Apply(f, orig) + [];
  }

  /** Applying `f` to the block `start .. end` of an array already done up to
      `start` leaves it done up to `end`. */
  lemma ApplyExtends(orig: seq<int>, start: nat, end: nat, f: int -> int, a0: seq<int>, a1: seq<int>)
    requires start <= end <= |orig|
    requires a0 == Apply(f, orig[..start]) + orig[start..]
    requires a1 == a0[..start] + Apply(f, a0[start..end]) + a0[end..]
    ensures a1 == Apply(f, orig[..end]) + orig[end..]
  {
    var r := Apply(f, orig[..end]) + orig[end..];
    assert |a1| == |r|;
    forall k | 0 <= k < |a1|
      ensures a1[k] == r[k]
    {
      if k < start {
        assert a1[k] == a0[k];
      } else if k < end {
        assert a0[k] == orig[k];
      } else {
        assert a1[k] == a0[k];
      }
    }
  }
}
