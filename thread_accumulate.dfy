/** `thread_accumulate`: the range is cut into `num_threads` blocks, each
    block is summed from zero by its own worker and the block sums are added
    to `init` in block order. Here the workers run one after the other. */
module ThreadAccumulate {
  import opened Ranges
  import opened Blocks

  /** `accumulate_block`: the sum of one block, starting from `T()`. */
  method AccumulateBlock(s: seq<int>, first: nat, last: nat) returns (r: int)
    requires first <= last <= |s|
    ensures r == Sum(s[first..last])
  {
    r := AccumulateRange(s, first, last, 0);
  }

  /** Appending the sum of the next block to the sums of the blocks before
      it gives the sum of the range up to that block's end. */
  lemma BlockSumAdded(s: seq<int>, fs: seq<int>, blockStart: nat, blockEnd: nat, blockSum: int)
    requires blockStart <= blockEnd <= |s|
    requires Sum(fs) == Sum(s[..blockStart]) && blockSum == Sum(s[blockStart..blockEnd])
    ensures Sum(fs + [blockSum]) == Sum(s[..blockEnd])
  {
    SumAppend(fs, [blockSum]);
    SumSingle(blockSum);
    SumSplit(s[..blockEnd], blockStart);
    assert s[..blockEnd][..blockStart] == s[..blockStart];
    assert s[..blockEnd][blockStart..] == s[blockStart..blockEnd];
  }

  /** The first loop: one block of `block_size` elements per worker, for
      all but the last block; `fs` holds the block sums in block order and
      `blockStart` is where the last block begins. */
  method LaunchBlocks(s: seq<int>, hw: nat) returns (fs: seq<int>, blockStart: nat)
    requires |s| > 0
    ensures |fs| == NumThreads(|s|, hw) - 1
    ensures blockStart == BlockStart(NumThreads(|s|, hw) - 1, BlockSize(|s|, hw)) && blockStart <= |s|
    ensures Sum(fs) == Sum(s[..blockStart])
  {
    var length := |s|;
    var numThreads := NumThreads(length, hw);
    var blockSize := BlockSize(length, hw);
    fs := [];
    blockStart := 0;
    var i := 0;
    while i < numThreads - 1
      invariant 0 <= i <= numThreads - 1
      invariant blockStart == BlockStart(i, blockSize) && blockStart <= length
      invariant |fs| == i
      invariant Sum(fs) == Sum(s[..blockStart])
    {
      BlocksTile(length, hw, i + 1);
      var blockEnd := blockStart + blockSize;
      var blockSum := AccumulateBlock(s, blockStart, blockEnd);
      BlockSumAdded(s, fs, blockStart, blockEnd, blockSum);
      fs := fs + [blockSum];
      blockStart := blockEnd;
      i := i + 1;
    }
  }

  /** The second loop: the results of the futures added to `init` in
      order. */
  method CollectResults(init: int, fs: seq<int>) returns (result: int)
    ensures result == init + Sum(fs)
  {
    result := init;
    var j := 0;
    while j < |fs|
      invariant 0 <= j <= |fs|
      invariant result == init + Sum(fs[..j])
    {
      assert fs[..j + 1][..j] == fs[..j];
      result := result + fs[j];
      j := j + 1;
    }
    assert fs[..|fs|] == fs;
  }

  /** The whole computation: `init` plus the sum of the range. */
  method Accumulate(s: seq<int>, init: int, hw: nat) returns (result: int)
    ensures result == init + Sum(s)
  {
    var length := |s|;
    if length == 0 {
      return init;
    }
    var fs, blockStart := LaunchBlocks(s, hw);
    var lastResult := AccumulateBlock(s, blockStart, length);
    result := CollectResults(init, fs);
    result := result + lastResult;
    SumSplit(s, blockStart);
    assert s[blockStart..length] == s[blockStart..];
  }
}
