/** The block decomposition shared by the thread-based algorithms: how many
    threads to use for a range and how long each block is. Every function in
    the source computes these the same way, with `hardware_concurrency` (0
    when unknown) as an input. The minimum of 25 elements per thread only
    caps the thread count at the rounded-up `length / 25`; a block may still
    be shorter than 25 (26 elements on two threads give blocks of 13). */
module Blocks {

  const MinPerThread: nat := 25

  /** `std::min(hw != 0 ? hw : 2, (length + 24) / 25)`. */
  function NumThreads(length: nat, hw: nat): (n: nat)
    ensures length > 0 ==> 1 <= n <= length
    ensures n <= (if hw != 0 then hw else 2)
    ensures n * MinPerThread < length + MinPerThread
  {
    var maxThreads := (length + MinPerThread - 1) / MinPerThread;
    var hardwareThreads := if hw != 0 then hw else 2;
    if hardwareThreads < maxThreads then hardwareThreads else maxThreads
  }

  /** `length / num_threads`. */
  function BlockSize(length: nat, hw: nat): nat
    requires length > 0
  {
    length / NumThreads(length, hw)
  }

  /** A block holds at least one element, and `num_threads` blocks fit in the
      range. */
  lemma BlockSizeBounds(length: nat, hw: nat)
    requires length > 0
    ensures 1 <= BlockSize(length, hw)
    ensures NumThreads(length, hw) * BlockSize(length, hw) <= length
  {
    var n := NumThreads(length, hw);
    var b := length / n;
    assert length == n * b + length % n;
  }

  /** Where block `i` starts: `block_start` after `i` advances by
      `block_size`. */
  function BlockStart(i: nat, blockSize: nat): nat
  {
    if i == 0 then 0 else BlockStart(i - 1, blockSize) + blockSize
  }

  lemma {:induction false} BlockStartIsProduct(i: nat, blockSize: nat)
    ensures BlockStart(i, blockSize) == i * blockSize
  {
    if i > 0 {
      BlockStartIsProduct(i - 1, blockSize);
    }
  }

  lemma {:induction false} BlockStartMonotone(i: nat, j: nat, blockSize: nat)
    requires i <= j
    ensures BlockStart(i, blockSize) <= BlockStart(j, blockSize)
    decreases j
  {
    if i < j {
      BlockStartMonotone(i, j - 1, blockSize);
    }
  }

  /** Each of the first `num_threads - 1` blocks is non-empty and ends
      inside the range, and what is left for the final block is non-empty
      and at least as long as any of them: the blocks tile the range. */
  lemma BlocksTile(length: nat, hw: nat, i: nat)
    requires length > 0 && i <= NumThreads(length, hw) - 1
    ensures var n := NumThreads(length, hw);
            var b := BlockSize(length, hw);
            1 <= b && BlockStart(i, b) <= BlockStart(n - 1, b) && length - BlockStart(n - 1, b) >= b
  {
    var n := NumThreads(length, hw);
    var b := BlockSize(length, hw);
    BlockSizeBounds(length, hw);
    BlockStartMonotone(i, n - 1, b);
    BlockStartIsProduct(n, b);
    assert BlockStart(n, b) == BlockStart(n - 1, b) + b;
  }
}
