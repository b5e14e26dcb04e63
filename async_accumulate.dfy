/** `async_accumulate`: ranges longer than 25 elements are halved; the first
    half starts from `init` and the second from `T()`, and the two results
    are added. Evaluated sequentially, the asynchronous call is just a call. */
module AsyncAccumulate {
  import opened Ranges

  const MaxChunkSize: nat := 25

  /** The whole range is accumulated from `init`; at most 25 elements go to
      `std::accumulate` (`Ranges.AccumulateRange` models its loop), longer
      ranges are halved. */
  function Accumulate(s: seq<int>, init: int): (r: int)
    ensures r == init + Sum(s)
    decreases |s|
  {
    var length := |s|;
    if length > MaxChunkSize then
      var mid := length / 2;
      SumSplit(s, mid);
      Accumulate(s[..mid], init) + Accumulate(s[mid..], 0)
    else
      init + Sum(s)
  }
}
