/** `async_for_each`: ranges of at least 50 elements are halved, the first
    half handed to `std::async` and the second processed directly; shorter
    ranges are processed with `std::for_each`. Evaluated sequentially, the
    first half is processed before the second. */
module AsyncForEach {
  import opened Ranges

  const MinPerThread: nat := 25

  /** Applying `f` to `first .. mid` and then to `mid .. last` applies it
      to `first .. last`. */
  lemma ApplyHalves(a0: seq<int>, a1: seq<int>, a2: seq<int>, first: nat, mid: nat, last: nat, f: int -> int)
    requires first <= mid <= last <= |a0|
    requires a1 == a0[..first] + Apply(f, a0[first..mid]) + a0[mid..]
    requires a2 == a1[..mid] + Apply(f, a1[mid..last]) + a1[last..]
    ensures a2 == a0[..first] + Apply(f, a0[first..last]) + a0[last..]
  {
    var r := a0[..first] + Apply(f, a0[first..last]) + a0[last..];
    assert |a2| == |r|;
    forall i | 0 <= i < |a2|
      ensures a2[i] == r[i]
    {
      if i < mid {
        assert a2[i] == a1[i];
      } else if i < last {
        assert a1[i] == a0[i];
      }
    }
  }

  /** Every element of `first .. last` is replaced by `f` of its old value,
      exactly once, and nothing outside the range changes. */
  method ForEach(a: array<int>, first: nat, last: nat, f: int -> int)
    requires first <= last <= a.Length
    modifies a
    ensures a[..] == old(a[..first]) + Apply(f, old(a[first..last])) + old(a[last..])
    decreases last - first
  {
    var length := last - first;
    if length == 0 {
      assert a[..] == a[..first] + a[first..last] + a[last..];
      return;
    }
    if length >= 2 * MinPerThread {
      var midPoint := first + length / 2;
      ghost var a0 := a[..];
      ForEach(a, first, midPoint, f);
      ghost var a1 := a[..];
      ForEach(a, midPoint, last, f);
      ApplyHalves(a0, a1, a[..], first, midPoint, last, f);
      return;
    }
    ForEachRange(a, first, last, f);
  }
}
