/** `async_find`: ranges of at least 50 elements are halved; the second half
    is handed to `std::async` and the first searched directly, and the second
    half's answer is used only when the first half has none. Ranges shorter
    than that are scanned while the shared done flag is down. Here the
    asynchronous search runs when its result is asked for, after the first
    half has been searched. */
module AsyncFind {
  import opened Ranges

  const MinPerThread: nat := 25

  /** `async_find_impl` on `first .. last`, with the shared flag `done` on
      entry and `done'` on exit. With the flag down, the answer is the first
      match of the range (`last` when there is none) and the flag ends up
      raised exactly when a match was found; with the flag already up,
      nothing is scanned and the answer is `last`. */
  method FindImpl(s: seq<int>, first: nat, last: nat, target: int, done: bool) returns (r: nat, done': bool)
    requires first <= last <= |s|
    ensures !done ==> r == FirstMatch(s, first, last, target) && (done' <==> r < last)
    ensures done ==> r == last && done'
    decreases last - first
  {
    var length := last - first;
    if length < 2 * MinPerThread {
      done' := done;
      var pos := first;
      while pos != last && !done'
        invariant first <= pos <= last && done' == done
        invariant forall j | first <= j < pos :: s[j] != target
        decreases last - pos
      {
        if s[pos] == target {
          FirstMatchUnique(s, first, last, target, pos);
          done' := true;
          return pos, done';
        }
        pos := pos + 1;
      }
      if !done {
        FirstMatchUnique(s, first, last, target, last);
      }
      return last, done';
    }
    var midPoint := first + length / 2;
    var directResult, doneAfterFirst := FindImpl(s, first, midPoint, target, done);
    FirstMatchSplit(s, first, midPoint, last, target);
    if directResult == midPoint {
      r, done' := FindImpl(s, midPoint, last, target, doneAfterFirst);
    } else {
      r, done' := directResult, doneAfterFirst;
    }
  }

  /** `async_find`: the search starts with the flag down, so the answer is
      the first position holding `target`, or `|s|` when there is none. */
  method Find(s: seq<int>, target: int) returns (r: nat)
    ensures r <= |s|
    ensures r < |s| ==> s[r] == target
    ensures forall j | 0 <= j < r :: s[j] != target
  {
    var done := false;
    r, done := FindImpl(s, 0, |s|, target, done);
  }
}
