/** `thread_find`: each block is scanned by its own worker, which stops at
    the first element equal to `match` (recording it and raising the shared
    done flag) or as soon as it sees that another worker has raised the
    flag. Here the workers run one after the other in block order, so the
    position found is the first match in the whole range. */
module ThreadFind {
  import opened Common
  import opened Ranges
  import opened Blocks

  /** `find_element` on `begin .. end`: the scan runs only while the done flag
      is down; it records the first match of the block and raises the flag,
      or leaves result and flag as they were. */
  method FindElement(s: seq<int>, begin: nat, end: nat, target: int, result: Option<nat>, done: bool)
    returns (result': Option<nat>, done': bool)
    requires begin <= end <= |s|
    ensures done ==> result' == result && done'
    ensures !done ==> (var k := FirstMatch(s, begin, end, target);
                       if k < end then result' == Some(k) && done' else result' == result && !done')
  {
    result', done' := result, done;
    var pos := begin;
    while pos != end && !done'
      invariant begin <= pos <= end
      invariant !done' ==> result' == result && forall j | begin <= j < pos :: s[j] != target
      invariant done' ==> (done && result' == result) || (!done && result' == Some(FirstMatch(s, begin, end, target)))
      decreases end - pos
    {
      if s[pos] == target {
        FirstMatchUnique(s, begin, end, target, pos);
        result' := Some(pos);
        done' := true;
        return;
      }
      pos := pos + 1;
    }
    if !done {
      FirstMatchUnique(s, begin, end, target, end);
    }
  }

  /** The position of the first element equal to `target`, or `|s|` (the
      source's `last`) when there is none. */
  method Find(s: seq<int>, target: int, hw: nat) returns (r: nat)
    ensures r <= |s|
    ensures r < |s| ==> s[r] == target
    ensures forall j | 0 <= j < r :: s[j] != target
  {
    var length := |s|;
    if length == 0 {
      return length;
    }
    var numThreads := NumThreads(length, hw);
    var blockSize := BlockSize(length, hw);
    var result: Option<nat> := None;
    var doneFlag := false;
    var blockStart := 0;
    var i := 0;
    while i < numThreads - 1
      invariant 0 <= i <= numThreads - 1
      invariant blockStart == BlockStart(i, blockSize) && blockStart <= length
      invariant !doneFlag ==> result == None && FirstMatch(s, 0, blockStart, target) == blockStart
      invariant doneFlag ==> result.Some? && result.value == FirstMatch(s, 0, length, target) < length
    {
      BlocksTile(length, hw, i + 1);
      var blockEnd := blockStart + blockSize;
      ghost var before := doneFlag;
      result, doneFlag := FindElement(s, blockStart, blockEnd, target, result, doneFlag);
      if !before {
        FirstMatchSplit(s, 0, blockStart, blockEnd, target);
        if doneFlag {
          FirstMatchSplit(s, 0, blockEnd, length, target);
        }
      }
      blockStart := blockEnd;
      i := i + 1;
    }
    BlocksTile(length, hw, i);
    ghost var before := doneFlag;
    result, doneFlag := FindElement(s, blockStart, length, target, result, doneFlag);
    if !before {
      FirstMatchSplit(s, 0, blockStart, length, target);
    }
    if !doneFlag {
      return length;
    }
    return result.value;
  }
}
