/** `threadsafe_queue` over `std::queue`: a FIFO queue whose operations each
    run under one mutex. Single-threaded, the queue is its contents, oldest
    first; a `wait_and_pop` can only return once the queue is non-empty,
    which becomes its precondition. Elements are held by `shared_ptr` in the
    source; here they are held by value. */
module ThreadsafeQueue {
  import opened Common

  class Queue<T> {
    /** `data_queue`, front first. */
    var contents: seq<T>

    constructor ()
      ensures contents == []
    {
      contents := [];
    }

    /** The copy constructor: the same elements in the same order. */
    constructor Copy(other: Queue<T>)
      ensures contents == other.contents
    {
      contents := other.contents;
    }

    /** `push`: the value joins at the back. */
    method Push(newValue: T)
      modifies this
      ensures contents == old(contents) + [newValue]
    {
      contents := contents + [newValue];
    }

    /** `wait_and_pop(T&)` and `wait_and_pop()`: the front element is
        returned and removed. */
    method WaitAndPop() returns (value: T)
      requires contents != []
      modifies this
      ensures old(contents) == [value] + contents
    {
      value := contents[0];
      contents := contents[1..];
    }

    /** `try_pop(T&)`: on an empty queue `false`, with `value` and the queue
        untouched; otherwise the front element is written to `value`,
        removed, and `true` returned. */
    method TryPopInto(value: T) returns (ok: bool, value': T)
      modifies this
      ensures ok <==> old(contents) != []
      ensures !ok ==> value' == value && contents == old(contents)
      ensures ok ==> old(contents) == [value'] + contents
    {
      if contents == [] {
        return false, value;
      }
      value' := contents[0];
      contents := contents[1..];
      ok := true;
    }

    /** `try_pop()`: a null pointer on an empty queue, otherwise the front
        element, removed. */
    method TryPop() returns (res: Option<T>)
      modifies this
      ensures res.None? <==> old(contents) == []
      ensures res.None? ==> contents == old(contents)
      ensures res.Some? ==> old(contents) == [res.value] + contents
    {
      if contents == [] {
        return None;
      }
      res := Some(contents[0]);
      contents := contents[1..];
    }

    /** `empty`. */
    method Empty() returns (e: bool)
      ensures e <==> contents == []
    {
      e := contents == [];
    }
  }

  /** `data_preparation_thread`: every number is pushed, in order. */
  method DataPreparation(q: Queue<int>, nums: seq<int>)
    modifies q
    ensures q.contents == old(q.contents) + nums
  {
    var i := 0;
    while i < |nums|
      invariant 0 <= i <= |nums|
      invariant q.contents == old(q.contents) + nums[..i]
    {
      assert nums[..i + 1] == nums[..i] + [nums[i]];
      q.Push(nums[i]);
      i := i + 1;
    }
    assert nums[..|nums|] == nums;
  }

  /** `data_processing_thread`: while the queue is not empty, pop and
      report; the reported values are the queue's contents, front first. */
  method DataProcessing(q: Queue<int>) returns (reported: seq<int>)
    modifies q
    ensures reported == old(q.contents) && q.contents == []
  {
    reported := [];
    var empty := q.Empty();
    while !empty
      invariant empty <==> q.contents == []
      invariant reported + q.contents == old(q.contents)
      decreases |q.contents|
    {
      var val := q.TryPop();
      if val.Some? {
        reported := reported + [val.value];
      }
      empty := q.Empty();
    }
  }

  /** The demonstration run with the preparation thread first: a fresh
      queue hands the numbers over in the order they were pushed. */
  method Handover(nums: seq<int>) returns (reported: seq<int>)
    ensures reported == nums
  {
    var q := new Queue<int>();
    DataPreparation(q, nums);
    reported := DataProcessing(q);
  }
}
