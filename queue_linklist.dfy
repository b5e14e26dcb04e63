/** The fine-grained `threadsafe_queue`: a singly linked list of nodes from
    `head` to `tail`, where the tail node is a dummy that never holds data.
    `push` fills the current dummy and links a fresh one behind it;
    popping moves `head` one node on. The head and tail mutexes and the
    condition variable are left out (one thread): a blocking pop requires a
    non-empty queue. */
module QueueLinkList {
  import opened Common

  class Node<T> {
    /** `data`: null (`None`) in the dummy tail node. */
    var data: Option<T>
    var next: Node?<T>

    /** `new node`: no data, no successor. */
    constructor ()
      ensures data == None && next == null
    {
      data := None;
      next := null;
    }
  }

  class Queue<T> {
    var head: Node<T>
    var tail: Node<T>
    /** The elements from front to back. */
    ghost var contents: seq<T>
    /** The nodes from `head` to `tail`, one per element plus the dummy. */
    ghost var nodes: seq<Node<T>>
    ghost var Repr: set<object>

    ghost predicate Valid()
      reads this, Repr
    {
      this in Repr &&
      |nodes| == |contents| + 1 &&
      (forall i | 0 <= i < |nodes| :: nodes[i] in Repr) &&
      nodes[0] == head && nodes[|contents|] == tail &&
      (forall i, j | 0 <= i < j < |nodes| :: nodes[i] != nodes[j]) &&
      (forall i | 0 <= i < |contents| :: nodes[i].next == nodes[i + 1] && nodes[i].data == Some(contents[i])) &&
      tail.data == None && tail.next == null
    }

    /** The constructor: `head` and `tail` both point at one dummy node, so
        the queue starts empty. */
    constructor ()
      ensures Valid() && fresh(Repr) && contents == []
      ensures head == tail
    {
      var n := new Node<T>();
      head := n;
      tail := n;
      contents := [];
      nodes := [n];
      Repr := {this, n};
    }

    /** `get_tail`. */
    method GetTail() returns (t: Node<T>)
      requires Valid()
      ensures t == tail
    {
      t := tail;
    }

    /** `push`: the value goes into the current dummy, a new dummy is linked
        behind it and becomes the tail. */
    method Push(newValue: T)
      requires Valid()
      modifies Repr
      ensures Valid() && fresh(Repr - old(Repr))
      ensures contents == old(contents) + [newValue]
      ensures head == old(head)
    {
      var p := new Node<T>();
      tail.data := Some(newValue);
      tail.next := p;
      tail := p;
      nodes := nodes + [p];
      contents := contents + [newValue];
      Repr := Repr + {p};
    }

    /** `pop_head`: `head` moves to its successor and the old head node is
        returned cut off from the list (moving out of its `next` leaves that
        null). Only called on a non-empty queue. */
    method PopHead() returns (oldHead: Node<T>)
      requires Valid() && head != tail
      modifies this, head
      ensures Valid() && Repr <= old(Repr)
      ensures old(contents) != [] && oldHead.data == Some(old(contents)[0])
      ensures contents == old(contents)[1..]
      ensures oldHead == old(head) && head == old(head.next) && tail == old(tail)
      ensures oldHead.next == null && oldHead !in Repr
    {
      assert contents != [] && head.next == nodes[1];
      oldHead := head;
      head := head.next;
      nodes := nodes[1..];
      contents := contents[1..];
      Repr := Repr - {oldHead};
      oldHead.next := null;
    }

    /** `try_pop_head()`: null on an empty queue (`head == tail`), otherwise
        `pop_head`. */
    method TryPopHead() returns (oldHead: Node?<T>)
      requires Valid()
      modifies this, head
      ensures Valid() && Repr <= old(Repr)
      ensures oldHead == null <==> old(contents) == []
      ensures oldHead == null ==> contents == old(contents)
      ensures oldHead != null ==>
                oldHead.data == Some(old(contents)[0]) && contents == old(contents)[1..] &&
                oldHead.next == null && oldHead !in Repr
    {
      var t := GetTail();
      if head != t {
        oldHead := PopHead();
      } else {
        oldHead := null;
      }
    }

    /** `try_pop()`: the front element's data, or null when empty. */
    method TryPop() returns (res: Option<T>)
      requires Valid()
      modifies this, head
      ensures Valid() && Repr <= old(Repr)
      ensures res.None? <==> old(contents) == []
      ensures res.None? ==> contents == old(contents)
      ensures res.Some? ==> old(contents) == [res.value] + contents
    {
      var oldHead := TryPopHead();
      res := if oldHead != null then oldHead.data else None;
    }

    /** `try_pop(T&)` through `try_pop_head(T&)`: `false` with `value` and
        the queue untouched when empty; otherwise the front element is moved
        into `value` before the head is popped. */
    method TryPopInto(value: T) returns (ok: bool, value': T)
      requires Valid()
      modifies this, head
      ensures Valid() && Repr <= old(Repr)
      ensures ok <==> old(contents) != []
      ensures !ok ==> value' == value && contents == old(contents)
      ensures ok ==> old(contents) == [value'] + contents
    {
      var t := GetTail();
      if head != t {
        value' := head.data.value;
        var oldHead := PopHead();
        ok := true;
      } else {
        ok, value' := false, value;
      }
    }

    /** `wait_and_pop` (both overloads, through `wait_for_data` and
        `wait_pop_head`): once `head != tail`, the front element is returned
        and its node popped. */
    method WaitAndPop() returns (value: T)
      requires Valid() && contents != []
      modifies this, head
      ensures Valid() && Repr <= old(Repr)
      ensures old(contents) == [value] + contents
    {
      value := head.data.value;
      var oldHead := PopHead();
    }

    /** `empty`: `head == tail`, which is exactly an empty queue. */
    method Empty() returns (e: bool)
      requires Valid()
      ensures e <==> contents == []
    {
      var t := GetTail();
      e := head == t;
    }
  }

  /** `data_preparation_thread`: every number is pushed, in order. */
  method DataPreparation(q: Queue<int>, nums: seq<int>)
    requires q.Valid()
    modifies q.Repr
    ensures q.Valid() && fresh(q.Repr - old(q.Repr))
    ensures q.contents == old(q.contents) + nums
  {
    var i := 0;
    while i < |nums|
      invariant 0 <= i <= |nums|
      invariant q.Valid() && fresh(q.Repr - old(q.Repr))
      invariant q.contents == old(q.contents) + nums[..i]
    {
      assert nums[..i + 1] == nums[..i] + [nums[i]];
      q.Push(nums[i]);
      i := i + 1;
    }
    assert nums[..|nums|] == nums;
  }

  /** `data_processing_thread`: pop and report until the queue is empty;
      the reported values are its contents in FIFO order. */
  method DataProcessing(q: Queue<int>) returns (reported: seq<int>)
    requires q.Valid()
    modifies q.Repr
    ensures q.Valid() && q.contents == []
    ensures reported == old(q.contents)
  {
    reported := [];
    var empty := q.Empty();
    while !empty
      invariant q.Valid() && q.Repr <= old(q.Repr)
      invariant empty <==> q.contents == []
      invariant reported + q.contents == old(q.contents)
      decreases |q.contents|
    {
      var val := q.TryPop();
      if val.Some? {
        reported := reported + [val.value];
      }
      empty := q.Empty();
    }
  }

  /** With the preparation thread first, a fresh queue hands the numbers
      over in the order they were pushed. */
  method Handover(nums: seq<int>) returns (reported: seq<int>)
    ensures reported == nums
  {
    var q := new Queue<int>();
    DataPreparation(q, nums);
    reported := DataProcessing(q);
  }
}
