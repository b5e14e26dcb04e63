/** `threadsafe_list`: a singly linked list whose first node is a dummy
    `head` member that holds no data and is never removed. The per-node
    mutexes of the hand-over-hand traversal are left out (one thread). */
module ThreadsafeList {
  import opened Common

  class Node<T> {
    /** `data`: null (`None`) only in the dummy head. */
    var data: Option<T>
    var next: Node?<T>

    /** `node()`: the dummy, with no data and no successor. */
    constructor Dummy()
      ensures data == None && next == null
    {
      data := None;
      next := null;
    }

    /** `node(value)`. */
    constructor (value: T)
      ensures data == Some(value) && next == null
    {
      data := Some(value);
      next := null;
    }
  }

  /** `f` applied to every element, in order. */
  function Map<T>(f: T -> T, s: seq<T>): (r: seq<T>)
    ensures |r| == |s| && forall i | 0 <= i < |s| :: r[i] == f(s[i])
  {
    seq(|s|, i requires 0 <= i < |s| => f(s[i]))
  }

  /** The elements of `s` that do not satisfy `p`, in their original
      order. */
  function Keep<T>(s: seq<T>, p: T -> bool): seq<T>
  {
    if s == [] then []
    else if p(s[|s| - 1]) then Keep(s[..|s| - 1], p)
    else Keep(s[..|s| - 1], p) + [s[|s| - 1]]
  }

  /** What removal leaves: no element satisfying `p`, every element of `s`
      that does not satisfy it, and nothing that was not in `s`. */
  lemma {:induction false} KeepMeaning<T>(s: seq<T>, p: T -> bool)
    ensures |Keep(s, p)| <= |s|
    ensures forall i | 0 <= i < |Keep(s, p)| :: !p(Keep(s, p)[i])
    ensures forall i | 0 <= i < |s| && !p(s[i]) :: s[i] in Keep(s, p)
    ensures forall x | x in Keep(s, p) :: x in s
  {
    if s != [] {
      var init := s[..|s| - 1];
      KeepMeaning(init, p);
      assert forall i | 0 <= i < |s| - 1 :: s[i] == init[i];
    }
  }

  /** With nothing to remove, removal keeps every element in place. */
  lemma {:induction false} KeepNothingRemoved<T>(s: seq<T>, p: T -> bool)
    requires forall i | 0 <= i < |s| :: !p(s[i])
    ensures Keep(s, p) == s
  {
    if s != [] {
      KeepNothingRemoved(s[..|s| - 1], p);
      assert s[..|s| - 1] + [s[|s| - 1]] == s;
    }
  }

  /** When every element satisfies `p`, nothing is kept. */
  lemma KeepAllRemoved<T>(s: seq<T>, p: T -> bool)
    requires forall i | 0 <= i < |s| :: p(s[i])
    ensures Keep(s, p) == []
  {
  }

  /** Removing in two passes with `p` and then `q` removes the same as one
      pass with `p || q`. */
  lemma {:induction false} KeepTwice<T>(s: seq<T>, p: T -> bool, q: T -> bool)
    ensures Keep(Keep(s, p), q) == Keep(s, x => p(x) || q(x))
  {
    if s != [] {
      KeepTwice(s[..|s| - 1], p, q);
      var r := Keep(s[..|s| - 1], p);
      if !p(s[|s| - 1]) {
        assert (r + [s[|s| - 1]])[..|r|] == r;
      }
    }
  }

  /** The position of the first element of `s[lo..]` satisfying `p`, or
      `|s|` when none does. */
  function FirstWhere<T>(s: seq<T>, p: T -> bool, lo: nat): (k: nat)
    requires lo <= |s|
    ensures lo <= k <= |s|
    ensures k < |s| ==> p(s[k])
    ensures forall j | lo <= j < k :: !p(s[j])
    decreases |s| - lo
  {
    if lo == |s| then |s|
    else if p(s[lo]) then lo
    else FirstWhere(s, p, lo + 1)
  }

  /** The first element satisfying `p`, if there is one. */
  function FindFirst<T>(s: seq<T>, p: T -> bool): Option<T>
  {
    var k := FirstWhere(s, p, 0);
    if k < |s| then Some(s[k]) else None
  }

  /** `FindFirst` finds nothing exactly when no element satisfies `p`, and
      otherwise an element satisfying `p` with none before it. */
  lemma FindFirstMeaning<T>(s: seq<T>, p: T -> bool)
    ensures FindFirst(s, p).None? <==> forall i | 0 <= i < |s| :: !p(s[i])
    ensures FindFirst(s, p).Some? ==>
              var k := FirstWhere(s, p, 0);
              k < |s| && FindFirst(s, p) == Some(s[k]) && p(s[k]) && forall j | 0 <= j < k :: !p(s[j])
  {
  }

  class List<T> {
    const head: Node<T>
    /** The elements after the dummy head, front to back. */
    ghost var contents: seq<T>
    /** `head` followed by one node per element. */
    ghost var nodes: seq<Node<T>>
    ghost var Repr: set<object>

    /** The node chain: `head` first, every node in `Repr`, no node twice,
        each linked to the next and the last one to nothing. */
    ghost predicate Linked()
      reads this, Repr
    {
      this in Repr &&
      |nodes| == |contents| + 1 &&
      (forall i | 0 <= i < |nodes| :: nodes[i] in Repr) &&
      nodes[0] == head && head.data == None &&
      Distinct(nodes) && Links(nodes) &&
      nodes[|contents|].next == null
    }

    ghost predicate Valid()
      reads this, Repr
    {
      Linked() && Holds(nodes, contents)
    }

    constructor ()
      ensures Valid() && fresh(Repr) && contents == []
    {
      var n := new Node<T>.Dummy();
      head := n;
      contents := [];
      nodes := [n];
      Repr := {this, n};
    }

    /** `push_front`: a new node is linked right after the dummy head. */
    method PushFront(value: T)
      requires Valid()
      modifies Repr
      ensures Valid() && fresh(Repr - old(Repr))
      ensures contents == [value] + old(contents)
    {
      var newNode := new Node<T>(value);
      newNode.next := head.next;
      head.next := newNode;
      nodes := [head, newNode] + nodes[1..];
      contents := [value] + contents;
      Repr := Repr + {newNode};
    }

    /** `for_each`: `f` is applied to each element once, front to back,
        updating it in place; the links are untouched. */
    method ForEach(f: T -> T)
      requires Valid()
      modifies Repr
      ensures Valid() && Repr == old(Repr) && nodes == old(nodes)
      ensures contents == Map(f, old(contents))
    {
      ghost var C := contents;
      var cur := head;
      ghost var k := 0;
      while cur.next != null
        invariant Linked() && unchanged(this) && contents == C
        invariant 0 <= k <= |C| && cur == nodes[k]
        invariant cur.next == if k < |C| then nodes[k + 1] else null
        invariant forall j | 0 <= j < k :: nodes[j + 1].data == Some(f(C[j]))
        invariant forall j | k <= j < |C| :: nodes[j + 1].data == Some(C[j])
        decreases |C| - k
      {
        var ne := cur.next;
        assert k < |C| && ne == nodes[k + 1] && ne.data == Some(C[k]);
        ne.data := Some(f(ne.data.value));
        cur := ne;
        k := k + 1;
      }
      contents := Map(f, C);
      assert forall i | 0 <= i < |C| :: contents[i] == f(C[i]);
    }

    /** `find_first_if`: the data of the first node whose element satisfies
        `p`, or null. */
    method FindFirstIf(p: T -> bool) returns (res: Option<T>)
      requires Valid()
      ensures res == FindFirst(contents, p)
    {
      var cur := head;
      ghost var k := 0;
      while cur.next != null
        invariant Valid()
        invariant 0 <= k <= |contents| && cur == nodes[k]
        invariant cur.next == if k < |contents| then nodes[k + 1] else null
        invariant forall j | 0 <= j < k :: !p(contents[j])
        decreases |contents| - k
      {
        var ne := cur.next;
        assert k < |contents| && ne == nodes[k + 1] && ne.data == Some(contents[k]);
        if p(ne.data.value) {
          FirstWhereAt(contents, p, 0, k);
          return ne.data;
        }
        cur := ne;
        k := k + 1;
      }
      FirstWhereAt(contents, p, 0, k);
      return None;
    }

    /** `remove_if`: each node whose element satisfies `p` is unlinked;
        `cur` only advances past a kept node, so runs of matching nodes all
        go. */
    method RemoveIf(p: T -> bool)
      requires Valid()
      modifies Repr
      ensures Valid() && Repr == old(Repr)
      ensures contents == Keep(old(contents), p)
    {
      StartRemoval(p);
      ghost var N := nodes;
      ghost var C := contents;
      assert forall j | 0 <= j < |N| :: N[j] in Repr;
      ghost var idx;
      var last;
      idx, last := RemoveLoop(N, C, p, head);
      RemovedAll(N, C, p, idx, last);
      Relink(Select(N, idx), Keep(C, p));
    }

    /** Before the loop nothing has been looked at and only the head is
        kept. */
    lemma StartRemoval(p: T -> bool)
      requires Valid()
      ensures Removing(nodes, contents, p, [0], 0, head)
    {
      assert Select(nodes, [0]) == [head] && contents[..0] == [];
    }

    /** Records that the chain `S` holding `K` is now the list. */
    ghost method Relink(S: seq<Node<T>>, K: seq<T>)
      requires this in Repr && Chain(S, K) && Distinct(S)
      requires S[0] == head && head.data == None && S[|K|].next == null
      requires forall i | 0 <= i < |S| :: S[i] in Repr
      modifies this
      ensures Valid() && Repr == old(Repr) && nodes == S && contents == K
    {
      nodes := S;
      contents := K;
    }

    /** The destructor: `remove_if` with a predicate that always holds
        leaves only the dummy head. */
    method Clear()
      requires Valid()
      modifies Repr
      ensures Valid() && contents == []
    {
      ghost var before := contents;
      RemoveIf(x => true);
      KeepAllRemoved(before, x => true);
    }
  }

  /** The nodes of `N` at positions `idx`. */
  function Select<T>(N: seq<Node<T>>, idx: seq<nat>): (r: seq<Node<T>>)
    requires forall i | 0 <= i < |idx| :: idx[i] < |N|
    ensures |r| == |idx| && forall i | 0 <= i < |idx| :: r[i] == N[idx[i]]
  {
    seq(|idx|, i requires 0 <= i < |idx| => N[idx[i]])
  }

  /** Positions that start at the head, rise strictly and stay within
      `0 .. k`. */
  ghost predicate Rising(idx: seq<nat>, k: nat)
  {
    |idx| > 0 && idx[0] == 0 &&
    (forall i | 0 <= i < |idx| :: idx[i] <= k) &&
    (forall i, j | 0 <= i < j < |idx| :: idx[i] < idx[j])
  }

  /** No node occurs twice in `S`. */
  ghost predicate Distinct<T>(S: seq<Node<T>>)
  {
    forall i, j | 0 <= i < j < |S| :: S[i] != S[j]
  }

  /** Each node of `S` links to the next one. */
  ghost predicate Links<T>(S: seq<Node<T>>)
    reads S
  {
    forall i | 0 <= i < |S| - 1 :: S[i].next == S[i + 1]
  }

  /** The nodes after the first hold the elements `K`. */
  ghost predicate Holds<T>(S: seq<Node<T>>, K: seq<T>)
    reads S
  {
    |S| == |K| + 1 && forall i | 0 <= i < |K| :: S[i + 1].data == Some(K[i])
  }

  /** The nodes `S` form a chain holding the elements `K`. */
  ghost predicate Chain<T>(S: seq<Node<T>>, K: seq<T>)
    reads S
  {
    Links(S) && Holds(S, K)
  }

  /** What `remove_if` has not touched once it has looked at the first `k`
      elements of `C`, held in the nodes `N[1..k + 1]`: the nodes are
      distinct and keep their data, and the links after node `k` are the
      original ones. */
  ghost predicate Untouched<T>(N: seq<Node<T>>, C: seq<T>, k: nat)
    reads N
  {
    |N| == |C| + 1 && k <= |C| &&
    Distinct(N) &&
    N[0].data == None &&
    (forall j | 0 <= j < |C| :: N[j + 1].data == Some(C[j])) &&
    (forall j | k < j < |C| :: N[j].next == N[j + 1]) &&
    (k < |C| ==> N[|C|].next == null)
  }

  /** The state of `remove_if` after `k` elements: the kept nodes, at the
      positions `idx` of `N` and ending in `cur`, form a chain holding the
      surviving elements, and `cur` links to the first node not yet looked
      at. */
  ghost predicate Removing<T>(N: seq<Node<T>>, C: seq<T>, p: T -> bool, idx: seq<nat>, k: nat, cur: Node<T>)
    reads N
  {
    Untouched(N, C, k) && Rising(idx, k) &&
    Chain(Select(N, idx), Keep(C[..k], p)) &&
    cur == N[idx[|idx| - 1]] &&
    cur.next == (if k < |C| then N[k + 1] else null)
  }

  /** Rising positions of distinct nodes select distinct nodes. */
  lemma SelectDistinct<T>(N: seq<Node<T>>, idx: seq<nat>, k: nat)
    requires k < |N| && Rising(idx, k) && Distinct(N)
    ensures Distinct(Select(N, idx))
  {
  }

  /** A chain extended by a node its last node links to. */
  lemma ChainSnoc<T>(S: seq<Node<T>>, K: seq<T>, n: Node<T>, x: T)
    requires Chain(S, K) && S[|S| - 1].next == n && n.data == Some(x)
    ensures Chain(S + [n], K + [x])
  {
  }

  /** Once every element has been looked at, the kept nodes form the whole
      list: a chain from the head holding the surviving elements, ending in
      a node without successor. */
  lemma RemovedAll<T>(N: seq<Node<T>>, C: seq<T>, p: T -> bool, idx: seq<nat>, cur: Node<T>)
    requires Removing(N, C, p, idx, |C|, cur)
    ensures var S := Select(N, idx);
            Chain(S, Keep(C, p)) && S[0] == N[0] && S[|S| - 1].next == null &&
            Distinct(S) && forall i | 0 <= i < |S| :: S[i] in N
  {
    assert C[..|C|] == C;
    SelectDistinct(N, idx, |C|);
  }

  /** The loop of `remove_if`: `cur` starts at the head and only advances
      past a kept node, so runs of matching nodes all go. */
  method RemoveLoop<T>(ghost N: seq<Node<T>>, ghost C: seq<T>, p: T -> bool, head: Node<T>)
    returns (ghost idx: seq<nat>, cur: Node<T>)
    requires Removing(N, C, p, [0], 0, head)
    modifies set j | 0 <= j < |N| :: N[j]
    ensures Removing(N, C, p, idx, |C|, cur)
  {
    idx := [0];
    ghost var k := 0;
    cur := head;
    while cur.next != null
      invariant Removing(N, C, p, idx, k, cur)
      decreases |C| - k
    {
      idx, cur := RemoveStep(N, C, p, idx, k, cur);
      k := k + 1;
    }
  }

  /** One turn of the `remove_if` loop: the node after `cur` is unlinked
      when its element satisfies `p`, and otherwise becomes `cur`. */
  method RemoveStep<T>(ghost N: seq<Node<T>>, ghost C: seq<T>, p: T -> bool, ghost idx: seq<nat>, ghost k: nat, cur: Node<T>)
    returns (ghost idx': seq<nat>, cur': Node<T>)
    requires Removing(N, C, p, idx, k, cur) && cur.next != null
    modifies cur
    ensures k < |C| && Removing(N, C, p, idx', k + 1, cur')
  {
    var ne := cur.next;
    assert k < |C| && ne == N[k + 1] && ne.data == Some(C[k]);
    if p(ne.data.value) {
      Unlink(N, C, p, idx, k, cur);
      idx', cur' := idx, cur;
    } else {
      Advance(N, C, p, idx, k, cur);
      idx', cur' := idx + [k + 1], ne;
    }
  }

  /** The element looked at matches: its node is unlinked from `cur`. */
  method Unlink<T>(ghost N: seq<Node<T>>, ghost C: seq<T>, p: T -> bool, ghost idx: seq<nat>, ghost k: nat, cur: Node<T>)
    requires Removing(N, C, p, idx, k, cur) && k < |C| && p(C[k])
    modifies cur
    ensures Removing(N, C, p, idx, k + 1, cur)
  {
    KeepSnoc(C, p, k);
    SelectDistinct(N, idx, k);
    assert idx[|idx| - 1] <= k;
    var ne := cur.next;
    cur.next := ne.next;
  }

  /** The element looked at does not match: its node stays and becomes the
      last kept node. */
  lemma Advance<T>(N: seq<Node<T>>, C: seq<T>, p: T -> bool, idx: seq<nat>, k: nat, cur: Node<T>)
    requires Removing(N, C, p, idx, k, cur) && k < |C| && !p(C[k])
    ensures Removing(N, C, p, idx + [k + 1], k + 1, N[k + 1])
  {
    KeepSnoc(C, p, k);
    RisingSnoc(idx, k);
    UntouchedNext(N, C, k);
    SelectSnoc(N, idx, k + 1);
    ChainSnoc(Select(N, idx), Keep(C[..k], p), N[k + 1], C[k]);
  }

  lemma RisingSnoc(idx: seq<nat>, k: nat)
    requires Rising(idx, k)
    ensures Rising(idx + [k + 1], k + 1)
  {
  }

  /** Looking at one more element leaves the rest of the list as it was. */
  lemma UntouchedNext<T>(N: seq<Node<T>>, C: seq<T>, k: nat)
    requires Untouched(N, C, k) && k < |C|
    ensures Untouched(N, C, k + 1)
    ensures N[k + 1].next == (if k + 1 < |C| then N[k + 2] else null)
  {
  }

  lemma SelectSnoc<T>(N: seq<Node<T>>, idx: seq<nat>, j: nat)
    requires j < |N| && forall i | 0 <= i < |idx| :: idx[i] < |N|
    ensures Select(N, idx + [j]) == Select(N, idx) + [N[j]]
  {
  }

  /** What is kept of one more element. */
  lemma KeepSnoc<T>(C: seq<T>, p: T -> bool, k: nat)
    requires k < |C|
    ensures Keep(C[..k + 1], p) == if p(C[k]) then Keep(C[..k], p) else Keep(C[..k], p) + [C[k]]
  {
    assert C[..k + 1][..k] == C[..k];
  }

  /** The first match is at `k` once `k` matches (or is the end) and
      nothing between `lo` and `k` does. */
  lemma {:induction false} FirstWhereAt<T>(s: seq<T>, p: T -> bool, lo: nat, k: nat)
    requires lo <= k <= |s| && (k < |s| ==> p(s[k])) && forall j | lo <= j < k :: !p(s[j])
    ensures FirstWhere(s, p, lo) == k
    decreases k - lo
  {
    if lo < k {
      FirstWhereAt(s, p, lo + 1, k);
    }
  }
}
