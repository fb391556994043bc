/**
  The intrusive double queue of a thread: nodes linked through their own fields, with a tag that names
  the queue they are in.
 */
module DoubleQueues {

  class QueueNode {
    var next: QueueNode?
    var prev: QueueNode?
    var queue: int

    constructor ()
      ensures next == null && prev == null && queue == -1
    {
      next, prev, queue := null, null, -1;
    }
  }

  // The neighbours a node has at a place of a sequence.
  function After(items: seq<QueueNode>, i: nat): QueueNode?
    requires i < |items|
  {
    if i + 1 < |items| then items[i + 1] else null
  }

  function Before(items: seq<QueueNode>, i: nat): QueueNode?
    requires i < |items|
  {
    if i > 0 then items[i - 1] else null
  }

  predicate Distinct(items: seq<QueueNode>) {
    forall i, j :: 0 <= i < j < |items| ==> items[i] != items[j]
  }

  // The node at a place is linked to its neighbours, and tagged.
  predicate LinkedAt(items: seq<QueueNode>, i: nat, tag: int)
    reads items
    requires i < |items|
  {
    items[i].next == After(items, i) && items[i].prev == Before(items, i) && items[i].queue == tag
  }

  ghost predicate Linked(items: seq<QueueNode>, tag: int)
    reads items
  {
    Distinct(items) && forall i :: 0 <= i < |items| ==> LinkedAt(items, i, tag)
  }

  lemma Joined(a: seq<QueueNode>, b: seq<QueueNode>)
    requires Distinct(a) && Distinct(b) && forall x :: x in a ==> x !in b
    ensures Distinct(a + b)
  {
    forall i, j | 0 <= i < j < |a + b| ensures (a + b)[i] != (a + b)[j] {
      assert (a + b)[i] == if i < |a| then a[i] else b[i - |a|];
      assert (a + b)[j] == if j < |a| then a[j] else b[j - |a|];
      assert i < |a| ==> a[i] in a;
      assert j >= |a| ==> b[j - |a|] in b;
    }
  }

  lemma CutOut(items: seq<QueueNode>, k: nat)
    requires Distinct(items) && k < |items|
    ensures var r := items[..k] + items[k + 1..];
            && Distinct(r) && items[k] !in r
            && forall j :: 0 <= j < |r| ==> r[j] == items[if j < k then j else j + 1]
  {}

  class DoubleQueue {
    const queueNumber: int
    var head: QueueNode?
    var tail: QueueNode?
    var total: nat
    ghost var items: seq<QueueNode>

    ghost predicate Valid()
      reads this, items
    {
      && Linked(items, queueNumber) && total == |items|
      && head == (if items == [] then null else items[0])
      && tail == (if items == [] then null else items[|items| - 1])
    }

    constructor (queueNumber: int)
      ensures Valid() && items == [] && this.queueNumber == queueNumber
    {
      this.queueNumber, head, tail, total, items := queueNumber, null, null, 0, [];
    }

    // A node that is tagged otherwise is not here.
    lemma NotHere(node: QueueNode)
      requires Valid() && node.queue != queueNumber
      ensures node !in items
    {
      forall i | 0 <= i < |items| ensures items[i] != node {
        assert LinkedAt(items, i, queueNumber);
      }
    }

    // push_tail_node
    method PushTail(node: QueueNode)
      requires Valid() && node.queue != queueNumber
      modifies this, tail, node
      ensures Valid() && items == old(items) + [node]
    {
      NotHere(node);
      total := total + 1;
      if head == null {
        head := node;
      }
      node.prev := tail;
      if tail != null {
        tail.next := node;
      } else {
        tail := node;
      }
      node.queue := queueNumber;
      node.next := null;
      tail := node;
      ghost var was := items;
      items := items + [node];
      Joined(was, [node]);
      forall j | 0 <= j < |items| ensures LinkedAt(items, j, queueNumber) {
        assert j < |was| ==> items[j] == was[j] && old(LinkedAt(items, j, queueNumber));
      }
    }

    // push_head_node: it does not write the prev field of the new node.
    method PushHead(node: QueueNode)
      requires Valid() && node.queue != queueNumber
      modifies this, head, node
      ensures items == [node] + old(items) && node.prev == old(node.prev)
      ensures Valid() <==> old(node.prev) == null
    {
      NotHere(node);
      total := total + 1;
      node.queue := queueNumber;
      node.next := head;
      if tail == null {
        tail := node;
      }
      if head != null {
        head.prev := node;
      }
      head := node;
      ghost var was := items;
      items := [node] + items;
      Joined([node], was);
      forall j | 0 < j < |items| ensures LinkedAt(items, j, queueNumber) {
        assert items[j] == was[j - 1] && old(LinkedAt(items, j - 1, queueNumber));
      }
      assert LinkedAt(items, 0, queueNumber) <==> node.prev == null;
    }

    // do_pop_head
    method PopHead(newState: int) returns (data: QueueNode?)
      requires Valid()
      modifies this, items
      ensures Valid() && (data == null <==> old(items) == [])
      ensures data == null ==> items == []
      ensures data != null ==> data == old(items)[0] && items == old(items)[1..] && data.queue == newState
    {
      if head == null {
        return null;
      }
      assert LinkedAt(items, 0, queueNumber);
      data := head;
      head := head.next;
      ghost var was := items;
      items := items[1..];
      if head != null {
        assert LinkedAt(was, 1, queueNumber);
        head.prev := null;
      } else {
        tail := null;
      }
      data.queue := newState;
      total := total - 1;
      forall j | 0 <= j < |items| ensures LinkedAt(items, j, queueNumber) {
        assert items[j] == was[j + 1] && old(LinkedAt(items, j + 1, queueNumber));
      }
    }

    // pop_tail: the prev field of the node that leaves is kept.
    method PopTail(newState: int) returns (data: QueueNode?)
      requires Valid()
      modifies this, items
      ensures Valid() && (data == null <==> old(items) == [])
      ensures data == null ==> items == []
      ensures data != null ==> data == old(items)[|old(items)| - 1] && items == old(items)[..|old(items)| - 1] && data.queue == newState
      ensures data != null ==> data.prev == old(tail.prev)
    {
      if head == null {
        return null;
      }
      ghost var n := |items| - 1;
      assert LinkedAt(items, n, queueNumber);
      data := tail;
      tail := tail.prev;
      ghost var was := items;
      items := items[..n];
      if tail != null {
        tail.next := null;
      } else {
        head := null;
      }
      data.queue := newState;
      total := total - 1;
      forall j | 0 <= j < |items| ensures LinkedAt(items, j, queueNumber) {
        assert items[j] == was[j] && old(LinkedAt(items, j, queueNumber));
      }
    }

    // do_remove: the tag is all that tells whether the node is here.
    method Remove(node: QueueNode, newState: int) returns (removed: bool)
      requires Valid() && (node.queue == queueNumber ==> node in items)
      modifies this, items
      ensures Valid() && (removed <==> old(node.queue) == queueNumber)
      ensures !removed ==> items == old(items)
      ensures removed ==> node.queue == newState && node.next == null && node.prev == null
      ensures removed ==> exists k :: 0 <= k < |old(items)| && old(items)[k] == node && items == old(items)[..k] + old(items)[k + 1..]
    {
      if node.queue != queueNumber {
        return false;
      }
      ghost var k :| 0 <= k < |items| && items[k] == node;
      Unlink(node, k);
      node.queue := newState;
      removed := true;
    }

    method Unlink(node: QueueNode, ghost k: nat)
      requires Valid() && k < |items| && items[k] == node
      modifies this, items
      ensures Valid() && items == old(items)[..k] + old(items)[k + 1..] && node !in items
      ensures node.next == null && node.prev == null
    {
      assert LinkedAt(items, k, queueNumber);
      CutOut(items, k);
      var prev, next := node.prev, node.next;
      if head == node {
        head := next;
      }
      if tail == node {
        tail := prev;
      }
      if prev != null {
        prev.next := next;
      }
      if next != null {
        next.prev := prev;
      }
      node.next := null;
      node.prev := null;
      total := total - 1;
      ghost var was := items;
      items := items[..k] + items[k + 1..];
      forall j | 0 <= j < |items| ensures LinkedAt(items, j, queueNumber) {
        ghost var i := if j < k then j else j + 1;
        assert items[j] == was[i] && old(LinkedAt(items, i, queueNumber));
        assert Before(items, j) == if i == k + 1 then prev else Before(was, i);
        assert After(items, j) == if i + 1 == k then next else After(was, i);
      }
    }

    // pop_tail_half: up to half of the nodes, from the head on; the links are cut once, at the end.
    method PopTailHalf(max: nat, newState: int) returns (taken: seq<QueueNode>)
      requires Valid()
      modifies this, items
      ensures Valid() && |taken| == (if max < |old(items)| / 2 then max else |old(items)| / 2)
      ensures taken == old(items)[..|taken|] && items == old(items)[|taken|..]
      ensures newState != queueNumber ==> forall i :: 0 <= i < |taken| ==> taken[i].queue == newState
    {
      var half := if max < total / 2 then max else total / 2;
      taken := [];
      if half == 0 {
        return;
      }
      ghost var was := items;
      taken := TagFirst(half, newState);
      CutHalf(was, half);
      total := total - half;
      items := was[half..];
    }

    // The loop of pop_tail_half: the head moves on, tagging the nodes it leaves.
    method TagFirst(half: nat, newState: int) returns (taken: seq<QueueNode>)
      requires Valid() && half < |items|
      modifies this`head, items
      ensures head == items[half] && taken == items[..half]
      ensures forall j :: 0 <= j < half ==> items[j].queue == newState
      ensures forall j :: half <= j < |items| ==> LinkedAt(items, j, queueNumber)
    {
      taken := [];
      for i := 0 to half
        invariant head == items[i] && taken == items[..i]
        invariant forall j :: 0 <= j < i ==> items[j].queue == newState
        invariant forall j :: i <= j < |items| ==> LinkedAt(items, j, queueNumber)
      {
        assert LinkedAt(items, i, queueNumber);
        taken := taken + [head];
        label Before:
        var first := head;
        head := head.next;
        first.queue := newState;
        forall j | i < j < |items| ensures LinkedAt(items, j, queueNumber) {
          assert items[j] != items[i] && old@Before(LinkedAt(items, j, queueNumber));
        }
      }
    }

    // The links behind the new head are as they were.
    method CutHalf(ghost was: seq<QueueNode>, half: nat)
      requires 0 < half < |was| && head == was[half] && Distinct(was)
      requires forall j :: half <= j < |was| ==> LinkedAt(was, j, queueNumber)
      modifies head`prev
      ensures Linked(was[half..], queueNumber)
    {
      head.prev := null;
      ghost var r := was[half..];
      forall j | 0 <= j < |r| ensures LinkedAt(r, j, queueNumber) {
        assert r[j] == was[j + half] && old(LinkedAt(was, j + half, queueNumber));
      }
    }
  }
}
