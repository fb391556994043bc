/**
  The priority queue of a thread: a binary heap of objects that know their position, with the order
  ascending or descending.
 */
module Heaps {

  // ------------------------------------------------------------------ heap order on priorities

  predicate Le(asc: bool, a: real, b: real) {
    if asc then a <= b else a >= b
  }

  function Parent(i: nat): nat
    requires i > 0
  {
    (i - 1) / 2
  }

  predicate Ordered(asc: bool, ps: seq<real>) {
    forall i :: 0 < i < |ps| ==> Le(asc, ps[Parent(i)], ps[i])
  }

  // Ordered but for the edge from i to its parent; what is below i fits under that parent.
  predicate UpHole(asc: bool, ps: seq<real>, i: nat) {
    && (forall j :: 0 < j < |ps| && j != i ==> Le(asc, ps[Parent(j)], ps[j]))
    && (forall j :: 0 < j < |ps| && i > 0 && Parent(j) == i ==> Le(asc, ps[Parent(i)], ps[j]))
  }

  // Ordered but for the edges from i to its children; these fit under the parent of i.
  predicate DownHole(asc: bool, ps: seq<real>, i: nat) {
    && (forall j :: 0 < j < |ps| && Parent(j) != i ==> Le(asc, ps[Parent(j)], ps[j]))
    && (forall j :: 0 < j < |ps| && i > 0 && Parent(j) == i ==> Le(asc, ps[Parent(i)], ps[j]))
  }

  function Swap<T>(s: seq<T>, i: nat, j: nat): seq<T>
    requires i < |s| && j < |s|
  {
    s[i := s[j]][j := s[i]]
  }

  lemma SameMembers(s: seq<HeapObject>, i: nat, j: nat)
    requires i < |s| && j < |s|
    ensures forall o :: o in Swap(s, i, j) <==> o in s
  {
    var r := Swap(s, i, j);
    assert r[i] == s[j] && r[j] == s[i];
    forall o | o in s ensures o in r {
      var k :| 0 <= k < |s| && s[k] == o;
      assert k != i && k != j ==> r[k] == o;
    }
  }

  lemma UpStep(asc: bool, ps: seq<real>, i: nat)
    requires 0 < i < |ps| && UpHole(asc, ps, i) && !Le(asc, ps[Parent(i)], ps[i])
    ensures UpHole(asc, Swap(ps, Parent(i), i), Parent(i))
  {
    var r, p := Swap(ps, Parent(i), i), Parent(i);
    forall j | 0 < j < |r| && j != p ensures Le(asc, r[Parent(j)], r[j]) {}
    forall j | 0 < j < |r| && p > 0 && Parent(j) == p ensures Le(asc, r[Parent(p)], r[j]) {
      assert Le(asc, ps[Parent(p)], ps[p]);
      if j != i {
        assert Le(asc, ps[p], ps[j]);
      }
    }
  }

  // The child heapifydown moves to.
  function Smaller(asc: bool, ps: seq<real>, i: nat): (c: nat)
    requires 2 * i + 1 < |ps|
    ensures i < c < |ps| && Parent(c) == i
  {
    if 2 * i + 2 < |ps| && Le(asc, ps[2 * i + 2], ps[2 * i + 1]) then 2 * i + 2 else 2 * i + 1
  }

  lemma DownStep(asc: bool, ps: seq<real>, i: nat)
    requires 2 * i + 1 < |ps| && DownHole(asc, ps, i)
    requires !(Le(asc, ps[i], ps[2 * i + 1]) && (2 * i + 2 < |ps| ==> Le(asc, ps[i], ps[2 * i + 2])))
    ensures var c := Smaller(asc, ps, i); DownHole(asc, Swap(ps, i, c), c)
  {
    var c := Smaller(asc, ps, i);
    var r := Swap(ps, i, c);
    forall j | 0 < j < |r| && Parent(j) != c ensures Le(asc, r[Parent(j)], r[j]) {
      if Parent(j) == i {
        assert j == 2 * i + 1 || j == 2 * i + 2;
      }
    }
    forall j | 0 < j < |r| && Parent(j) == c ensures Le(asc, r[Parent(c)], r[j]) {
      assert Le(asc, ps[c], ps[j]);
    }
  }

  /** The root of an ordered heap is a best element. */
  lemma {:induction false} RootIsBest(asc: bool, ps: seq<real>, i: nat)
    requires Ordered(asc, ps) && i < |ps|
    ensures Le(asc, ps[0], ps[i])
  {
    if i > 0 {
      RootIsBest(asc, ps, Parent(i));
    }
  }

  // Another priority at one place: the hole is on the side the priority moved to.
  lemma Reprioritized(asc: bool, ps: seq<real>, i: nat, x: real)
    requires Ordered(asc, ps) && i < |ps|
    ensures Le(asc, x, ps[i]) ==> UpHole(asc, ps[i := x], i)
    ensures !Le(asc, x, ps[i]) ==> DownHole(asc, ps[i := x], i)
  {}

  lemma Pushed(asc: bool, ps: seq<real>, x: real)
    requires Ordered(asc, ps)
    ensures UpHole(asc, ps + [x], |ps|)
  {}

  // Only the element at i can be out of place, and its parent tells on which side.
  predicate Displaced(asc: bool, ps: seq<real>, i: nat)
    requires i < |ps|
  {
    if i > 0 && Le(asc, ps[i], ps[Parent(i)]) then UpHole(asc, ps, i) else DownHole(asc, ps, i)
  }

  // The last element takes the place of the one at i.
  lemma Replaced(asc: bool, ps: seq<real>, i: nat)
    requires Ordered(asc, ps) && i < |ps| - 1
    ensures var r := ps[..|ps| - 1][i := ps[|ps| - 1]];
            Displaced(asc, r, i)
  {
    var r := ps[..|ps| - 1][i := ps[|ps| - 1]];
    forall j | 0 < j < |r| ensures j != i && Parent(j) != i ==> Le(asc, r[Parent(j)], r[j]) {
      assert Le(asc, ps[Parent(j)], ps[j]);
    }
    forall j | 0 < j < |r| && i > 0 && Parent(j) == i ensures Le(asc, r[Parent(i)], r[j]) {
      assert Le(asc, ps[Parent(i)], ps[i]) && Le(asc, ps[i], ps[j]);
    }
  }

  // ------------------------------------------------------------------ how many do_pop_half takes

  // From index i on, at a level, in a heap of a size, when some are still wanted: half of the level's
  // width, and then the next level, while its first index is inside what is left of the heap.
  function HalfTaken(i: nat, level: nat, size: int, wanted: nat): (n: nat)
    requires level >= 2
    ensures n <= wanted
    decreases size - i
  {
    if wanted == 0 || i >= size then 0 else
    var t := if level / 2 < wanted then level / 2 else wanted;
    t + HalfTaken(i + level, 2 * level, size - t, wanted - t)
  }

  // At a level, with some taken, the rest of the walk leads to the goal.
  predicate OnTrack(i: nat, level: nat, size: nat, got: nat, half: nat, goal: nat) {
    got < half && level >= 2 && i >= 1 && got + HalfTaken(i, level, size, half - got) == goal
  }

  lemma LevelDone(i: nat, level: nat, size: nat, got: nat, half: nat, goal: nat, got': nat)
    requires OnTrack(i, level, size, got, half, goal) && i < size
    requires got' == got + if level / 2 < half - got then level / 2 else half - got
    requires got' - got <= size
    ensures if got' == half then goal == half else OnTrack(i + level, level * 2, size - (got' - got), got', half, goal)
  {}

  /** Something is taken whenever something may be. */
  lemma HalfTakesSome(size: nat, max: nat)
    requires size >= 2 && max >= 1
    ensures HalfTaken(1, 2, size, if max < size / 2 then max else size / 2) >= 1
  {}

  /** But not always a half: from four objects only one is taken. */
  lemma HalfFallsShort()
    ensures HalfTaken(1, 2, 4, 2) == 1
  {
    assert HalfTaken(3, 4, 3, 1) == 0;
  }

  // ------------------------------------------------------------------ the queue

  class HeapObject {
    var pos: nat
    var priority: real
    var queue: int

    constructor (priority: real)
      ensures this.priority == priority && queue == -1
    {
      this.priority, pos, queue := priority, 0, -1;
    }
  }

  class ComplexPQueue {
    const queueNumber: int
    const asc: bool
    var heap: seq<HeapObject>

    // The queue with its objects in their places; they need not be in order.
    ghost predicate Placed()
      reads this, heap
    {
      forall i :: 0 <= i < |heap| ==> heap[i].pos == i
    }

    ghost function Priorities(): (ps: seq<real>)
      reads this, heap
      ensures |ps| == |heap|
    {
      seq(|heap|, i requires 0 <= i < |heap| reads this, heap => heap[i].priority)
    }

    ghost function Members(): set<HeapObject>
      reads this
    {
      set o | o in heap
    }

    ghost predicate Valid()
      reads this, heap
    {
      && Placed() && Ordered(asc, Priorities())
      && (forall o :: o in heap ==> o.queue == queueNumber)
    }

    constructor (queueNumber: int, asc: bool)
      ensures Valid() && heap == [] && this.queueNumber == queueNumber && this.asc == asc
    {
      this.queueNumber, this.asc, heap := queueNumber, asc, [];
    }

    // The two HEAP_SET_INDEX of a swap
    method SwapAt(i: nat, j: nat)
      requires Placed() && i < |heap| && j < |heap| && i != j
      modifies this`heap, {heap[i], heap[j]}`pos
      ensures Placed() && heap == Swap(old(heap), i, j)
      ensures Priorities() == Swap(old(Priorities()), i, j)
      ensures forall o :: o in heap <==> o in old(heap)
    {
      var x, y := heap[i], heap[j];
      heap := heap[i := y];
      y.pos := i;
      heap := heap[j := x];
      x.pos := j;
      SameMembers(old(heap), i, j);
    }

    method HeapifyUp(start: nat)
      requires Placed() && start < |heap| && UpHole(asc, Priorities(), start)
      modifies this`heap, Members()`pos
      ensures Placed() && Ordered(asc, Priorities())
      ensures |heap| == |old(heap)| && forall o :: o in heap <==> o in old(heap)
      ensures start > 0 && Le(asc, old(heap[0].priority), old(heap[start].priority)) ==> heap[0] == old(heap[0])
    {
      var index: nat := start;
      while index > 0 && !Le(asc, heap[Parent(index)].priority, heap[index].priority)
        invariant index < |heap| == |old(heap)| && Placed() && UpHole(asc, Priorities(), index)
        invariant forall o :: o in heap <==> o in old(heap)
        invariant heap[index] == old(heap)[start]
        invariant index > 0 || start == 0 || !Le(asc, old(heap[0].priority), old(heap[start].priority))
        invariant index > 0 ==> heap[0] == old(heap)[0]
        decreases index
      {
        index := StepUp(index);
      }
      UpDone(index);
    }

    lemma UpDone(index: nat)
      requires index < |heap| && UpHole(asc, Priorities(), index)
      requires index > 0 ==> Le(asc, heap[Parent(index)].priority, heap[index].priority)
      ensures Ordered(asc, Priorities())
    {}

    // One turn of heapifyup: swap with the parent.
    method StepUp(index: nat) returns (parent: nat)
      requires Placed() && 0 < index < |heap| && UpHole(asc, Priorities(), index)
      requires !Le(asc, heap[Parent(index)].priority, heap[index].priority)
      modifies this`heap, Members()`pos
      ensures parent < index < |heap| == |old(heap)| && Placed() && UpHole(asc, Priorities(), parent)
      ensures heap == Swap(old(heap), parent, index) && forall o :: o in heap <==> o in old(heap)
    {
      parent := Parent(index);
      UpStep(asc, Priorities(), index);
      SwapAt(parent, index);
    }

    method HeapifyDown(start: nat)
      requires Placed() && start < |heap| && DownHole(asc, Priorities(), start)
      modifies this`heap, Members()`pos
      ensures Placed() && Ordered(asc, Priorities())
      ensures |heap| == |old(heap)| && forall o :: o in heap <==> o in old(heap)
      ensures start > 0 ==> heap[0] == old(heap[0])
    {
      var index: nat := start;
      while 2 * index + 1 < |heap| && !IsSettled(index)
        invariant index < |heap| == |old(heap)| && Placed() && DownHole(asc, Priorities(), index)
        invariant forall o :: o in heap <==> o in old(heap)
        invariant start > 0 ==> index > 0 && heap[0] == old(heap)[0]
        decreases |heap| - index
      {
        index := StepDown(index);
      }
      SettledDone(index);
    }

    lemma SettledDone(index: nat)
      requires index < |heap| && DownHole(asc, Priorities(), index) && (2 * index + 1 < |heap| ==> IsSettled(index))
      ensures Ordered(asc, Priorities())
    {}

    // One turn of heapifydown: swap with the better child.
    method StepDown(index: nat) returns (smaller: nat)
      requires Placed() && 2 * index + 1 < |heap| && !IsSettled(index) && DownHole(asc, Priorities(), index)
      modifies this`heap, Members()`pos
      ensures index < smaller < |heap| == |old(heap)| && Placed() && DownHole(asc, Priorities(), smaller)
      ensures forall o :: o in heap <==> o in old(heap)
      ensures index > 0 ==> heap[0] == old(heap)[0]
    {
      var l, r := 2 * index + 1, 2 * index + 2;
      smaller := if r < |heap| && Le(asc, heap[r].priority, heap[l].priority) then r else l;
      DownStep(asc, Priorities(), index);
      SwapAt(index, smaller);
    }

    // No child is better: heapifydown returns.
    predicate IsSettled(index: nat)
      reads this, heap
      requires 2 * index + 1 < |heap|
    {
      var l, r := 2 * index + 1, 2 * index + 2;
      Le(asc, heap[index].priority, heap[l].priority) && (r < |heap| ==> Le(asc, heap[index].priority, heap[r].priority))
    }

    method Insert(node: HeapObject, prio: real)
      requires Valid() && node !in heap
      modifies this`heap, node, Members()`pos
      ensures Valid() && forall o :: o in heap <==> o in old(heap) || o == node
      ensures node.priority == prio && node.queue == queueNumber
      ensures |heap| == |old(heap)| + 1
    {
      Pushed(asc, Priorities(), prio);
      Append(node, prio);
      HeapifyUp(|heap| - 1);
    }

    // The object at the end of the array
    method Append(node: HeapObject, prio: real)
      requires Placed() && node !in heap
      modifies this`heap, node
      ensures Placed() && heap == old(heap) + [node] && Priorities() == old(Priorities()) + [prio]
      ensures node.priority == prio && node.queue == queueNumber
    {
      ghost var ps := Priorities();
      node.priority := prio;
      node.queue := queueNumber;
      heap := heap + [node];
      node.pos := |heap| - 1;
      assert Priorities() == ps + [prio];
    }

    // do_pop
    method Pop(newState: int) returns (min: HeapObject?)
      requires Valid()
      modifies this`heap, Members()`pos, Members()`queue
      ensures Valid()
      ensures min == null <==> old(heap) == []
      ensures min == null ==> heap == []
      ensures min != null ==> min == old(heap)[0] && min.queue == newState && forall o :: o in heap <==> o in old(heap) && o != min
      ensures min != null ==> |heap| == |old(heap)| - 1 && forall o :: o in old(heap) ==> Le(asc, min.priority, o.priority)
    {
      if heap == [] {
        return null;
      }
      min := heap[0];
      AllAbove(0);
      DropRoot();
      min.queue := newState;
    }

    method DropRoot()
      requires Placed() && Ordered(asc, Priorities()) && heap != []
      modifies this`heap, Members()`pos
      ensures Placed() && Ordered(asc, Priorities())
      ensures |heap| == |old(heap)| - 1 && forall o :: o in heap <==> o in old(heap) && o != old(heap)[0]
    {
      if |heap| > 1 {
        Replaced(asc, Priorities(), 0);
        FillFromBack(0);
        HeapifyDown(0);
      } else {
        heap := heap[..|heap| - 1];
      }
    }

    // Everything in an ordered heap is no better than its root.
    lemma AllAbove(i: nat)
      requires Valid() && i < |heap|
      ensures forall o :: o in heap ==> Le(asc, heap[0].priority, o.priority)
    {
      forall k | 0 <= k < |heap| ensures Le(asc, heap[0].priority, heap[k].priority) {
        RootIsBest(asc, Priorities(), k);
      }
    }

    // do_remove
    method Remove(obj: HeapObject, newState: int)
      requires Valid() && obj in heap
      modifies this`heap, Members()`pos, obj`queue
      ensures Valid() && obj.queue == newState && forall o :: o in heap <==> o in old(heap) && o != obj
      ensures |heap| == |old(heap)| - 1
      ensures old(obj.pos) > 0 ==> heap != [] && heap[0] == old(heap)[0]
    {
      assert heap[obj.pos] == obj;
      AllAbove(obj.pos);
      obj.queue := newState;
      TakeOut(obj.pos);
    }

    // The object at index leaves the heap; the last one takes its place and moves up or down.
    method TakeOut(index: nat)
      requires Placed() && Ordered(asc, Priorities()) && index < |heap|
      requires forall o :: o in heap ==> Le(asc, heap[0].priority, o.priority)
      modifies this`heap, Members()`pos
      ensures Placed() && Ordered(asc, Priorities())
      ensures |heap| == |old(heap)| - 1 && forall o :: o in heap <==> o in old(heap) && o != old(heap)[index]
      ensures index > 0 ==> heap != [] && heap[0] == old(heap)[0]
    {
      if index < |heap| - 1 {
        ghost var ps := Priorities();
        ghost var r := ps[..|ps| - 1][index := ps[|ps| - 1]];
        Replaced(asc, ps, index);
        FillFromBack(index);
        assert Priorities() == r && Displaced(asc, r, index);
        Settle(index);
      } else {
        DropBack();
      }
    }

    // Up if the object is as good as its parent, and down otherwise.
    method Settle(index: nat)
      requires Placed() && index < |heap|
      requires Displaced(asc, Priorities(), index)
      modifies this`heap, Members()`pos
      ensures Placed() && Ordered(asc, Priorities())
      ensures |heap| == |old(heap)| && forall o :: o in heap <==> o in old(heap)
      ensures index > 0 && Le(asc, old(heap[0].priority), old(heap[index].priority)) ==> heap[0] == old(heap[0])
    {
      if index > 0 && Le(asc, heap[index].priority, heap[Parent(index)].priority) {
        HeapifyUp(index);
      } else {
        HeapifyDown(index);
      }
    }

    // The last object moves to the place of the one at index, which leaves the heap.
    method FillFromBack(index: nat)
      requires Placed() && index < |heap| - 1
      modifies this`heap, {heap[|heap| - 1]}`pos
      ensures Placed() && heap == old(heap)[..|old(heap)| - 1][index := old(heap)[|old(heap)| - 1]]
      ensures Priorities() == old(Priorities())[..|old(heap)| - 1][index := old(Priorities())[|old(heap)| - 1]]
      ensures forall o :: o in heap <==> o in old(heap) && o != old(heap)[index]
    {
      MembersWithout(heap, index);
      var tmp := heap[|heap| - 1];
      heap := heap[..|heap| - 1][index := tmp];
      tmp.pos := index;
    }

    method DropBack()
      requires Placed() && Ordered(asc, Priorities()) && heap != []
      modifies this`heap
      ensures Placed() && Ordered(asc, Priorities()) && heap == old(heap)[..|old(heap)| - 1]
      ensures forall o :: o in heap <==> o in old(heap) && o != old(heap)[|old(heap)| - 1]
    {
      ghost var ps := Priorities();
      MembersWithout(heap, |heap| - 1);
      heap := heap[..|heap| - 1];
      assert Priorities() == ps[..|ps| - 1];
    }

    // remove: false when the object is not in the queue.
    method TryRemove(obj: HeapObject, newState: int) returns (removed: bool)
      requires Valid() && (obj.queue == queueNumber ==> obj in heap)
      modifies this`heap, Members()`pos, obj`queue
      ensures Valid() && (removed <==> old(obj.queue) == queueNumber)
      ensures removed ==> obj.queue == newState && forall o :: o in heap <==> o in old(heap) && o != obj
      ensures !removed ==> heap == old(heap) && obj.queue == old(obj.queue)
    {
      if heap == [] || obj.queue != queueNumber {
        return false;
      }
      Remove(obj, newState);
      return true;
    }

    // do_move_node
    method MoveNode(node: HeapObject, prio: real)
      requires Valid() && (node.queue == queueNumber ==> node in heap)
      modifies this`heap, Members()`pos, node`priority
      ensures Valid() && forall o :: o in heap <==> o in old(heap)
      ensures node in heap ==> node.priority == prio
      ensures node !in heap ==> heap == old(heap) && node.priority == old(node.priority)
    {
      if heap == [] || node.queue != queueNumber {
        return;
      }
      var pos := node.pos;
      var oldPrio := node.priority;
      ghost var ps := Priorities();
      Reprioritized(asc, ps, pos, prio);
      node.priority := prio;
      assert Priorities() == ps[pos := prio];
      if Le(asc, prio, oldPrio) {
        HeapifyUp(pos);
      } else {
        HeapifyDown(pos);
      }
    }

    // What do_pop_half has done so far: the objects taken are out of the heap, the root is not.
    ghost predicate Taken(before: seq<HeapObject>, taken: seq<HeapObject>, newState: int)
      reads this, heap, taken
    {
      && (forall o :: o in heap ==> o in before && o !in taken)
      && (forall o :: o in before ==> o in heap || o in taken)
      && (forall i :: 0 <= i < |taken| ==> taken[i] in before && taken[i].queue == newState)
      && (forall i, j :: 0 <= i < j < |taken| ==> taken[i] != taken[j])
      && |heap| + |taken| == |before|
      && (before != [] ==> heap != [] && heap[0] == before[0])
    }

    // One object of do_pop_half
    method TakeAt(idx: nat, ghost before: seq<HeapObject>, taken: seq<HeapObject>, newState: int) returns (obj: HeapObject)
      requires Valid() && 0 < idx < |heap| && Taken(before, taken, newState)
      modifies this`heap, Members()`pos, Members()`queue
      ensures Valid() && Taken(before, taken + [obj], newState) && obj in old(heap)
      ensures |heap| == |old(heap)| - 1 && forall o :: o in heap ==> o in old(heap)
    {
      obj := heap[idx];
      assert obj.pos == idx && forall i :: 0 <= i < |taken| ==> taken[i] !in heap;
      Remove(obj, newState);
    }

    // do_pop_half: walks down the left half of each level, with indices clamped to the heap.
    method PopHalf(max: nat, newState: int) returns (taken: seq<HeapObject>)
      requires Valid()
      modifies this`heap, Members()`pos, Members()`queue
      ensures Valid() && Taken(old(heap), taken, newState)
      ensures |taken| <= max && |taken| <= |old(heap)| / 2
      ensures |taken| == HalfTaken(1, 2, |old(heap)|, if max < |old(heap)| / 2 then max else |old(heap)| / 2)
    {
      var half := if max < |heap| / 2 then max else |heap| / 2;
      taken := [];
      if half > 0 {
        taken := TakeLevels(half, heap, newState);
      }
    }

    // The outer loop of do_pop_half
    method TakeLevels(half: nat, ghost before: seq<HeapObject>, newState: int) returns (taken: seq<HeapObject>)
      requires Valid() && before == heap && 0 < half <= |heap| / 2
      modifies this`heap, Members()`pos, Members()`queue
      ensures Valid() && Taken(before, taken, newState)
      ensures |taken| == HalfTaken(1, 2, |before|, half) <= half
    {
      taken := [];
      ghost var goal := HalfTaken(1, 2, |heap|, half);
      var i: nat, level: nat := 1, 2;
      while i < |heap|
        invariant Valid() && Taken(before, taken, newState)
        invariant forall o :: o in heap ==> o in before
        invariant OnTrack(i, level, |heap|, |taken|, half, goal)
        decreases |before| - i
      {
        ghost var size, got := |heap|, |taken|;
        taken := TakeLevel(i, level / 2, half, before, taken, newState);
        LevelDone(i, level, size, got, half, goal, |taken|);
        if |taken| == half {
          return;
        }
        i := i + level;
        level := level * 2;
      }
    }

    // The inner loop of do_pop_half: from index i on, until enough is taken
    method TakeLevel(i: nat, width: nat, half: nat, ghost before: seq<HeapObject>, taken: seq<HeapObject>, newState: int)
      returns (more: seq<HeapObject>)
      requires Valid() && Taken(before, taken, newState) && |taken| < half <= |before| / 2 && i >= 1
      requires forall o :: o in heap ==> o in before
      modifies this`heap, Members()`pos, Members()`queue
      ensures Valid() && Taken(before, more, newState)
      ensures |more| == |taken| + if width < half - |taken| then width else half - |taken|
      ensures forall o :: o in heap ==> o in old(heap)
    {
      more := taken;
      var j := 0;
      while j < width
        invariant Valid() && Taken(before, more, newState) && |more| < half
        invariant forall o :: o in heap ==> o in old(heap)
        invariant j <= width && |more| == |taken| + j
      {
        var idx := if i + j < |heap| - 1 then i + j else |heap| - 1;
        var obj := TakeAt(idx, before, more, newState);
        more := more + [obj];
        if |more| == half {
          return;
        }
        j := j + 1;
      }
    }
  }

  // A sequence without repetition loses exactly the object at i when the last one takes its place.
  lemma MembersWithout(s: seq<HeapObject>, i: nat)
    requires i < |s| && forall j, k :: 0 <= j < k < |s| ==> s[j] != s[k]
    ensures var r := if i < |s| - 1 then s[..|s| - 1][i := s[|s| - 1]] else s[..|s| - 1];
            forall o :: o in r <==> o in s && o != s[i]
  {}

  /** pop_best: the best object of two queues. */
  method PopBest(a: ComplexPQueue, b: ComplexPQueue, newState: int) returns (best: HeapObject?)
    requires a != b && a.Valid() && b.Valid() && a.asc == b.asc && a.Members() !! b.Members()
    modifies a`heap, b`heap, a.Members()`pos, a.Members()`queue, b.Members()`pos, b.Members()`queue
    ensures a.Valid() && b.Valid()
    ensures best == null <==> old(a.heap) == [] && old(b.heap) == []
    ensures best != null ==> best.queue == newState && (best in old(a.heap) || best in old(b.heap))
    ensures forall o :: o in a.heap <==> o in old(a.heap) && o != best
    ensures forall o :: o in b.heap <==> o in old(b.heap) && o != best
    ensures best != null ==> forall o :: o in old(a.heap) || o in old(b.heap) ==> Le(a.asc, best.priority, o.priority)
  {
    if a.heap == [] || (b.heap != [] && !Le(a.asc, a.heap[0].priority, b.heap[0].priority)) {
      if b.heap == [] {
        return null;
      }
      best := PopFrom(b, a, newState);
    } else {
      best := PopFrom(a, b, newState);
    }
  }

  // The root of a is at least as good as that of b.
  method PopFrom(a: ComplexPQueue, b: ComplexPQueue, newState: int) returns (best: HeapObject)
    requires a != b && a.Valid() && b.Valid() && a.asc == b.asc && a.Members() !! b.Members()
    requires a.heap != [] && (b.heap != [] ==> Le(a.asc, a.heap[0].priority, b.heap[0].priority))
    modifies a`heap, a.Members()`pos, a.Members()`queue
    ensures a.Valid() && b.Valid() && best == old(a.heap)[0] && best !in b.heap && best.queue == newState
    ensures forall o :: o in a.heap <==> o in old(a.heap) && o != best
    ensures forall o :: o in old(a.heap) || o in b.heap ==> Le(a.asc, best.priority, o.priority)
  {
    if b.heap != [] {
      b.AllAbove(0);
    }
    assert forall o :: o in b.heap ==> o in b.Members() && o !in a.Members();
    best := a.Pop(newState);
  }
}
