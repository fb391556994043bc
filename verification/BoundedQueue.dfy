/**
  The bounded priority queue: one queue for each priority at the leaves of a full binary tree, whose
  inner nodes count the items to their left.
 */
module BoundedQueues {

  datatype QTree<T> = Bin(items: seq<T>) | Fork(counter: nat, left: QTree<T>, right: QTree<T>)

  function Power2(n: nat): (p: nat)
    ensures p > 0
  {
    if n == 0 then 1 else 2 * Power2(n - 1)
  }

  // next_power2
  method NextPower2(val: nat) returns (p: nat, ghost n: nat)
    ensures p == Power2(n) && p >= val && (n > 0 ==> Power2(n - 1) < val)
  {
    p, n := 1, 0;
    while p < val
      invariant p == Power2(n) && (n > 0 ==> Power2(n - 1) < val)
    {
      p, n := 2 * p, n + 1;
    }
  }

  // upper_log2
  method UpperLog2(n: nat) returns (i: nat)
    requires n > 0
    ensures Power2(i) >= n && (i > 0 ==> Power2(i - 1) < n)
  {
    i := 0;
    var m := 1;
    while m < n
      invariant m == Power2(i) && (i > 0 ==> Power2(i - 1) < n)
    {
      m, i := 2 * m, i + 1;
    }
  }

  lemma {:induction false} PowerGrows(a: nat, b: nat)
    requires a < b
    ensures Power2(a) < Power2(b) && 2 * Power2(a) <= Power2(b)
  {
    if a + 1 < b {
      PowerGrows(a, b - 1);
    }
  }

  // The power and its logarithm belong together.
  lemma LogOfPower(n: nat, i: nat)
    requires Power2(i) >= Power2(n) && (i > 0 ==> Power2(i - 1) < Power2(n))
    ensures i == n
  {
    if i < n {
      PowerGrows(i, n);
    } else if i > n + 1 {
      PowerGrows(n, i - 1);
    }
  }

  // ------------------------------------------------------------------ the tree

  // The queues at the leaves, by priority.
  function Bins<T>(t: QTree<T>): (r: seq<seq<T>>)
    ensures |r| > 0
  {
    match t
    case Bin(items) => [items]
    case Fork(_, l, r) => Bins(l) + Bins(r)
  }

  function Total<T>(bins: seq<seq<T>>): nat {
    if bins == [] then 0 else |bins[0]| + Total(bins[1..])
  }

  // A full tree of the height in which every counter is the number of items to its left.
  predicate Counted<T>(t: QTree<T>, height: nat) {
    match t
    case Bin(_) => height == 0
    case Fork(c, l, r) => height > 0 && Counted(l, height - 1) && Counted(r, height - 1) && c == Total(Bins(l))
  }

  lemma {:induction false} BinsSize<T>(t: QTree<T>, height: nat)
    requires Counted(t, height)
    ensures |Bins(t)| == Power2(height)
  {
    if t.Fork? {
      BinsSize(t.left, height - 1);
      BinsSize(t.right, height - 1);
    }
  }

  lemma {:induction false} TotalAppend<T>(a: seq<seq<T>>, b: seq<seq<T>>)
    ensures Total(a + b) == Total(a) + Total(b)
  {
    if a == [] {
      assert a + b == b;
    } else {
      assert (a + b)[1..] == a[1..] + b;
      TotalAppend(a[1..], b);
    }
  }

  lemma {:induction false} TotalSet<T>(bins: seq<seq<T>>, i: nat, q: seq<T>)
    requires i < |bins|
    ensures Total(bins[i := q]) == Total(bins) - |bins[i]| + |q|
  {
    if i == 0 {
      assert bins[0 := q][1..] == bins[1..];
    } else {
      TotalSet(bins[1..], i - 1, q);
      assert bins[i := q][1..] == bins[1..][i - 1 := q];
    }
  }

  // build_tree
  function Build<T>(height: nat): QTree<T> {
    if height == 0 then Bin([]) else Fork(0, Build(height - 1), Build(height - 1))
  }

  lemma {:induction false} BuildOk<T>(height: nat)
    ensures Counted(Build<T>(height), height) && Total(Bins(Build<T>(height))) == 0
    ensures forall i :: 0 <= i < |Bins(Build<T>(height))| ==> Bins(Build<T>(height))[i] == []
  {
    if height > 0 {
      BuildOk<T>(height - 1);
      TotalAppend(Bins(Build<T>(height - 1)), Bins(Build<T>(height - 1)));
    } else {
      assert Bins(Build<T>(0)) == [[]];
    }
  }

  // push and push_queue: counters go up on the way from the leaf when it is to the left.
  function Pushed<T>(t: QTree<T>, height: nat, prio: nat, q: seq<T>): QTree<T>
    decreases t
  {
    match t
    case Bin(items) => Bin(items + q)
    case Fork(c, l, r) =>
      if height == 0 then t
      else if prio < Power2(height - 1) then Fork(c + |q|, Pushed(l, height - 1, prio, q), r)
      else Fork(c, l, Pushed(r, height - 1, prio - Power2(height - 1), q))
  }

  /** A push appends to the queue of its priority and keeps all counters exact. */
  lemma {:induction false} PushOk<T>(t: QTree<T>, height: nat, prio: nat, q: seq<T>)
    requires Counted(t, height) && prio < |Bins(t)|
    ensures var r := Pushed(t, height, prio, q); Counted(r, height) && Bins(r) == Bins(t)[prio := Bins(t)[prio] + q]
    decreases t
  {
    if t.Fork? {
      BinsSize(t.left, height - 1);
      if prio < Power2(height - 1) {
        PushOk(t.left, height - 1, prio, q);
        TotalSet(Bins(t.left), prio, Bins(t.left)[prio] + q);
      } else {
        PushOk(t.right, height - 1, prio - Power2(height - 1), q);
      }
    }
  }

  // The walk of top, top_list and pop: left where there are items, and right otherwise.
  function Best<T>(t: QTree<T>): (i: nat)
    ensures i < |Bins(t)|
  {
    match t
    case Bin(_) => 0
    case Fork(c, l, r) => if c > 0 then Best(l) else |Bins(l)| + Best(r)
  }

  /** The walk ends at the smallest priority that has items. */
  lemma {:induction false} BestIsFirst<T>(t: QTree<T>, height: nat)
    requires Counted(t, height) && Total(Bins(t)) > 0
    ensures Bins(t)[Best(t)] != [] && forall i :: 0 <= i < Best(t) ==> Bins(t)[i] == []
    decreases t
  {
    match t
    case Bin(items) => assert [items][1..] == [];
    case Fork(c, l, r) =>
      TotalAppend(Bins(l), Bins(r));
      if c > 0 {
        BestIsFirst(l, height - 1);
      } else {
        TotalZero(Bins(l));
        BestIsFirst(r, height - 1);
      }
  }

  lemma {:induction false} TotalZero<T>(bins: seq<seq<T>>)
    requires Total(bins) == 0
    ensures forall i :: 0 <= i < |bins| ==> bins[i] == []
  {
    if bins != [] {
      TotalZero(bins[1..]);
      forall i | 0 < i < |bins| ensures bins[i] == [] {
        assert bins[i] == bins[1..][i - 1];
      }
    }
  }

  // The counters are of type size_t, whose subtraction wraps around.
  const SIZES: nat := 0x1_0000_0000_0000_0000

  function Less(a: nat, b: nat): nat {
    if b <= a then a - b else (a - b) % SIZES
  }

  // pop and top_list: the first n items of the best queue leave, and the counters go down by size.
  function Drop<T>(t: QTree<T>, n: nat, size: nat): QTree<T> {
    match t
    case Bin(items) => if n <= |items| then Bin(items[n..]) else t
    case Fork(c, l, r) =>
      if c > 0 then Fork(Less(c, size), Drop(l, n, size), r) else Fork(c, l, Drop(r, n, size))
  }

  /** The counters stay exact when they go down by what has left. */
  lemma {:induction false} DropOk<T>(t: QTree<T>, height: nat, n: nat)
    requires Counted(t, height) && n <= |Bins(t)[Best(t)]|
    ensures var r := Drop(t, n, n); Counted(r, height) && Bins(r) == Bins(t)[Best(t) := Bins(t)[Best(t)][n..]]
    decreases t
  {
    if t.Fork? {
      if t.counter > 0 {
        DropOk(t.left, height - 1, n);
        TotalSet(Bins(t.left), Best(t.left), Bins(t.left)[Best(t.left)][n..]);
        BinBound(Bins(t.left), Best(t.left));
      } else {
        DropOk(t.right, height - 1, n);
      }
    }
  }

  // What leaves does not depend on what the counters lose.
  lemma {:induction false} DropBins<T>(t: QTree<T>, n: nat, size: nat)
    ensures Bins(Drop(t, n, size)) == Bins(Drop(t, n, n))
  {
    if t.Fork? {
      DropBins(t.left, n, size);
      DropBins(t.right, n, size);
    }
  }

  lemma LessIsExact(a: nat, n: nat, more: nat)
    requires n <= a && more < SIZES
    ensures Less(a, n + more) == a - n <==> more == 0
  {
    var x := a - n - more;
    if x < 0 {
      assert x / SIZES <= -1 && x % SIZES == x - SIZES * (x / SIZES);
    }
  }

  lemma {:induction false} BinBound<T>(bins: seq<seq<T>>, i: nat)
    requires i < |bins|
    ensures |bins[i]| <= Total(bins)
  {
    if i > 0 {
      BinBound(bins[1..], i - 1);
    }
  }

  class BoundedPQueue<T(0)> {
    const height: nat
    const range: nat
    var root: QTree<T>
    var total: nat

    ghost function Contents(): (b: seq<seq<T>>)
      reads this
      ensures |b| > 0
    {
      Bins(root)
    }

    ghost predicate Valid()
      reads this
    {
      && Counted(root, height) && total == Total(Bins(root))
      && range <= |Bins(root)|
    }

    constructor (range: nat)
      requires range > 0
      ensures Valid() && this.range == range && range <= |Contents()| && total == 0
      ensures forall i :: 0 <= i < |Contents()| ==> Contents()[i] == []
    {
      var leaves, n := NextPower2(range);
      var h := UpperLog2(leaves);
      LogOfPower(n, h);
      BuildOk<T>(h);
      BinsSize(Build<T>(h), h);
      this.range, height, root, total := range, h, Build<T>(h), 0;
    }

    method Push(item: T, prio: nat)
      requires Valid() && prio < |Contents()|
      modifies this
      ensures Valid() && total == old(total) + 1
      ensures Contents() == old(Contents())[prio := old(Contents())[prio] + [item]]
    {
      PushQueue([item], prio);
    }

    method PushQueue(q: seq<T>, prio: nat)
      requires Valid() && prio < |Contents()|
      modifies this
      ensures Valid() && total == old(total) + |q|
      ensures Contents() == old(Contents())[prio := old(Contents())[prio] + q]
    {
      PushOk(root, height, prio, q);
      TotalSet(Bins(root), prio, Bins(root)[prio] + q);
      root := Pushed(root, height, prio, q);
      total := total + |q|;
    }

    // The smallest priority with items; ghost, to say which queue pop and top_list take from.
    ghost predicate IsFirst(bins: seq<seq<T>>, i: nat) {
      i < |bins| && bins[i] != [] && forall j :: 0 <= j < i ==> bins[j] == []
    }

    method Pop() returns (item: T, ghost prio: nat)
      requires Valid() && total > 0
      modifies this
      ensures Valid() && total == old(total) - 1 && IsFirst(old(Contents()), prio)
      ensures item == old(Contents())[prio][0] && Contents() == old(Contents())[prio := old(Contents())[prio][1..]]
    {
      BestIsFirst(root, height);
      prio := Best(root);
      item := Bins(root)[Best(root)][0];
      DropOk(root, height, 1);
      TotalSet(Bins(root), Best(root), Bins(root)[Best(root)][1..]);
      root := Drop(root, 1, 1);
      total := total - 1;
    }

    // Everything of the first priority goes behind the caller's list.  The counters lose the size of
    // the whole list.
    method TopList(vec: seq<T>) returns (vec': seq<T>, ghost prio: nat)
      requires Valid() && |vec| < SIZES
      modifies this
      ensures Valid() <==> old(total) == 0 || vec == []
      ensures old(total) == 0 ==> vec' == vec && total == 0 && Contents() == old(Contents())
      ensures old(total) > 0 ==> IsFirst(old(Contents()), prio) && vec' == vec + old(Contents())[prio]
                                 && total == Less(old(total), |vec'|) && Contents() == old(Contents())[prio := []]
    {
      vec', prio := vec, 0;
      if total == 0 {
        return;
      }
      BestIsFirst(root, height);
      prio := Best(root);
      var items := Bins(root)[Best(root)];
      vec' := vec + items;
      DropOk(root, height, |items|);
      DropBins(root, |items|, |vec'|);
      assert items[|items|..] == [];
      BinBound(Bins(root), prio);
      TotalSet(Bins(root), prio, []);
      LessIsExact(total, |items|, |vec|);
      root := Drop(root, |items|, |vec'|);
      total := Less(total, |vec'|);
    }
  }
}
