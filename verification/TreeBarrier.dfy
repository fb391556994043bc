/**
  The tree barrier: the tree that the constructor builds, and the protocol of wait.
 */
module BarrierTrees {

  // A node of the barrier tree: its parent, and the number of children it waits for.
  datatype Node = Node(parent: int, count: nat)

  // Nodes of a full tree.
  function Full(radix: nat, depth: nat): (n: nat)
    ensures n > 0
  {
    if depth == 0 then 1 else 1 + radix * Full(radix, depth - 1)
  }

  function Depth(size: nat, radix: nat): nat
    requires radix > 1
  {
    if size <= 1 then 0 else
    DivideLess(size, radix);
    1 + Depth(size / radix, radix)
  }

  lemma DivideLess(a: nat, b: nat)
    requires a > 1 && b > 1
    ensures 0 <= a / b < a
  {
    var q := a / b;
    assert a == q * b + a % b;
    TimesTwo(q, b);
  }

  lemma TimesTwo(q: nat, b: nat)
    requires b >= 2
    ensures q * 2 <= q * b
  {}

  // The children a node really has.
  function Kids(nodes: seq<Node>, p: int): nat {
    if nodes == [] then 0 else Kids(nodes[..|nodes| - 1], p) + if nodes[|nodes| - 1].parent == p then 1 else 0
  }

  lemma {:induction false} KidsAppend(a: seq<Node>, b: seq<Node>, p: int)
    ensures Kids(a + b, p) == Kids(a, p) + Kids(b, p)
  {
    if b == [] {
      assert a + b == a;
    } else {
      assert (a + b)[..|a + b| - 1] == a + b[..|b| - 1];
      KidsAppend(a, b[..|b| - 1], p);
    }
  }

  lemma {:induction false} NoKids(b: seq<Node>, p: int)
    requires forall i :: 0 <= i < |b| ==> b[i].parent != p
    ensures Kids(b, p) == 0
  {
    if b != [] {
      NoKids(b[..|b| - 1], p);
    }
  }

  lemma {:induction false} KidsRecount(nodes: seq<Node>, i: nat, n: nat, p: int)
    requires i < |nodes|
    ensures Kids(nodes[i := Node(nodes[i].parent, n)], p) == Kids(nodes, p)
  {
    var r := nodes[i := Node(nodes[i].parent, n)];
    if i < |nodes| - 1 {
      KidsRecount(nodes[..|nodes| - 1], i, n, p);
      assert r[..|r| - 1] == nodes[..|nodes| - 1][i := Node(nodes[i].parent, n)];
    } else {
      assert r[..|r| - 1] == nodes[..|nodes| - 1];
    }
  }

  // The nodes from an index on form a subtree under the parent: parents come before children and
  // every node waits for exactly its children.
  ghost predicate Subtree(nodes: seq<Node>, from: nat, parent: int) {
    && from < |nodes| && nodes[from].parent == parent
    && (forall i :: from < i < |nodes| ==> from <= nodes[i].parent < i)
    && (forall i :: from <= i < |nodes| ==> nodes[i].count == Kids(nodes, i))
  }

  function Min(a: nat, b: nat): nat {
    if a < b then a else b
  }

  // Subtrees side by side under the node at root, with the count of the root still to be set.
  ghost predicate Forest(nodes: seq<Node>, root: nat, parent: int, kids: nat) {
    && root < |nodes| && nodes[root].parent == parent && Kids(nodes, root) == kids
    && (forall i :: root < i < |nodes| ==> root <= nodes[i].parent < i)
    && (forall i :: root < i < |nodes| ==> nodes[i].count == Kids(nodes, i))
  }

  // Nodes that are not their own descendants do not count as kids of what was there.
  lemma Grown(before: seq<Node>, nodes: seq<Node>, root: nat, parent: int, kids: nat)
    requires Forest(before, root, parent, kids) && parent < root
    requires before <= nodes && Subtree(nodes, |before|, root)
    ensures Forest(nodes, root, parent, kids + 1)
  {
    var extra := nodes[|before|..];
    assert nodes == before + extra;
    forall i | root <= i < |before| ensures Kids(nodes, i) == Kids(before, i) + if i == root then 1 else 0 {
      KidsAppend(before, extra, i);
      assert extra == extra[..1] + extra[1..];
      KidsAppend(extra[..1], extra[1..], i);
      NoKids(extra[1..], i);
      assert extra[..1][..0] == [];
    }
  }

  lemma Rooted(nodes: seq<Node>, root: nat, parent: int, kids: nat)
    requires Forest(nodes, root, parent, kids) && parent < root
    ensures Subtree(nodes[root := Node(parent, kids)], root, parent)
  {
    forall i | root <= i < |nodes| ensures Kids(nodes[root := Node(parent, kids)], i) == Kids(nodes, i) {
      KidsRecount(nodes, root, kids, i);
    }
  }

  lemma Leaf(nodes: seq<Node>, parent: int, n: nat)
    requires parent < |nodes| && forall i :: 0 <= i < |nodes| ==> nodes[i].parent < i
    ensures Forest(nodes + [Node(parent, n)], |nodes|, parent, 0)
  {
    NoKids(nodes + [Node(parent, n)], |nodes|);
  }

  class TreeBuilder {
    const size: nat
    const radix: nat
    var nodes: seq<Node>

    constructor (size: nat, radix: nat)
      ensures this.size == size && this.radix == radix && nodes == []
    {
      this.size, this.radix, nodes := size, radix, [];
    }

    ghost predicate Valid()
      reads this
    {
      |nodes| <= size && forall i :: 0 <= i < |nodes| ==> nodes[i].parent < i
    }

    // build: a subtree of the depth, cut off when all ids are used.
    method Build(parent: int, depth: nat) returns (made: bool)
      requires Valid() && parent < |nodes|
      modifies this
      ensures Valid() && old(nodes) <= nodes
      ensures made <==> old(|nodes|) < size
      ensures |nodes| == Min(size, old(|nodes|) + Full(radix, depth))
      ensures !made ==> nodes == old(nodes)
      ensures made ==> Subtree(nodes, old(|nodes|), parent)
      decreases depth, 1
    {
      var id := |nodes|;
      if id == size {
        return false;
      }
      if depth == 0 {
        Leaf(nodes, parent, 0);
        nodes := nodes + [Node(parent, 0)];
        Rooted(nodes, id, parent, 0);
        assert nodes[id := Node(parent, 0)] == nodes;
      } else {
        Leaf(nodes, parent, radix);
        nodes := nodes + [Node(parent, radix)];
        var kids := BuildChildren(id, parent, depth);
        Rooted(nodes, id, parent, kids);
        assert nodes[id].count == radix;
        if kids != radix {
          nodes := nodes[id := Node(parent, kids)];
        } else {
          assert nodes[id := Node(parent, kids)] == nodes;
        }
      }
      return true;
    }

    // The loop of build over the children of the last node.
    method BuildChildren(id: nat, parent: int, depth: nat) returns (kids: nat)
      requires Valid() && |nodes| == id + 1 && parent < id && depth > 0 && Forest(nodes, id, parent, 0)
      modifies this
      ensures Valid() && old(nodes) <= nodes && Forest(nodes, id, parent, kids)
      ensures |nodes| == Min(size, id + Full(radix, depth))
      decreases depth, 0
    {
      kids := 0;
      ghost var f := Full(radix, depth - 1);
      ghost var done := 0;
      for i := 0 to radix
        invariant Valid() && old(nodes) <= nodes && Forest(nodes, id, parent, kids)
        invariant done == i * f && |nodes| == Min(size, id + 1 + done)
      {
        kids := BuildChild(id, parent, depth - 1, kids);
        OneMore(i, f);
        done := done + f;
      }
    }

    method BuildChild(id: nat, parent: int, depth: nat, kids: nat) returns (more: nat)
      requires Valid() && parent < id && Forest(nodes, id, parent, kids)
      modifies this
      ensures Valid() && old(nodes) <= nodes && Forest(nodes, id, parent, more)
      ensures |nodes| == Min(size, old(|nodes|) + Full(radix, depth))
      decreases depth, 2
    {
      ghost var before := nodes;
      var child := Build(id, depth);
      more := kids;
      if child {
        Grown(before, nodes, id, parent, kids);
        more := kids + 1;
      }
    }
  }

  lemma OneMore(i: nat, f: nat)
    ensures (i + 1) * f == i * f + f
  {}

  // A tree that spans all threads: a root, parents before children, exact counts.
  ghost predicate Spans(nodes: seq<Node>, size: nat) {
    |nodes| == size && Subtree(nodes, 0, -1)
  }

  /** The constructor of the barrier: the tree spans all threads exactly when a full tree of the
      computed depth has that many nodes. */
  method BuildTree(size: nat, radix: nat) returns (nodes: seq<Node>)
    requires size > 0 && radix > 1
    ensures Spans(nodes, size) <==> size <= Full(radix, Depth(size, radix))
    ensures nodes != [] && Subtree(nodes, 0, -1)
  {
    var depth: nat, s: nat := 0, size;
    while s > 1
      invariant depth + Depth(s, radix) == Depth(size, radix)
    {
      DivideLess(s, radix);
      depth := depth + 1;
      s := s / radix;
    }
    var b := new TreeBuilder(size, radix);
    var made := b.Build(-1, depth);
    nodes := b.nodes;
  }

  /** With two children a node, the depth is always enough. */
  lemma {:induction false} BinaryTreeSpans(size: nat)
    ensures size <= Full(2, Depth(size, 2))
  {
    if size > 1 {
      BinaryTreeSpans(size / 2);
    }
  }

  /** With three it is not: five threads get a tree of four nodes. */
  lemma TernaryTreeDoesNot()
    ensures Full(3, Depth(5, 3)) == 4
  {}
}
