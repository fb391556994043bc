/**
  The tree of a trie: chains of children that turn into hash buckets, leaves with reference counts,
  and the operations that walk it along the path of a tuple.
 */
module TrieTree {
  import opened TrieValues

  const TRIE_HASH_LIST_THRESHOLD := 8
  const TRIE_HASH_BASE_BUCKETS := 64

  // An inner node has one chain of children, or one chain per hash bucket.
  datatype Tree =
    | Leaf(tuple: Tuple, count: nat)
    | Inner(hashed: bool, buckets: seq<Bucket>, total: nat)

  datatype Child = Child(data: Token, sub: Tree)

  datatype Bucket = Bucket(nodes: seq<Child>)

  type Hash = Token -> nat

  const EMPTY: Tree := Inner(false, [Bucket([])], 0)

  // ------------------------------------------------------------------ what a tree holds

  // What can be counted in a tree: leaves of a tuple, references to it, all references.
  datatype Query = SlotsOf(tuple: Tuple) | RefsOf(tuple: Tuple) | AllRefs

  function Count(t: Tree, q: Query): nat
    decreases t, 1
  {
    match t
    case Leaf(tup, n) =>
      (match q
       case SlotsOf(x) => if x == tup then 1 else 0
       case RefsOf(x) => if x == tup then n else 0
       case AllRefs => n)
    case Inner(_, bs, _) => CountB(bs, q)
  }

  function CountB(bs: seq<Bucket>, q: Query): nat
    decreases bs, 0
  {
    if bs == [] then 0 else CountC(bs[0].nodes, q) + CountB(bs[1..], q)
  }

  function CountC(cs: seq<Child>, q: Query): nat
    decreases cs, 0
  {
    if cs == [] then 0 else
    var c := cs[0];
    assert c in cs && c.sub < c;
    Count(c.sub, q) + CountC(cs[1..], q)
  }

  function Flat(bs: seq<Bucket>): seq<Child> {
    if bs == [] then [] else bs[0].nodes + Flat(bs[1..])
  }

  lemma {:induction false} CountAppend(a: seq<Child>, b: seq<Child>, q: Query)
    ensures CountC(a + b, q) == CountC(a, q) + CountC(b, q)
  {
    if a == [] {
      assert a + b == b;
    } else {
      assert (a + b)[1..] == a[1..] + b;
      CountAppend(a[1..], b, q);
    }
  }

  lemma {:induction false} CountFlat(bs: seq<Bucket>, q: Query)
    ensures CountC(Flat(bs), q) == CountB(bs, q)
  {
    if bs != [] {
      CountAppend(bs[0].nodes, Flat(bs[1..]), q);
      CountFlat(bs[1..], q);
    }
  }

  // Replacing one bucket.
  lemma {:induction false} CountBucket(bs: seq<Bucket>, b: nat, cs: seq<Child>, q: Query)
    requires b < |bs|
    ensures CountC(bs[b].nodes, q) <= CountB(bs, q)
    ensures CountB(bs[b := Bucket(cs)], q) == CountB(bs, q) - CountC(bs[b].nodes, q) + CountC(cs, q)
    ensures |Flat(bs[b := Bucket(cs)])| == |Flat(bs)| - |bs[b].nodes| + |cs|
  {
    if b == 0 {
      assert bs[0 := Bucket(cs)][1..] == bs[1..];
    } else {
      CountBucket(bs[1..], b - 1, cs, q);
      assert bs[b := Bucket(cs)][1..] == bs[1..][b - 1 := Bucket(cs)];
    }
  }

  lemma CountSplit(cs: seq<Child>, k: nat, q: Query)
    requires k < |cs|
    ensures CountC(cs, q) == CountC(cs[..k], q) + Count(cs[k].sub, q) + CountC(cs[k + 1..], q)
  {
    assert cs == cs[..k] + cs[k..] && cs[k..][1..] == cs[k + 1..];
    CountAppend(cs[..k], cs[k..], q);
  }

  function Replace(bs: seq<Bucket>, b: nat, k: nat, c: Child): seq<Bucket>
    requires b < |bs| && k < |bs[b].nodes|
  {
    bs[b := Bucket(bs[b].nodes[k := c])]
  }

  function Remove(bs: seq<Bucket>, b: nat, k: nat): seq<Bucket>
    requires b < |bs| && k < |bs[b].nodes|
  {
    bs[b := Bucket(bs[b].nodes[..k] + bs[b].nodes[k + 1..])]
  }

  function Add(bs: seq<Bucket>, b: nat, c: Child): seq<Bucket>
    requires b < |bs|
  {
    bs[b := Bucket([c] + bs[b].nodes)]
  }

  lemma CountReplace(bs: seq<Bucket>, b: nat, k: nat, c: Child, q: Query)
    requires b < |bs| && k < |bs[b].nodes|
    ensures Count(bs[b].nodes[k].sub, q) <= CountB(bs, q)
    ensures CountB(Replace(bs, b, k, c), q) == CountB(bs, q) - Count(bs[b].nodes[k].sub, q) + Count(c.sub, q)
    ensures |Flat(Replace(bs, b, k, c))| == |Flat(bs)|
  {
    var cs := bs[b].nodes;
    CountBucket(bs, b, cs[k := c], q);
    CountSplit(cs, k, q);
    CountSplit(cs[k := c], k, q);
    assert cs[k := c][..k] == cs[..k] && cs[k := c][k + 1..] == cs[k + 1..];
  }

  lemma CountRemove(bs: seq<Bucket>, b: nat, k: nat, q: Query)
    requires b < |bs| && k < |bs[b].nodes|
    ensures Count(bs[b].nodes[k].sub, q) <= CountB(bs, q)
    ensures CountB(Remove(bs, b, k), q) == CountB(bs, q) - Count(bs[b].nodes[k].sub, q)
    ensures |Flat(Remove(bs, b, k))| == |Flat(bs)| - 1
  {
    var cs := bs[b].nodes;
    CountBucket(bs, b, cs[..k] + cs[k + 1..], q);
    CountSplit(cs, k, q);
    CountAppend(cs[..k], cs[k + 1..], q);
  }

  lemma CountAdd(bs: seq<Bucket>, b: nat, c: Child, q: Query)
    requires b < |bs|
    ensures CountB(Add(bs, b, c), q) == CountB(bs, q) + Count(c.sub, q)
    ensures |Flat(Add(bs, b, c))| == |Flat(bs)| + 1
  {
    CountBucket(bs, b, [c] + bs[b].nodes, q);
    assert ([c] + bs[b].nodes)[1..] == bs[b].nodes;
  }

  // Where something that is counted sits.
  lemma {:induction false} CountedInChild(cs: seq<Child>, q: Query) returns (k: nat)
    requires CountC(cs, q) > 0
    ensures k < |cs| && Count(cs[k].sub, q) > 0
  {
    if Count(cs[0].sub, q) > 0 {
      k := 0;
    } else {
      k := CountedInChild(cs[1..], q);
      k := k + 1;
    }
  }

  lemma {:induction false} CountedInBucket(bs: seq<Bucket>, q: Query) returns (b: nat, k: nat)
    requires CountB(bs, q) > 0
    ensures b < |bs| && k < |bs[b].nodes| && Count(bs[b].nodes[k].sub, q) > 0
  {
    if CountC(bs[0].nodes, q) > 0 {
      b := 0;
      k := CountedInChild(bs[0].nodes, q);
    } else {
      b, k := CountedInBucket(bs[1..], q);
      b := b + 1;
    }
  }

  // ------------------------------------------------------------------ well-formed trees

  // Interior nodes below the root lead to something.
  predicate Alive(t: Tree) {
    t.Leaf? || exists b :: 0 <= b < |t.buckets| && t.buckets[b].nodes != []
  }

  ghost predicate ChildOk(h: Hash, c: Child, types: seq<Type>, prefix: seq<Token>, sig: seq<Type>)
    requires types != []
    decreases c, 0
  {
    && TokenFits(c.data, types[0])
    && Alive(c.sub)
    && WF(h, c.sub, After(c.data, types[0]) + types[1..], prefix + [c.data], sig)
  }

  predicate Distinct(cs: seq<Child>) {
    forall i, j :: 0 <= i < j < |cs| ==> cs[i].data != cs[j].data
  }

  // Every child is in the bucket its hash selects.
  ghost predicate InPlace(h: Hash, bs: seq<Bucket>) {
    forall b, c :: 0 <= b < |bs| && c in bs[b].nodes ==> h(c.data) % |bs| == b
  }

  // The types convert_hash and expand accept; lists are accepted too but never grow that far.
  predicate Scalar(ty: Type) {
    ty.TInt? || ty.TFloat? || ty.TNode?
  }

  // types: the types still on the stack; prefix: the path walked so far; sig: the predicate.
  ghost predicate WF(h: Hash, t: Tree, types: seq<Type>, prefix: seq<Token>, sig: seq<Type>)
    decreases t, 1
  {
    match t
    case Leaf(tup, n) => types == [] && TupleFits(sig, tup) && Path(sig, tup) == prefix
    case Inner(hashed, bs, total) =>
      && types != []
      && |bs| > 0
      && (if hashed then Scalar(types[0]) && total == |Flat(bs)| && InPlace(h, bs)
          else |bs| == 1 && |bs[0].nodes| <= TRIE_HASH_LIST_THRESHOLD)
      && (forall b :: 0 <= b < |bs| ==> Distinct(bs[b].nodes))
      && (forall b, c :: 0 <= b < |bs| && c in bs[b].nodes ==> ChildOk(h, c, types, prefix, sig))
  }

  /** Everything below a node belongs to tuples whose path starts with the path of the node. */
  lemma {:induction false} CountedBelow(h: Hash, t: Tree, types: seq<Type>, prefix: seq<Token>, sig: seq<Type>, q: Query)
    requires WF(h, t, types, prefix, sig) && !q.AllRefs? && Count(t, q) > 0
    ensures TupleFits(sig, q.tuple) && prefix <= Path(sig, q.tuple)
    decreases t
  {
    if t.Inner? {
      var b, k := CountedInBucket(t.buckets, q);
      var c := t.buckets[b].nodes[k];
      assert c in t.buckets[b].nodes && ChildOk(h, c, types, prefix, sig);
      CountedBelow(h, c.sub, After(c.data, types[0]) + types[1..], prefix + [c.data], sig, q);
    }
  }
}
