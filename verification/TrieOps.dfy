/**
  Walking, inserting into and pruning the tree of a trie.

  The functions below walk a tree along the tokens of a path.  These are the tokens that the match
  stack yields one by one: Flatten pops the stack exactly as check_insert does.
 */
module TrieOps {
  import opened TrieValues
  import opened TrieTree

  datatype Option<T> = None | Some(value: T)

  // One token further along a path
  lemma PathStep(prefix: seq<Token>, toks: seq<Token>, path: seq<Token>)
    requires toks != [] && path == prefix + toks
    ensures path == prefix + [toks[0]] + toks[1..] && prefix + [toks[0]] <= path
  {}

  // ------------------------------------------------------------------ trie_node::match

  // The chain walk: the position of the first node with the data, or the length of the chain.
  function Find(cs: seq<Child>, tok: Token): (k: nat)
    ensures k <= |cs| && (k < |cs| ==> cs[k].data == tok)
    ensures forall i :: 0 <= i < k ==> cs[i].data != tok
  {
    if cs == [] || cs[0].data == tok then 0 else 1 + Find(cs[1..], tok)
  }

  function BucketOf(h: Hash, t: Tree, tok: Token): (b: nat)
    requires t.Inner? && |t.buckets| > 0
    ensures b < |t.buckets|
  {
    if t.hashed then h(tok) % |t.buckets| else 0
  }

  // The count at the end of the path, if the path is in the tree.
  function Lookup(h: Hash, t: Tree, toks: seq<Token>): Option<nat>
    decreases t
  {
    match t
    case Leaf(_, n) => if toks == [] then Some(n) else None
    case Inner(_, bs, _) =>
      if toks == [] || bs == [] then None else
      var cs := bs[BucketOf(h, t, toks[0])].nodes;
      var k := Find(cs, toks[0]);
      if k < |cs| then Lookup(h, cs[k].sub, toks[1..]) else None
  }

  // Children off the path contribute nothing to the tuple of the path.
  lemma ZeroOffPath(h: Hash, c: Child, types: seq<Type>, prefix: seq<Token>, sig: seq<Type>, tok: Token, q: Query)
    requires types != [] && ChildOk(h, c, types, prefix, sig) && c.data != tok
    requires !q.AllRefs? && TupleFits(sig, q.tuple) && prefix + [tok] <= Path(sig, q.tuple)
    ensures Count(c.sub, q) == 0
  {
    assert Path(sig, q.tuple)[|prefix|] == (prefix + [tok])[|prefix|] == tok;
    if Count(c.sub, q) > 0 {
      CountedBelow(h, c.sub, After(c.data, types[0]) + types[1..], prefix + [c.data], sig, q);
    }
  }

  lemma {:induction false} OnlyChild(cs: seq<Child>, k: nat, q: Query)
    requires forall i :: 0 <= i < |cs| && i != k ==> Count(cs[i].sub, q) == 0
    ensures CountC(cs, q) == if k < |cs| then Count(cs[k].sub, q) else 0
  {
    if cs != [] {
      if k == 0 {
        OnlyChild(cs[1..], |cs|, q);
      } else {
        OnlyChild(cs[1..], k - 1, q);
      }
    }
  }

  lemma {:induction false} OnlyBucket(bs: seq<Bucket>, b: nat, q: Query)
    requires b < |bs| && forall i :: 0 <= i < |bs| && i != b ==> CountC(bs[i].nodes, q) == 0
    ensures CountB(bs, q) == CountC(bs[b].nodes, q)
  {
    if b == 0 {
      NoBucket(bs[1..], q);
    } else {
      OnlyBucket(bs[1..], b - 1, q);
    }
  }

  lemma {:induction false} NoBucket(bs: seq<Bucket>, q: Query)
    requires forall i :: 0 <= i < |bs| ==> CountC(bs[i].nodes, q) == 0
    ensures CountB(bs, q) == 0
  {
    if bs != [] {
      NoBucket(bs[1..], q);
    }
  }

  /** At an inner node, a tuple is counted in the child that the chain walk of the selected bucket
      finds, and nowhere else. */
  lemma CountAtFound(h: Hash, t: Tree, types: seq<Type>, prefix: seq<Token>, sig: seq<Type>, tok: Token, q: Query)
    requires WF(h, t, types, prefix, sig) && t.Inner?
    requires !q.AllRefs? && TupleFits(sig, q.tuple) && prefix + [tok] <= Path(sig, q.tuple)
    ensures var cs := t.buckets[BucketOf(h, t, tok)].nodes;
            Count(t, q) == if Find(cs, tok) < |cs| then Count(cs[Find(cs, tok)].sub, q) else 0
  {
    var b := BucketOf(h, t, tok);
    var k := Find(t.buckets[b].nodes, tok);
    forall i | 0 <= i < |t.buckets| && i != b ensures CountC(t.buckets[i].nodes, q) == 0 {
      var cs := t.buckets[i].nodes;
      forall j | 0 <= j < |cs| ensures Count(cs[j].sub, q) == 0 {
        assert cs[j] in cs;
        ZeroOffPath(h, cs[j], types, prefix, sig, tok, q);
      }
      OnlyChild(cs, |cs|, q);
    }
    OnlyBucket(t.buckets, b, q);
    var cs := t.buckets[b].nodes;
    forall j | 0 <= j < |cs| && j != k ensures Count(cs[j].sub, q) == 0 {
      assert cs[j] in cs;
      ZeroOffPath(h, cs[j], types, prefix, sig, tok, q);
    }
    OnlyChild(cs, k, q);
  }

  /** Lookup is exact: the path of a tuple is found if and only if the tree has a leaf for it, and
      the count found is the number of references to the tuple. */
  lemma {:induction false} LookupExact(h: Hash, t: Tree, types: seq<Type>, prefix: seq<Token>, sig: seq<Type>, toks: seq<Token>, tup: Tuple)
    requires WF(h, t, types, prefix, sig) && TupleFits(sig, tup) && Path(sig, tup) == prefix + toks
    ensures Count(t, SlotsOf(tup)) == if Lookup(h, t, toks).Some? then 1 else 0
    ensures Count(t, RefsOf(tup)) == if Lookup(h, t, toks).Some? then Lookup(h, t, toks).value else 0
    decreases t
  {
    match t
    case Leaf(x, n) =>
      assert toks == [] ==> prefix + toks == prefix;
      PathIdentifiesTuple(sig, x, tup);
    case Inner(_, bs, _) =>
      if toks == [] {
        NoStopAtInner(h, t, types, prefix, sig, SlotsOf(tup));
        NoStopAtInner(h, t, types, prefix, sig, RefsOf(tup));
      } else {
        var tok := toks[0];
        PathStep(prefix, toks, Path(sig, tup));
        CountAtFound(h, t, types, prefix, sig, tok, SlotsOf(tup));
        CountAtFound(h, t, types, prefix, sig, tok, RefsOf(tup));
        var cs := bs[BucketOf(h, t, tok)].nodes;
        var k := Find(cs, tok);
        if k < |cs| {
          var c := cs[k];
          assert c in cs && ChildOk(h, c, types, prefix, sig);
          LookupExact(h, c.sub, After(tok, types[0]) + types[1..], prefix + [tok], sig, toks[1..], tup);
        }
      }
  }

  // A path does not end at an inner node.
  lemma NoStopAtInner(h: Hash, t: Tree, types: seq<Type>, prefix: seq<Token>, sig: seq<Type>, q: Query)
    requires WF(h, t, types, prefix, sig) && t.Inner? && !q.AllRefs?
    requires TupleFits(sig, q.tuple) && Path(sig, q.tuple) == prefix
    ensures Count(t, q) == 0
  {
    if Count(t, q) > 0 {
      var b, k := CountedInBucket(t.buckets, q);
      var c := t.buckets[b].nodes[k];
      assert c in t.buckets[b].nodes && ChildOk(h, c, types, prefix, sig);
      CountedBelow(h, c.sub, After(c.data, types[0]) + types[1..], prefix + [c.data], sig, q);
    }
  }

  // ------------------------------------------------------------------ changing a count

  // add_new and sub on the leaf at the end of the path
  function SetCount(h: Hash, t: Tree, toks: seq<Token>, n: nat): Tree
    requires Lookup(h, t, toks).Some?
    decreases t
  {
    match t
    case Leaf(x, _) => Leaf(x, n)
    case Inner(hashed, bs, total) =>
      var b := BucketOf(h, t, toks[0]);
      var k := Find(bs[b].nodes, toks[0]);
      var c := bs[b].nodes[k];
      Inner(hashed, Replace(bs, b, k, Child(c.data, SetCount(h, c.sub, toks[1..], n))), total)
  }

  lemma ReplacedNode(bs: seq<Bucket>, b: nat, k: nat, c: Child, i: nat, d: Child)
    requires b < |bs| && k < |bs[b].nodes| && i < |bs| && d in Replace(bs, b, k, c)[i].nodes
    ensures (i == b && d == c) || d in bs[i].nodes
  {}

  // Replacing the subtree of one child by another well-formed one.
  lemma ReplaceWF(h: Hash, t: Tree, types: seq<Type>, prefix: seq<Token>, sig: seq<Type>, b: nat, k: nat, c: Child)
    requires WF(h, t, types, prefix, sig) && t.Inner? && b < |t.buckets| && k < |t.buckets[b].nodes|
    requires c.data == t.buckets[b].nodes[k].data && ChildOk(h, c, types, prefix, sig)
    ensures var r := t.(buckets := Replace(t.buckets, b, k, c)); WF(h, r, types, prefix, sig) && Alive(r)
  {
    var bs, bs' := t.buckets, Replace(t.buckets, b, k, c);
    CountReplace(bs, b, k, c, AllRefs);
    assert bs[b].nodes[k] in bs[b].nodes;
    forall i, d | 0 <= i < |bs'| && d in bs'[i].nodes
      ensures ChildOk(h, d, types, prefix, sig) && (t.hashed ==> h(d.data) % |bs'| == i)
    {
      ReplacedNode(bs, b, k, c, i, d);
    }
    forall i | 0 <= i < |bs'| ensures Distinct(bs'[i].nodes) {
      assert Distinct(bs[i].nodes);
    }
    assert bs'[b].nodes != [];
  }

  lemma {:induction false} SetCountWF(h: Hash, t: Tree, types: seq<Type>, prefix: seq<Token>, sig: seq<Type>, toks: seq<Token>, n: nat)
    requires WF(h, t, types, prefix, sig) && Lookup(h, t, toks).Some?
    ensures var r := SetCount(h, t, toks, n); WF(h, r, types, prefix, sig) && Alive(r)
    decreases t
  {
    match t
    case Leaf(_, _) =>
    case Inner(_, bs, _) =>
      var tok := toks[0];
      var b := BucketOf(h, t, tok);
      var k := Find(bs[b].nodes, tok);
      var c := bs[b].nodes[k];
      assert c in bs[b].nodes && ChildOk(h, c, types, prefix, sig);
      SetCountWF(h, c.sub, After(tok, types[0]) + types[1..], prefix + [tok], sig, toks[1..], n);
      ReplaceWF(h, t, types, prefix, sig, b, k, Child(c.data, SetCount(h, c.sub, toks[1..], n)));
  }

  /** Changing the count at the end of a path changes the references of that one tuple. */
  lemma {:induction false} SetCountOk(h: Hash, t: Tree, types: seq<Type>, prefix: seq<Token>, sig: seq<Type>,
                                      toks: seq<Token>, tup: Tuple, n: nat, q: Query)
    requires WF(h, t, types, prefix, sig) && TupleFits(sig, tup) && Path(sig, tup) == prefix + toks
    requires Lookup(h, t, toks).Some?
    ensures Count(SetCount(h, t, toks, n), q) ==
              match q
              case SlotsOf(_) => Count(t, q)
              case RefsOf(x) => if x == tup then n else Count(t, q)
              case AllRefs => Count(t, q) - Lookup(h, t, toks).value + n
    decreases t
  {
    match t
    case Leaf(x, _) =>
      assert prefix + toks == prefix;
      PathIdentifiesTuple(sig, x, tup);
    case Inner(_, bs, _) =>
      var tok := toks[0];
      var b := BucketOf(h, t, tok);
      var k := Find(bs[b].nodes, tok);
      var c := bs[b].nodes[k];
      assert c in bs[b].nodes && ChildOk(h, c, types, prefix, sig);
      PathStep(prefix, toks, Path(sig, tup));
      SetCountOk(h, c.sub, After(tok, types[0]) + types[1..], prefix + [tok], sig, toks[1..], tup, n, q);
      CountReplace(bs, b, k, Child(c.data, SetCount(h, c.sub, toks[1..], n)), q);
      if q.RefsOf? && q.tuple == tup {
        CountAtFound(h, t, types, prefix, sig, tok, q);
      }
  }
}
