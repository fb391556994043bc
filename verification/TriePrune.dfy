/**
  Cutting a branch out of the tree of a trie, together with every interior node that led to this
  branch alone.
 */
module TriePrune {
  import opened TrieValues
  import opened TrieTree
  import opened TrieOps

  // The node at the end of a path.
  function At(h: Hash, t: Tree, toks: seq<Token>): Option<Tree>
    decreases t
  {
    if toks == [] then Some(t) else
    match t
    case Leaf(_, _) => None
    case Inner(_, bs, _) =>
      if bs == [] then None else
      var cs := bs[BucketOf(h, t, toks[0])].nodes;
      var k := Find(cs, toks[0]);
      if k < |cs| then At(h, cs[k].sub, toks[1..]) else None
  }

  // What delete_branch returns for the node at the end of the path, seen through any query.
  function CountAt(h: Hash, t: Tree, toks: seq<Token>, q: Query): nat {
    match At(h, t, toks)
    case None => 0
    case Some(s) => Count(s, q)
  }

  // delete_branch and delete_path: the node itself goes when it has nothing left.
  function CutAt(h: Hash, t: Tree, toks: seq<Token>): Option<Tree>
    decreases t
  {
    if toks == [] then None else
    match t
    case Leaf(_, _) => Some(t)
    case Inner(hashed, bs, total) =>
      if bs == [] then Some(t) else
      var b := BucketOf(h, t, toks[0]);
      var k := Find(bs[b].nodes, toks[0]);
      if k == |bs[b].nodes| then Some(t) else
      var c := bs[b].nodes[k];
      match CutAt(h, c.sub, toks[1..])
      case Some(s) => Some(Inner(hashed, Replace(bs, b, k, Child(c.data, s)), total))
      case None => Unlink(t, b, k)
  }

  // One call of delete_path on a child of t.
  function Unlink(t: Tree, b: nat, k: nat): Option<Tree>
    requires t.Inner? && b < |t.buckets| && k < |t.buckets[b].nodes|
  {
    var bs := Remove(t.buckets, b, k);
    if t.hashed then
      (if t.total <= 1 then None else Some(Inner(true, bs, t.total - 1)))
    else
      (if bs[b].nodes == [] then None else Some(Inner(false, bs, t.total)))
  }

  function CountIn(t: Option<Tree>, q: Query): nat {
    if t.Some? then Count(t.value, q) else 0
  }

  lemma {:induction false} NoNodes(bs: seq<Bucket>, q: Query)
    requires |Flat(bs)| == 0
    ensures CountB(bs, q) == 0
  {
    if bs != [] {
      assert Flat(bs) == bs[0].nodes + Flat(bs[1..]);
      NoNodes(bs[1..], q);
    }
  }

  lemma {:induction false} SomeNode(bs: seq<Bucket>)
    requires |Flat(bs)| > 0
    ensures exists b :: 0 <= b < |bs| && bs[b].nodes != []
  {
    if bs[0].nodes == [] {
      SomeNode(bs[1..]);
      var b :| 0 <= b < |bs[1..]| && bs[1..][b].nodes != [];
      assert bs[b + 1].nodes != [];
    }
  }

  // Unlinking a child takes away what the child holds, and nothing else.
  lemma UnlinkCount(h: Hash, t: Tree, types: seq<Type>, prefix: seq<Token>, sig: seq<Type>, b: nat, k: nat, q: Query)
    requires WF(h, t, types, prefix, sig) && t.Inner? && b < |t.buckets| && k < |t.buckets[b].nodes|
    ensures CountIn(Unlink(t, b, k), q) == Count(t, q) - Count(t.buckets[b].nodes[k].sub, q)
  {
    var bs := Remove(t.buckets, b, k);
    CountRemove(t.buckets, b, k, q);
    if Unlink(t, b, k).None? {
      if !t.hashed {
        assert bs[1..] == [] && Flat(bs) == bs[0].nodes + Flat([]);
      }
      NoNodes(bs, q);
    }
  }

  lemma UnlinkWF(h: Hash, t: Tree, types: seq<Type>, prefix: seq<Token>, sig: seq<Type>, b: nat, k: nat)
    requires WF(h, t, types, prefix, sig) && t.Inner? && b < |t.buckets| && k < |t.buckets[b].nodes|
    ensures var r := Unlink(t, b, k); r.Some? ==> WF(h, r.value, types, prefix, sig) && Alive(r.value)
  {
    var bs := Remove(t.buckets, b, k);
    CountRemove(t.buckets, b, k, AllRefs);
    forall i, d | 0 <= i < |bs| && d in bs[i].nodes ensures d in t.buckets[i].nodes {}
    assert Distinct(bs[b].nodes);
    if t.hashed && t.total > 1 {
      SomeNode(bs);
    }
  }

  /** Cutting takes exactly what is below the end of the path. */
  lemma {:induction false} CutCount(h: Hash, t: Tree, types: seq<Type>, prefix: seq<Token>, sig: seq<Type>, toks: seq<Token>, q: Query)
    requires WF(h, t, types, prefix, sig)
    ensures CountIn(CutAt(h, t, toks), q) == Count(t, q) - CountAt(h, t, toks, q)
    decreases t
  {
    if toks != [] && t.Inner? {
      var bs := t.buckets;
      var b := BucketOf(h, t, toks[0]);
      var k := Find(bs[b].nodes, toks[0]);
      if k < |bs[b].nodes| {
        var c := bs[b].nodes[k];
        assert c in bs[b].nodes && ChildOk(h, c, types, prefix, sig);
        CutCount(h, c.sub, After(c.data, types[0]) + types[1..], prefix + [c.data], sig, toks[1..], q);
        match CutAt(h, c.sub, toks[1..])
        case Some(s) => CountReplace(bs, b, k, Child(c.data, s), q);
        case None => UnlinkCount(h, t, types, prefix, sig, b, k, q);
      }
    }
  }

  /** Cutting leaves a well-formed tree without dead interior nodes. */
  lemma {:induction false} CutWF(h: Hash, t: Tree, types: seq<Type>, prefix: seq<Token>, sig: seq<Type>, toks: seq<Token>)
    requires WF(h, t, types, prefix, sig)
    ensures var r := CutAt(h, t, toks); r.Some? ==> WF(h, r.value, types, prefix, sig) && (Alive(t) ==> Alive(r.value))
    decreases t
  {
    if toks != [] && t.Inner? {
      var bs := t.buckets;
      var b := BucketOf(h, t, toks[0]);
      var k := Find(bs[b].nodes, toks[0]);
      if k < |bs[b].nodes| {
        var c := bs[b].nodes[k];
        assert c in bs[b].nodes && ChildOk(h, c, types, prefix, sig);
        CutWF(h, c.sub, After(c.data, types[0]) + types[1..], prefix + [c.data], sig, toks[1..]);
        match CutAt(h, c.sub, toks[1..])
        case Some(s) => ReplaceWF(h, t, types, prefix, sig, b, k, Child(c.data, s));
        case None => UnlinkWF(h, t, types, prefix, sig, b, k);
      }
    }
  }

  /** What is below the end of a path are the tuples whose path goes on from there. */
  lemma {:induction false} CountAtExact(h: Hash, t: Tree, types: seq<Type>, prefix: seq<Token>, sig: seq<Type>, toks: seq<Token>, q: Query)
    requires WF(h, t, types, prefix, sig) && !q.AllRefs? && TupleFits(sig, q.tuple)
    ensures CountAt(h, t, toks, q) == if prefix + toks <= Path(sig, q.tuple) then Count(t, q) else 0
    decreases t
  {
    if toks == [] {
      assert prefix + toks == prefix;
      if Count(t, q) > 0 {
        CountedBelow(h, t, types, prefix, sig, q);
      }
    } else {
      var tok := toks[0];
      assert prefix + toks == prefix + [tok] + toks[1..];
      if t.Inner? {
        var cs := t.buckets[BucketOf(h, t, tok)].nodes;
        var k := Find(cs, tok);
        if prefix + [tok] <= Path(sig, q.tuple) {
          CountAtFound(h, t, types, prefix, sig, tok, q);
        }
        if k < |cs| {
          assert cs[k] in cs && ChildOk(h, cs[k], types, prefix, sig);
          CountAtExact(h, cs[k].sub, After(tok, types[0]) + types[1..], prefix + [tok], sig, toks[1..], q);
        }
      }
    }
  }
}
