/**
  Inserting a new path into the tree of a trie: chains that become hash buckets, buckets that are
  redistributed, and the fresh branch below the last node that matched.
 */
module TrieGrow {
  import opened TrieValues
  import opened TrieTree
  import opened TrieOps

  // ------------------------------------------------------------------ convert_hash and expand

  // Each node of the chain goes to the front of its bucket.
  function Fill(h: Hash, cs: seq<Child>, bs: seq<Bucket>): (r: seq<Bucket>)
    requires |bs| > 0
    ensures |r| == |bs|
    decreases |cs|
  {
    if cs == [] then bs else Fill(h, cs[1..], Add(bs, h(cs[0].data) % |bs|, cs[0]))
  }

  function Rehash(h: Hash, cs: seq<Child>, n: nat): (r: seq<Bucket>)
    requires n > 0
    ensures |r| == n
  {
    Fill(h, cs, seq(n, _ => Bucket([])))
  }

  // The data of the chain is distinct, and none of it is in the buckets yet.
  ghost predicate Apart(cs: seq<Child>, bs: seq<Bucket>) {
    && Distinct(cs)
    && (forall b :: 0 <= b < |bs| ==> Distinct(bs[b].nodes))
    && (forall c, b, d :: c in cs && 0 <= b < |bs| && d in bs[b].nodes ==> c.data != d.data)
  }

  ghost predicate Holds(bs: seq<Bucket>, c: Child) {
    exists b :: 0 <= b < |bs| && c in bs[b].nodes
  }

  lemma AddApart(h: Hash, cs: seq<Child>, bs: seq<Bucket>)
    requires |bs| > 0 && cs != [] && Apart(cs, bs) && InPlace(h, bs)
    ensures var bs' := Add(bs, h(cs[0].data) % |bs|, cs[0]); Apart(cs[1..], bs') && InPlace(h, bs')
  {
    var bs' := Add(bs, h(cs[0].data) % |bs|, cs[0]);
    forall c | c in cs[1..] ensures c in cs && c.data != cs[0].data {
      var i :| 0 <= i < |cs[1..]| && cs[1..][i] == c;
      assert cs[i + 1] == c;
    }
    forall b, d | 0 <= b < |bs'| && d in bs'[b].nodes ensures d == cs[0] || d in bs[b].nodes {}
    assert cs[0] in cs;
    AddDistinct(bs[h(cs[0].data) % |bs|].nodes, cs[0]);
  }

  lemma {:induction false} FillKeeps(h: Hash, cs: seq<Child>, bs: seq<Bucket>)
    requires |bs| > 0 && Apart(cs, bs) && InPlace(h, bs)
    ensures Apart([], Fill(h, cs, bs)) && InPlace(h, Fill(h, cs, bs))
    decreases |cs|
  {
    if cs != [] {
      AddApart(h, cs, bs);
      FillKeeps(h, cs[1..], Add(bs, h(cs[0].data) % |bs|, cs[0]));
    }
  }

  lemma {:induction false} FillFrom(h: Hash, cs: seq<Child>, bs: seq<Bucket>, b: nat, c: Child)
    requires |bs| > 0 && b < |bs| && c in Fill(h, cs, bs)[b].nodes
    ensures c in cs || c in bs[b].nodes
    decreases |cs|
  {
    if cs != [] {
      FillFrom(h, cs[1..], Add(bs, h(cs[0].data) % |bs|, cs[0]), b, c);
    }
  }

  lemma {:induction false} FillCount(h: Hash, cs: seq<Child>, bs: seq<Bucket>, q: Query)
    requires |bs| > 0
    ensures CountB(Fill(h, cs, bs), q) == CountB(bs, q) + CountC(cs, q)
    ensures |Flat(Fill(h, cs, bs))| == |Flat(bs)| + |cs|
    decreases |cs|
  {
    if cs != [] {
      CountAdd(bs, h(cs[0].data) % |bs|, cs[0], q);
      FillCount(h, cs[1..], Add(bs, h(cs[0].data) % |bs|, cs[0]), q);
    }
  }

  lemma {:induction false} EmptyBuckets(bs: seq<Bucket>, q: Query)
    requires forall b :: 0 <= b < |bs| ==> bs[b].nodes == []
    ensures CountB(bs, q) == 0 && Flat(bs) == []
  {
    if bs != [] {
      EmptyBuckets(bs[1..], q);
    }
  }

  /** Redistributing a chain loses no node, adds none, and puts each where its hash selects. */
  lemma RehashOk(h: Hash, cs: seq<Child>, n: nat, q: Query)
    requires n > 0 && Distinct(cs)
    ensures var r := Rehash(h, cs, n);
            && CountB(r, q) == CountC(cs, q) && |Flat(r)| == |cs| && InPlace(h, r)
            && (forall b :: 0 <= b < n ==> Distinct(r[b].nodes))
            && (forall b, c :: 0 <= b < n && c in r[b].nodes ==> c in cs)
  {
    var bs := seq(n, _ => Bucket([]));
    EmptyBuckets(bs, q);
    FillCount(h, cs, bs, q);
    FillKeeps(h, cs, bs);
    forall b, c | 0 <= b < n && c in Rehash(h, cs, n)[b].nodes ensures c in cs {
      FillFrom(h, cs, bs, b, c);
    }
  }

  lemma {:induction false} FlatMember(bs: seq<Bucket>, c: Child)
    ensures c in Flat(bs) <==> Holds(bs, c)
  {
    if bs != [] {
      FlatMember(bs[1..], c);
      if Holds(bs[1..], c) {
        var b :| 0 <= b < |bs[1..]| && c in bs[1..][b].nodes;
        assert c in bs[b + 1].nodes;
      }
      if Holds(bs, c) {
        var b :| 0 <= b < |bs| && c in bs[b].nodes;
        if b > 0 {
          assert c in bs[1..][b - 1].nodes;
        }
      }
    }
  }

  // Nodes in different buckets differ, so all the nodes of a hash are distinct.
  lemma {:induction false} FlatDistinct(h: Hash, bs: seq<Bucket>, m: nat, off: nat)
    requires m > 0 && forall b :: 0 <= b < |bs| ==> Distinct(bs[b].nodes)
    requires forall b, c :: 0 <= b < |bs| && c in bs[b].nodes ==> h(c.data) % m == off + b
    ensures Distinct(Flat(bs))
  {
    if bs != [] {
      var xs, ys := bs[0].nodes, Flat(bs[1..]);
      forall b, c | 0 <= b < |bs[1..]| && c in bs[1..][b].nodes ensures h(c.data) % m == off + 1 + b {
        assert c in bs[b + 1].nodes;
      }
      FlatDistinct(h, bs[1..], m, off + 1);
      forall x, y | x in xs && y in ys ensures x.data != y.data {
        FlatMember(bs[1..], y);
        var b :| 0 <= b < |bs[1..]| && y in bs[1..][b].nodes;
        assert y in bs[b + 1].nodes && x in bs[0].nodes;
      }
      forall i, j | 0 <= i < j < |xs + ys| ensures (xs + ys)[i].data != (xs + ys)[j].data {
        assert i < |xs| ==> (xs + ys)[i] == xs[i];
        assert i >= |xs| ==> (xs + ys)[i] == ys[i - |xs|];
        assert j < |xs| ==> (xs + ys)[j] == xs[j];
        assert j >= |xs| ==> (xs + ys)[j] == ys[j - |xs|];
      }
    }
  }

  // ------------------------------------------------------------------ making room

  // What check_insert does to the parent when no child matched; count is the chain walked plus one.
  function Room(h: Hash, t: Tree, count: nat): (r: Tree)
    requires t.Inner? && |t.buckets| > 0
    ensures r.Inner? && |r.buckets| > 0
  {
    if count > TRIE_HASH_LIST_THRESHOLD && !t.hashed then
      var cs := t.buckets[0].nodes;
      Inner(true, Rehash(h, cs, TRIE_HASH_BASE_BUCKETS), |cs|)
    else if t.hashed && count > TRIE_HASH_LIST_THRESHOLD / 2 then
      Inner(true, Rehash(h, Flat(t.buckets), 2 * |t.buckets|), t.total)
    else
      t
  }

  // A chain that may grow without becoming a hash first
  predicate HasRoom(t: Tree) {
    t.Inner? && |t.buckets| > 0 && (t.hashed || |t.buckets[0].nodes| < TRIE_HASH_LIST_THRESHOLD)
  }

  // Lists and structs have at most two tokens.
  lemma ThreeTokens(a: Token, b: Token, c: Token, ty: Type)
    ensures !Scalar(ty) && TokenFits(a, ty) && TokenFits(b, ty) && TokenFits(c, ty) ==> a == b || b == c || a == c
  {}

  /** Only chains of ints, floats and nodes are ever turned into hashes, so the abort in
      convert_hash for other types is not reached. */
  lemma OnlyScalarsConverted(h: Hash, t: Tree, types: seq<Type>, prefix: seq<Token>, sig: seq<Type>)
    requires WF(h, t, types, prefix, sig) && t.Inner? && !t.hashed
    requires |t.buckets[0].nodes| + 1 > TRIE_HASH_LIST_THRESHOLD
    ensures Scalar(types[0])
  {
    var cs := t.buckets[0].nodes;
    forall i | 0 <= i < |cs| ensures TokenFits(cs[i].data, types[0]) {
      assert cs[i] in cs && ChildOk(h, cs[i], types, prefix, sig);
    }
    ThreeTokens(cs[0].data, cs[1].data, cs[2].data, types[0]);
  }

  /** convert_hash and expand change nothing that can be counted. */
  lemma RoomOk(h: Hash, t: Tree, types: seq<Type>, prefix: seq<Token>, sig: seq<Type>, b: nat, q: Query)
    requires WF(h, t, types, prefix, sig) && t.Inner? && b < |t.buckets|
    ensures var r := Room(h, t, |t.buckets[b].nodes| + 1);
            && WF(h, r, types, prefix, sig) && Count(r, q) == Count(t, q) && HasRoom(r)
            && (forall i, c :: 0 <= i < |r.buckets| && c in r.buckets[i].nodes ==> Holds(t.buckets, c))
  {
    var bs := t.buckets;
    var r := Room(h, t, |bs[b].nodes| + 1);
    if t.hashed {
      FlatDistinct(h, bs, |bs|, 0);
      RehashOk(h, Flat(bs), 2 * |bs|, q);
      CountFlat(bs, q);
      forall c | c in Flat(bs) ensures Holds(bs, c) {
        FlatMember(bs, c);
      }
    } else {
      RehashOk(h, bs[0].nodes, TRIE_HASH_BASE_BUCKETS, q);
      assert bs[1..] == [];
      assert CountB(bs, q) == CountC(bs[0].nodes, q);
      if |bs[b].nodes| + 1 > TRIE_HASH_LIST_THRESHOLD {
        OnlyScalarsConverted(h, t, types, prefix, sig);
      }
    }
    forall i, c | 0 <= i < |r.buckets| && c in r.buckets[i].nodes ensures Holds(bs, c) && ChildOk(h, c, types, prefix, sig) {}
  }

  // ------------------------------------------------------------------ the new branch

  // The loop after the first insert: one node per token left, and a leaf.
  function NewPath(toks: seq<Token>, tup: Tuple): Tree {
    if toks == [] then Leaf(tup, 1)
    else Inner(false, [Bucket([Child(toks[0], NewPath(toks[1..], tup))])], 0)
  }

  function Graft(h: Hash, t: Tree, toks: seq<Token>, tup: Tuple): Tree
    decreases t
  {
    match t
    case Leaf(_, _) => t
    case Inner(hashed, bs, total) =>
      if toks == [] || bs == [] then t else
      var b := BucketOf(h, t, toks[0]);
      var k := Find(bs[b].nodes, toks[0]);
      if k < |bs[b].nodes| then
        var c := bs[b].nodes[k];
        Inner(hashed, Replace(bs, b, k, Child(c.data, Graft(h, c.sub, toks[1..], tup))), total)
      else
        Sprout(h, Room(h, t, |bs[b].nodes| + 1), toks, tup)
  }

  // trie_node::insert: a new child at the front of the chain or of its bucket.
  function Sprout(h: Hash, t: Tree, toks: seq<Token>, tup: Tuple): Tree
    requires t.Inner? && |t.buckets| > 0 && toks != []
  {
    var c := Child(toks[0], NewPath(toks[1..], tup));
    Inner(t.hashed, Add(t.buckets, BucketOf(h, t, toks[0]), c), if t.hashed then t.total + 1 else t.total)
  }

  // One more reference, for the queries that see it.
  function One(q: Query, tup: Tuple): nat {
    if q.AllRefs? || q.tuple == tup then 1 else 0
  }

  lemma {:induction false} NewPathCount(toks: seq<Token>, tup: Tuple, q: Query)
    ensures Count(NewPath(toks, tup), q) == One(q, tup)
  {
    if toks != [] {
      NewPathCount(toks[1..], tup, q);
      var c := Child(toks[0], NewPath(toks[1..], tup));
      assert CountB([Bucket([c])], q) == CountC([c], q) + CountB([], q);
      assert CountC([c], q) == Count(c.sub, q) + CountC([], q);
    }
  }

  lemma {:induction false} NewPathWF(h: Hash, stk: seq<Item>, prefix: seq<Token>, sig: seq<Type>, tup: Tuple)
    requires WellTyped(stk) && TupleFits(sig, tup) && Path(sig, tup) == prefix + Flatten(stk)
    ensures var r := NewPath(Flatten(stk), tup); WF(h, r, Types(stk), prefix, sig) && Alive(r)
    decreases StackSize(stk)
  {
    if stk != [] {
      var c := FreshChild(h, stk, prefix, sig, tup);
      assert NewPath(Flatten(stk), tup).buckets == [Bucket([c])] && [Bucket([c])][0].nodes != [];
    } else {
      assert prefix + Flatten(stk) == prefix;
    }
  }

  lemma {:induction false} FreshChild(h: Hash, stk: seq<Item>, prefix: seq<Token>, sig: seq<Type>, tup: Tuple) returns (c: Child)
    requires WellTyped(stk) && stk != [] && TupleFits(sig, tup) && Path(sig, tup) == prefix + Flatten(stk)
    ensures c == Child(Flatten(stk)[0], NewPath(Flatten(stk)[1..], tup)) && ChildOk(h, c, Types(stk), prefix, sig)
    decreases StackSize(stk), 0
  {
    StackStep(stk);
    var toks := Flatten(stk);
    assert prefix + toks == prefix + [toks[0]] + toks[1..];
    NewPathWF(h, Pop(stk), prefix + [toks[0]], sig, tup);
    c := Child(toks[0], NewPath(toks[1..], tup));
  }

  lemma AddedNode(bs: seq<Bucket>, b: nat, c: Child, i: nat, d: Child)
    requires b < |bs| && i < |bs| && d in Add(bs, b, c)[i].nodes
    ensures (i == b && d == c) || d in bs[i].nodes
  {}

  // A further child with a token of its own.
  lemma AddWF(h: Hash, t: Tree, types: seq<Type>, prefix: seq<Token>, sig: seq<Type>, c: Child)
    requires WF(h, t, types, prefix, sig) && HasRoom(t) && ChildOk(h, c, types, prefix, sig)
    requires forall b, d :: 0 <= b < |t.buckets| && d in t.buckets[b].nodes ==> d.data != c.data
    ensures var r := Inner(t.hashed, Add(t.buckets, BucketOf(h, t, c.data), c), if t.hashed then t.total + 1 else t.total);
            WF(h, r, types, prefix, sig) && Alive(r)
  {
    var bs := t.buckets;
    var b := BucketOf(h, t, c.data);
    CountAdd(bs, b, c, AllRefs);
    var bs' := Add(bs, b, c);
    forall i, d | 0 <= i < |bs'| && d in bs'[i].nodes
      ensures ChildOk(h, d, types, prefix, sig) && (t.hashed ==> h(d.data) % |bs'| == i)
    {
      AddedNode(bs, b, c, i, d);
    }
    AddDistinct(bs[b].nodes, c);
    forall i | 0 <= i < |bs'| ensures Distinct(bs'[i].nodes) {
      assert Distinct(bs[i].nodes);
    }
    assert bs'[b].nodes != [];
  }

  lemma AddDistinct(cs: seq<Child>, c: Child)
    requires Distinct(cs) && forall d :: d in cs ==> d.data != c.data
    ensures Distinct([c] + cs)
  {}

  lemma SproutOk(h: Hash, t: Tree, stk: seq<Item>, prefix: seq<Token>, sig: seq<Type>, tup: Tuple, q: Query)
    requires WellTyped(stk) && stk != [] && TupleFits(sig, tup) && Path(sig, tup) == prefix + Flatten(stk)
    requires WF(h, t, Types(stk), prefix, sig) && HasRoom(t)
    requires forall b, c :: 0 <= b < |t.buckets| && c in t.buckets[b].nodes ==> c.data != Flatten(stk)[0]
    ensures var r := Sprout(h, t, Flatten(stk), tup);
            WF(h, r, Types(stk), prefix, sig) && Alive(r) && Count(r, q) == Count(t, q) + One(q, tup)
  {
    var c := FreshChild(h, stk, prefix, sig, tup);
    AddWF(h, t, Types(stk), prefix, sig, c);
    CountAdd(t.buckets, BucketOf(h, t, c.data), c, q);
    NewPathCount(Flatten(stk)[1..], tup, q);
  }

  // The token is nowhere in the node when its bucket does not have it.
  lemma AbsentEverywhere(h: Hash, t: Tree, types: seq<Type>, prefix: seq<Token>, sig: seq<Type>, tok: Token)
    requires WF(h, t, types, prefix, sig) && t.Inner?
    requires var cs := t.buckets[BucketOf(h, t, tok)].nodes; Find(cs, tok) == |cs|
    ensures forall c :: Holds(t.buckets, c) ==> c.data != tok
  {}

  // The walk stops here: no child has the token.
  lemma GraftIsSprout(h: Hash, t: Tree, toks: seq<Token>, tup: Tuple)
    requires t.Inner? && |t.buckets| > 0 && toks != []
    requires var cs := t.buckets[BucketOf(h, t, toks[0])].nodes; Find(cs, toks[0]) == |cs|
    ensures Graft(h, t, toks, tup) == Sprout(h, Room(h, t, |t.buckets[BucketOf(h, t, toks[0])].nodes| + 1), toks, tup)
  {}

  lemma RoomAbsent(h: Hash, t: Tree, types: seq<Type>, prefix: seq<Token>, sig: seq<Type>, tok: Token, q: Query) returns (r: Tree)
    requires WF(h, t, types, prefix, sig) && t.Inner?
    requires var cs := t.buckets[BucketOf(h, t, tok)].nodes; Find(cs, tok) == |cs|
    ensures r == Room(h, t, |t.buckets[BucketOf(h, t, tok)].nodes| + 1)
    ensures WF(h, r, types, prefix, sig) && HasRoom(r) && Count(r, q) == Count(t, q)
    ensures forall b, c :: 0 <= b < |r.buckets| && c in r.buckets[b].nodes ==> c.data != tok
  {
    r := Room(h, t, |t.buckets[BucketOf(h, t, tok)].nodes| + 1);
    RoomOk(h, t, types, prefix, sig, BucketOf(h, t, tok), q);
    AbsentEverywhere(h, t, types, prefix, sig, tok);
  }

  lemma GraftHere(h: Hash, t: Tree, stk: seq<Item>, prefix: seq<Token>, sig: seq<Type>, tup: Tuple, q: Query)
    requires WellTyped(stk) && stk != [] && TupleFits(sig, tup) && Path(sig, tup) == prefix + Flatten(stk)
    requires WF(h, t, Types(stk), prefix, sig) && t.Inner?
    requires var cs := t.buckets[BucketOf(h, t, Flatten(stk)[0])].nodes; Find(cs, Flatten(stk)[0]) == |cs|
    ensures var r := Graft(h, t, Flatten(stk), tup);
            WF(h, r, Types(stk), prefix, sig) && Alive(r) && Count(r, q) == Count(t, q) + One(q, tup)
  {
    GraftIsSprout(h, t, Flatten(stk), tup);
    var r := RoomAbsent(h, t, Types(stk), prefix, sig, Flatten(stk)[0], q);
    SproutOk(h, r, stk, prefix, sig, tup, q);
  }

  // The child the walk goes through is replaced by what the insertion makes of it.
  lemma GraftBelow(h: Hash, t: Tree, types: seq<Type>, prefix: seq<Token>, sig: seq<Type>, b: nat, k: nat, c: Child, q: Query, more: nat)
    requires WF(h, t, types, prefix, sig) && t.Inner? && b < |t.buckets| && k < |t.buckets[b].nodes|
    requires c.data == t.buckets[b].nodes[k].data && ChildOk(h, c, types, prefix, sig)
    requires Count(c.sub, q) == Count(t.buckets[b].nodes[k].sub, q) + more
    ensures var r := Inner(t.hashed, Replace(t.buckets, b, k, c), t.total);
            WF(h, r, types, prefix, sig) && Alive(r) && Count(r, q) == Count(t, q) + more
  {
    ReplaceWF(h, t, types, prefix, sig, b, k, c);
    CountReplace(t.buckets, b, k, c, q);
  }

  /** Inserting the path of a tuple that has no leaf yet adds one leaf with one reference to it, and
      changes nothing else, whatever conversions it causes on the way. */
  lemma {:induction false} GraftOk(h: Hash, t: Tree, stk: seq<Item>, prefix: seq<Token>, sig: seq<Type>, tup: Tuple, q: Query)
    requires WellTyped(stk) && TupleFits(sig, tup) && Path(sig, tup) == prefix + Flatten(stk)
    requires WF(h, t, Types(stk), prefix, sig) && Lookup(h, t, Flatten(stk)).None?
    ensures var r := Graft(h, t, Flatten(stk), tup);
            WF(h, r, Types(stk), prefix, sig) && Alive(r) && Count(r, q) == Count(t, q) + One(q, tup)
    decreases t
  {
    assert t.Inner? && stk != [] by {
      assert |Types(stk)| == |stk|;
    }
    StackStep(stk);
    var toks, bs := Flatten(stk), t.buckets;
    PathStep(prefix, toks, Path(sig, tup));
    var b := BucketOf(h, t, toks[0]);
    var k := Find(bs[b].nodes, toks[0]);
    if k < |bs[b].nodes| {
      var c := bs[b].nodes[k];
      assert c in bs[b].nodes && ChildOk(h, c, Types(stk), prefix, sig);
      GraftOk(h, c.sub, Pop(stk), prefix + [toks[0]], sig, tup, q);
      GraftBelow(h, t, Types(stk), prefix, sig, b, k, Child(c.data, Graft(h, c.sub, toks[1..], tup)), q, One(q, tup));
    } else {
      GraftHere(h, t, stk, prefix, sig, tup, q);
    }
  }
}
