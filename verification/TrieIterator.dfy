/**
  The search iterator of the trie: find_next with its continuation stack.

  A frame is a node of the tree, a position among its children and the match stack at that point.
  The first call of find_next is told that it goes down, and it keeps believing so for every frame
  it restores; with a hash as parent such a frame is then taken for the hash itself.  The model
  ends in a crash at that point.
 */
module TrieIterator {
  import opened TrieValues
  import opened TrieTree
  import opened TrieOps
  import opened TrieGrow
  import opened TuplePatterns
  import opened TrieSearch

  // Down: at the child pointer of the parent.  At: at a node of a bucket.
  datatype Pos = Down | At(b: nat, i: nat)

  datatype Frame = Frame(stk: seq<PItem>, parent: Tree, pos: Pos)

  // ------------------------------------------------------------------ positions

  // The first bucket with nodes, from a bucket on.
  function NextBucket(bs: seq<Bucket>, b: nat): (r: nat)
    requires b <= |bs|
    ensures b <= r <= |bs| && (r < |bs| ==> bs[r].nodes != [])
    ensures forall i :: b <= i < r ==> bs[i].nodes == []
    decreases |bs| - b
  {
    if b == |bs| || bs[b].nodes != [] then b else NextBucket(bs, b + 1)
  }

  function NextPos(bs: seq<Bucket>, b: nat, i: nat): (r: Option<Pos>)
    requires b < |bs| && i < |bs[b].nodes|
    ensures r.Some? ==> r.value.At? && r.value.b < |bs| && r.value.i < |bs[r.value.b].nodes|
  {
    if i + 1 < |bs[b].nodes| then Some(At(b, i + 1)) else
    var n := NextBucket(bs, b + 1);
    if n < |bs| then Some(At(n, 0)) else None
  }

  // The children from a position on.
  function Rest(bs: seq<Bucket>, b: nat, i: nat): seq<Child>
    requires b < |bs| && i <= |bs[b].nodes|
  {
    bs[b].nodes[i..] + Flat(bs[b + 1..])
  }

  lemma {:induction false} SkipEmpty(bs: seq<Bucket>, b: nat)
    requires b <= |bs|
    ensures var n := NextBucket(bs, b); Flat(bs[b..]) == if n < |bs| then Rest(bs, n, 0) else []
    decreases |bs| - b
  {
    if b < |bs| {
      assert bs[b..][1..] == bs[b + 1..];
      if bs[b].nodes == [] {
        SkipEmpty(bs, b + 1);
      } else {
        assert bs[b].nodes[0..] == bs[b].nodes;
      }
    }
  }

  /** Moving from position to position visits the children one after the other. */
  lemma RestStep(bs: seq<Bucket>, b: nat, i: nat)
    requires b < |bs| && i < |bs[b].nodes|
    ensures var p := NextPos(bs, b, i);
            Rest(bs, b, i) == [bs[b].nodes[i]] + if p.Some? then Rest(bs, p.value.b, p.value.i) else []
  {
    SkipEmpty(bs, b + 1);
  }

  // ------------------------------------------------------------------ frames

  // A node of some well-formed trie, with the types that are left at it.
  ghost predicate NodeOk(h: Hash, t: Tree, types: seq<Type>) {
    exists prefix, sig :: WF(h, t, types, prefix, sig)
  }

  ghost predicate FrameOk(h: Hash, f: Frame) {
    && f.stk != [] && StackOk(f.stk)
    && f.parent.Inner? && Alive(f.parent) && NodeOk(h, f.parent, PTypes(f.stk))
    && (f.pos.At? ==> f.stk[0].pat == Any && f.pos.b < |f.parent.buckets| && f.pos.i < |f.parent.buckets[f.pos.b].nodes|)
  }

  ghost predicate FramesOk(h: Hash, fs: seq<Frame>) {
    forall i :: 0 <= i < |fs| ==> FrameOk(h, fs[i])
  }

  // What is still to be found from a frame, and from a stack of frames with the top first.
  ghost function HitsAt(f: Frame): seq<Tuple>
    requires f.stk != [] && f.parent.Inner?
    requires f.pos.At? ==> f.pos.b < |f.parent.buckets| && f.pos.i < |f.parent.buckets[f.pos.b].nodes|
  {
    match f.pos
    case Down => HitsIn(f.parent.buckets, f.stk)
    case At(b, i) => HitsOver(Rest(f.parent.buckets, b, i), f.stk)
  }

  ghost function HitsStack(h: Hash, fs: seq<Frame>): seq<Tuple>
    requires FramesOk(h, fs)
  {
    if fs == [] then [] else HitsAt(fs[0]) + HitsStack(h, fs[1..])
  }

  lemma {:induction false} HitsOverAppend(a: seq<Child>, b: seq<Child>, stk: seq<PItem>)
    requires stk != []
    ensures HitsOver(a + b, stk) == HitsOver(a, stk) + HitsOver(b, stk)
  {
    if a == [] {
      assert a + b == b;
    } else {
      assert (a + b)[1..] == a[1..] + b;
      HitsOverAppend(a[1..], b, stk);
    }
  }

  lemma {:induction false} HitsFlat(bs: seq<Bucket>, stk: seq<PItem>)
    requires stk != []
    ensures HitsIn(bs, stk) == HitsOver(Flat(bs), stk)
  {
    if bs != [] {
      HitsOverAppend(bs[0].nodes, Flat(bs[1..]), stk);
      HitsFlat(bs[1..], stk);
    }
  }

  // An exact field is found in one bucket, at one node.
  lemma {:induction false} HitsOfOther(cs: seq<Child>, stk: seq<PItem>)
    requires stk != [] && stk[0].pat != Any && forall c :: c in cs ==> c.data != ExactToken(stk[0].pat)
    ensures HitsOver(cs, stk) == []
  {
    if cs != [] {
      assert cs[0] in cs;
      HitsOfOther(cs[1..], stk);
    }
  }

  lemma {:induction false} HitsOfFound(cs: seq<Child>, stk: seq<PItem>)
    requires stk != [] && stk[0].pat != Any && Distinct(cs)
    ensures var k := Find(cs, ExactToken(stk[0].pat)); HitsOver(cs, stk) == if k < |cs| then HitsChild(cs[k], stk) else []
  {
    var tok := ExactToken(stk[0].pat);
    var k := Find(cs, tok);
    if cs != [] {
      if k == 0 {
        forall c | c in cs[1..] ensures c.data != tok {
          var i :| 0 <= i < |cs[1..]| && cs[1..][i] == c;
          assert cs[i + 1] == c;
        }
        HitsOfOther(cs[1..], stk);
        assert HitsChild(cs[0], stk) + [] == HitsChild(cs[0], stk);
      } else {
        HitsOfFound(cs[1..], stk);
      }
    }
  }

  lemma {:induction false} HitsOfBucket(bs: seq<Bucket>, b: nat, stk: seq<PItem>)
    requires stk != [] && stk[0].pat != Any
    requires forall i, c :: 0 <= i < |bs| && i != b && c in bs[i].nodes ==> c.data != ExactToken(stk[0].pat)
    ensures HitsIn(bs, stk) == if b < |bs| then HitsOver(bs[b].nodes, stk) else []
  {
    if bs != [] {
      forall i, c | 0 <= i < |bs[1..]| && i + 1 != b && c in bs[1..][i].nodes ensures c.data != ExactToken(stk[0].pat) {
        assert c in bs[i + 1].nodes;
      }
      if b == 0 {
        HitsOfBucket(bs[1..], |bs|, stk);
        assert HitsOver(bs[0].nodes, stk) + [] == HitsOver(bs[0].nodes, stk);
      } else {
        HitsOfOther(bs[0].nodes, stk);
        HitsOfBucket(bs[1..], b - 1, stk);
      }
    }
  }

  // ------------------------------------------------------------------ one turn of the search

  // The child that is taken, and the alternative that is pushed.
  datatype Choice = Choice(child: Option<Child>, alt: seq<Frame>)

  predicate FrameShape(f: Frame) {
    && f.stk != [] && f.parent.Inner? && Alive(f.parent)
    && (f.pos.At? ==> f.pos.b < |f.parent.buckets| && f.pos.i < |f.parent.buckets[f.pos.b].nodes|)
  }

  function Choose(h: Hash, f: Frame): Choice
    requires FrameShape(f)
  {
    var bs := f.parent.buckets;
    if f.stk[0].pat != Any then
      var tok := ExactToken(f.stk[0].pat);
      var cs := bs[BucketOf(h, f.parent, tok)].nodes;
      var k := Find(cs, tok);
      Choice(if k < |cs| then Some(cs[k]) else None, [])
    else
      var p := Here(f);
      Choice(Some(bs[p.b].nodes[p.i]), match NextPos(bs, p.b, p.i) case None => [] case Some(n) => [Frame(f.stk, f.parent, n)])
  }

  // The position itself, or the first valid bucket of a node that is entered.
  function Here(f: Frame): (p: Pos)
    requires FrameShape(f)
    ensures p.At? && p.b < |f.parent.buckets| && p.i < |f.parent.buckets[p.b].nodes|
  {
    if f.pos.At? then f.pos else At(NextBucket(f.parent.buckets, 0), 0)
  }

  // The bucket of the child that is taken
  ghost function ChosenBucket(h: Hash, f: Frame): nat
    requires FrameShape(f)
  {
    if f.stk[0].pat != Any then BucketOf(h, f.parent, ExactToken(f.stk[0].pat)) else Here(f).b
  }

  lemma ChosenInBucket(h: Hash, f: Frame)
    requires FrameOk(h, f) && Choose(h, f).child.Some?
    ensures var b := ChosenBucket(h, f); b < |f.parent.buckets| && Choose(h, f).child.value in f.parent.buckets[b].nodes
  {}

  lemma ChosenAlt(h: Hash, f: Frame)
    requires FrameOk(h, f)
    ensures FramesOk(h, Choose(h, f).alt)
  {}

  lemma ChosenOk(h: Hash, f: Frame)
    requires FrameOk(h, f)
    ensures var ch := Choose(h, f);
            && FramesOk(h, ch.alt)
            && (ch.child.Some? ==> TokenFits(ch.child.value.data, f.stk[0].ty) && Alive(ch.child.value.sub)
                                   && Step(f.stk[0], ch.child.value.data).Some?
                                   && NodeOk(h, ch.child.value.sub, After(ch.child.value.data, f.stk[0].ty) + PTypes(f.stk)[1..]))
  {
    ChosenAlt(h, f);
    if Choose(h, f).child.Some? {
      ChosenInBucket(h, f);
      assert PTypes(f.stk)[0] == f.stk[0].ty;
      ChildOfNode(h, f.parent, PTypes(f.stk), ChosenBucket(h, f), Choose(h, f).child.value);
      ChosenFits(h, f);
    }
  }

  // The child that is taken can be taken.
  lemma ChosenFits(h: Hash, f: Frame)
    requires FrameOk(h, f) && Choose(h, f).child.Some? && TokenFits(Choose(h, f).child.value.data, f.stk[0].ty)
    ensures Step(f.stk[0], Choose(h, f).child.value.data).Some?
  {
    assert ItemOk(f.stk[0]);
  }

  lemma ChildOfNode(h: Hash, t: Tree, types: seq<Type>, b: nat, c: Child)
    requires NodeOk(h, t, types) && t.Inner? && types != [] && b < |t.buckets| && c in t.buckets[b].nodes
    ensures TokenFits(c.data, types[0]) && Alive(c.sub) && NodeOk(h, c.sub, After(c.data, types[0]) + types[1..])
  {
    var prefix, sig :| WF(h, t, types, prefix, sig);
    assert ChildOk(h, c, types, prefix, sig);
    assert WF(h, c.sub, After(c.data, types[0]) + types[1..], prefix + [c.data], sig);
  }

  ghost function HitsChosen(ch: Option<Child>, stk: seq<PItem>): seq<Tuple>
    requires stk != []
  {
    if ch.Some? then HitsChild(ch.value, stk) else []
  }

  /** Nothing is lost when a child is taken: what was to be found is found below it or from the
      alternative that was pushed. */
  lemma ChooseHits(h: Hash, f: Frame)
    requires FrameOk(h, f) && FramesOk(h, Choose(h, f).alt)
    ensures HitsAt(f) == HitsChosen(Choose(h, f).child, f.stk) + HitsStack(h, Choose(h, f).alt)
  {
    var bs := f.parent.buckets;
    if f.stk[0].pat != Any {
      ExactHits(h, f);
      assert HitsAt(f) + [] == HitsAt(f);
    } else {
      var p := Here(f);
      AnyHits(f);
      RestStep(bs, p.b, p.i);
      var n := NextPos(bs, p.b, p.i);
      var tl := if n.Some? then Rest(bs, n.value.b, n.value.i) else [];
      assert Rest(bs, p.b, p.i)[0] == bs[p.b].nodes[p.i] && Rest(bs, p.b, p.i)[1..] == tl;
      assert HitsOver(tl, f.stk) == HitsStack(h, Choose(h, f).alt) by {
        if n.Some? {
          assert Choose(h, f).alt == [Frame(f.stk, f.parent, n.value)];
          assert HitsOver(tl, f.stk) + [] == HitsOver(tl, f.stk);
        }
      }
    }
  }

  lemma ExactHits(h: Hash, f: Frame)
    requires FrameOk(h, f) && f.stk[0].pat != Any
    ensures HitsAt(f) == HitsChosen(Choose(h, f).child, f.stk)
  {
    ExactIn(h, f.parent, PTypes(f.stk), f.stk);
  }

  lemma {:induction false} ExactIn(h: Hash, t: Tree, types: seq<Type>, stk: seq<PItem>)
    requires NodeOk(h, t, types) && t.Inner? && |t.buckets| > 0 && stk != [] && stk[0].pat != Any
    ensures var cs := t.buckets[BucketOf(h, t, ExactToken(stk[0].pat))].nodes;
            var k := Find(cs, ExactToken(stk[0].pat));
            HitsIn(t.buckets, stk) == if k < |cs| then HitsChild(cs[k], stk) else []
  {
    var b := BucketOf(h, t, ExactToken(stk[0].pat));
    TokenInBucket(h, t, types, ExactToken(stk[0].pat));
    HitsOfBucket(t.buckets, b, stk);
    HitsOfFound(t.buckets[b].nodes, stk);
  }

  // A token is in the bucket its hash selects, and there at most once.
  lemma TokenInBucket(h: Hash, t: Tree, types: seq<Type>, tok: Token)
    requires NodeOk(h, t, types) && t.Inner?
    ensures |t.buckets| > 0 && Distinct(t.buckets[BucketOf(h, t, tok)].nodes)
    ensures forall i, c :: 0 <= i < |t.buckets| && i != BucketOf(h, t, tok) && c in t.buckets[i].nodes ==> c.data != tok
  {
    var prefix, sig :| WF(h, t, types, prefix, sig);
  }

  lemma AnyHits(f: Frame)
    requires FrameShape(f)
    ensures HitsAt(f) == HitsOver(Rest(f.parent.buckets, Here(f).b, Here(f).i), f.stk)
  {
    if f.pos.Down? {
      SkipEmpty(f.parent.buckets, 0);
      assert f.parent.buckets[0..] == f.parent.buckets;
      HitsFlat(f.parent.buckets, f.stk);
    }
  }

  // ------------------------------------------------------------------ work left

  function Nodes(t: Tree): (n: nat)
    ensures n > 0
    decreases t, 1
  {
    match t
    case Leaf(_, _) => 1
    case Inner(_, bs, _) => 1 + NodesIn(bs)
  }

  function NodesIn(bs: seq<Bucket>): nat
    decreases bs, 0
  {
    if bs == [] then 0 else NodesOver(bs[0].nodes) + NodesIn(bs[1..])
  }

  function NodesOver(cs: seq<Child>): nat
    decreases cs, 0
  {
    if cs == [] then 0 else
    var c := cs[0];
    assert c in cs && c.sub < c;
    Nodes(c.sub) + NodesOver(cs[1..])
  }

  ghost function Work(f: Frame): nat
    requires FrameShape(f)
  {
    match f.pos
    case Down => NodesIn(f.parent.buckets)
    case At(b, i) => NodesOver(Rest(f.parent.buckets, b, i))
  }

  ghost function WorkStack(h: Hash, fs: seq<Frame>): nat
    requires FramesOk(h, fs)
  {
    if fs == [] then 0 else Work(fs[0]) + WorkStack(h, fs[1..])
  }

  lemma {:induction false} NodesAppend(a: seq<Child>, b: seq<Child>)
    ensures NodesOver(a + b) == NodesOver(a) + NodesOver(b)
  {
    if a == [] {
      assert a + b == b;
    } else {
      assert (a + b)[1..] == a[1..] + b;
      NodesAppend(a[1..], b);
    }
  }

  lemma {:induction false} NodesFlat(bs: seq<Bucket>)
    ensures NodesIn(bs) == NodesOver(Flat(bs))
  {
    if bs != [] {
      NodesAppend(bs[0].nodes, Flat(bs[1..]));
      NodesFlat(bs[1..]);
    }
  }

  lemma {:induction false} NodesOfChild(cs: seq<Child>, k: nat)
    requires k < |cs|
    ensures Nodes(cs[k].sub) <= NodesOver(cs)
  {
    if k > 0 {
      NodesOfChild(cs[1..], k - 1);
    }
  }

  lemma {:induction false} NodesOfBucket(bs: seq<Bucket>, b: nat)
    requires b < |bs|
    ensures NodesOver(bs[b].nodes) <= NodesIn(bs)
  {
    if b > 0 {
      NodesOfBucket(bs[1..], b - 1);
    }
  }

  lemma ChooseWork(h: Hash, f: Frame)
    requires FrameOk(h, f) && FramesOk(h, Choose(h, f).alt)
    ensures var ch := Choose(h, f);
            (if ch.child.Some? then Nodes(ch.child.value.sub) else 0) + WorkStack(h, ch.alt) <= Work(f)
  {
    var bs := f.parent.buckets;
    if f.stk[0].pat != Any {
      var tok := ExactToken(f.stk[0].pat);
      var b := BucketOf(h, f.parent, tok);
      NodesOfBucket(bs, b);
      if Choose(h, f).child.Some? {
        NodesOfChild(bs[b].nodes, Find(bs[b].nodes, tok));
      }
    } else {
      AnyWork(f);
      var p := Here(f);
      RestStep(bs, p.b, p.i);
      var n := NextPos(bs, p.b, p.i);
      var tl := if n.Some? then Rest(bs, n.value.b, n.value.i) else [];
      assert Rest(bs, p.b, p.i)[0] == bs[p.b].nodes[p.i] && Rest(bs, p.b, p.i)[1..] == tl;
      assert n.Some? ==> Choose(h, f).alt == [Frame(f.stk, f.parent, n.value)];
    }
  }

  lemma AnyWork(f: Frame)
    requires FrameShape(f)
    ensures Work(f) == NodesOver(Rest(f.parent.buckets, Here(f).b, Here(f).i))
  {
    if f.pos.Down? {
      SkipEmpty(f.parent.buckets, 0);
      assert f.parent.buckets[0..] == f.parent.buckets;
      NodesFlat(f.parent.buckets);
    }
  }

  // ------------------------------------------------------------------ the outcome of the first call

  // Found something; went through everything; took a node for a hash.
  datatype First = Hit | Nothing | Crash

  function Then(a: First, b: First): First {
    if a == Nothing then b else a
  }

  // The first call, on a node that is entered with its parent's field already taken off the stack.
  // At a hash whose field is not exact, only the first child can be tried.
  function FirstBelow(h: Hash, t: Tree, stk: seq<PItem>): First
    decreases t, 1
  {
    match t
    case Leaf(_, n) => if n == 0 then Nothing else Hit
    case Inner(hashed, bs, _) =>
      if stk == [] || bs == [] then Nothing
      else if stk[0].pat != Any then
        var b := bs[BucketOf(h, t, ExactToken(stk[0].pat))];
        var k := Find(b.nodes, ExactToken(stk[0].pat));
        assert b in bs;
        if k < |b.nodes| then FirstChild(h, b.nodes[k], stk) else Nothing
      else if hashed then
        var n := NextBucket(bs, 0);
        if n == |bs| then Nothing else
        var b := bs[n];
        assert b in bs;
        var r := FirstChild(h, b.nodes[0], stk);
        if r == Nothing && NextPos(bs, n, 0).Some? then Crash else r
      else
        var b := bs[0];
        assert b in bs;
        FirstOver(h, b.nodes, stk)
  }

  function FirstOver(h: Hash, cs: seq<Child>, stk: seq<PItem>): First
    requires stk != []
    decreases cs, 0
  {
    if cs == [] then Nothing else
    var c := cs[0];
    assert c in cs;
    Then(FirstChild(h, c, stk), FirstOver(h, cs[1..], stk))
  }

  function FirstChild(h: Hash, c: Child, stk: seq<PItem>): First
    requires stk != []
    decreases c, 2
  {
    match Step(stk[0], c.data)
    case None => Nothing
    case Some(items) => FirstBelow(h, c.sub, items + stk[1..])
  }

  /** What goes wrong, in terms of what is to be found: before the first hit, a hash at a level without an
      exact field has a first child below which there is nothing to be found, and a further child. */
  ghost predicate CrashBelow(h: Hash, t: Tree, stk: seq<PItem>)
    decreases t, 1
  {
    t.Inner? && stk != [] && t.buckets != [] &&
    if stk[0].pat != Any then
      var b := t.buckets[BucketOf(h, t, ExactToken(stk[0].pat))];
      var k := Find(b.nodes, ExactToken(stk[0].pat));
      k < |b.nodes| && CrashChild(h, b.nodes[k], stk)
    else if t.hashed then
      var n := NextBucket(t.buckets, 0);
      n < |t.buckets| &&
      var b := t.buckets[n];
      assert b in t.buckets;
      CrashChild(h, b.nodes[0], stk) || (HitsChild(b.nodes[0], stk) == [] && |Flat(t.buckets)| > 1)
    else
      var b := t.buckets[0];
      assert b in t.buckets;
      exists i :: 0 <= i < |b.nodes| && CrashChild(h, b.nodes[i], stk) && NoHits(b.nodes[..i], stk)
  }

  ghost predicate CrashChild(h: Hash, c: Child, stk: seq<PItem>)
    requires stk != []
    decreases c, 2
  {
    Step(stk[0], c.data).Some? && CrashBelow(h, c.sub, Step(stk[0], c.data).value + stk[1..])
  }

  predicate NoHits(cs: seq<Child>, stk: seq<PItem>)
    requires stk != []
  {
    forall i :: 0 <= i < |cs| ==> HitsChild(cs[i], stk) == []
  }

  // The outcome of the first call and what there is to be found.
  ghost predicate Tells(first: First, crash: bool, hits: seq<Tuple>) {
    && (first == Crash <==> crash)
    && (first == Nothing ==> hits == [])
    && (first == Hit ==> hits != [])
  }

  /** The first call goes wrong exactly in that case; otherwise it finds something if and only if there
      is something to be found. */
  lemma {:induction false} FirstTells(h: Hash, t: Tree, stk: seq<PItem>)
    requires StackOk(stk) && NodeOk(h, t, PTypes(stk))
    ensures Tells(FirstBelow(h, t, stk), CrashBelow(h, t, stk), HitsBelow(t, stk))
    decreases t, 1
  {
    if t.Inner? && stk != [] && t.buckets != [] {
      if stk[0].pat != Any {
        FirstTellsExact(h, t, stk);
      } else if t.hashed {
        FirstTellsHash(h, t, stk);
      } else {
        assert |t.buckets| == 1 by {
          var prefix, sig :| WF(h, t, PTypes(stk), prefix, sig);
        }
        var cs := t.buckets[0].nodes;
        assert HitsIn(t.buckets, stk) == HitsOver(cs, stk) by {
          assert t.buckets[1..] == [];
          assert HitsOver(cs, stk) + [] == HitsOver(cs, stk);
        }
        forall i | 0 <= i < |cs| ensures TellsChild(h, cs[i], stk) {
          FirstTellsChild(h, t, stk, 0, cs[i]);
        }
        FirstTellsOver(h, cs, stk);
      }
    }
  }

  ghost predicate TellsChild(h: Hash, c: Child, stk: seq<PItem>)
    requires stk != []
  {
    Tells(FirstChild(h, c, stk), CrashChild(h, c, stk), HitsChild(c, stk))
  }

  lemma {:induction false} FirstTellsChild(h: Hash, t: Tree, stk: seq<PItem>, b: nat, c: Child)
    requires t.Inner? && stk != [] && StackOk(stk) && NodeOk(h, t, PTypes(stk)) && b < |t.buckets| && c in t.buckets[b].nodes
    ensures TellsChild(h, c, stk)
    decreases t, 0, 0
  {
    if Step(stk[0], c.data).Some? {
      ChildNodeOk(h, t, stk, b, c);
      FirstTells(h, c.sub, Step(stk[0], c.data).value + stk[1..]);
    }
  }

  lemma ChildNodeOk(h: Hash, t: Tree, stk: seq<PItem>, b: nat, c: Child)
    requires stk != [] && StackOk(stk) && NodeOk(h, t, PTypes(stk)) && t.Inner?
    requires b < |t.buckets| && c in t.buckets[b].nodes && Step(stk[0], c.data).Some?
    ensures var r := Step(stk[0], c.data).value + stk[1..]; StackOk(r) && NodeOk(h, c.sub, PTypes(r)) && Alive(c.sub)
  {
    assert PTypes(stk)[0] == stk[0].ty;
    ChildOfNode(h, t, PTypes(stk), b, c);
    StepOk(stk, c.data);
  }

  lemma {:induction false} FirstTellsExact(h: Hash, t: Tree, stk: seq<PItem>)
    requires t.Inner? && stk != [] && t.buckets != [] && stk[0].pat != Any && StackOk(stk) && NodeOk(h, t, PTypes(stk))
    ensures Tells(FirstBelow(h, t, stk), CrashBelow(h, t, stk), HitsBelow(t, stk))
    decreases t, 0, 1
  {
    ExactIn(h, t, PTypes(stk), stk);
    var b := BucketOf(h, t, ExactToken(stk[0].pat));
    var k := Find(t.buckets[b].nodes, ExactToken(stk[0].pat));
    if k < |t.buckets[b].nodes| {
      FirstTellsChild(h, t, stk, b, t.buckets[b].nodes[k]);
    }
  }

  lemma {:induction false} FirstTellsHash(h: Hash, t: Tree, stk: seq<PItem>)
    requires t.Inner? && stk != [] && t.buckets != [] && stk[0].pat == Any && t.hashed && StackOk(stk) && NodeOk(h, t, PTypes(stk))
    ensures Tells(FirstBelow(h, t, stk), CrashBelow(h, t, stk), HitsBelow(t, stk))
    decreases t, 0, 1
  {
    var n := NextBucket(t.buckets, 0);
    SkipEmpty(t.buckets, 0);
    assert t.buckets[0..] == t.buckets;
    HitsFlat(t.buckets, stk);
    if n < |t.buckets| {
      var c := t.buckets[n].nodes[0];
      RestStep(t.buckets, n, 0);
      FirstTellsChild(h, t, stk, n, c);
      var p := NextPos(t.buckets, n, 0);
      var tl := if p.Some? then Rest(t.buckets, p.value.b, p.value.i) else [];
      assert Flat(t.buckets) == [c] + tl && ([c] + tl)[1..] == tl;
      assert p.Some? ==> tl != [];
    }
  }

  lemma {:induction false} FirstTellsOver(h: Hash, cs: seq<Child>, stk: seq<PItem>)
    requires stk != [] && forall i :: 0 <= i < |cs| ==> TellsChild(h, cs[i], stk)
    ensures Tells(FirstOver(h, cs, stk), CrashOver(h, cs, stk), HitsOver(cs, stk))
  {
    if cs != [] {
      FirstTellsOver(h, cs[1..], stk);
      assert TellsChild(h, cs[0], stk);
      CrashOverStep(h, cs, stk);
    }
  }

  ghost predicate CrashOver(h: Hash, cs: seq<Child>, stk: seq<PItem>)
    requires stk != []
  {
    exists i :: 0 <= i < |cs| && CrashChild(h, cs[i], stk) && NoHits(cs[..i], stk)
  }

  lemma CrashOverStep(h: Hash, cs: seq<Child>, stk: seq<PItem>)
    requires stk != [] && cs != []
    ensures CrashOver(h, cs, stk) <==> CrashChild(h, cs[0], stk) || (HitsChild(cs[0], stk) == [] && CrashOver(h, cs[1..], stk))
  {
    if CrashOver(h, cs, stk) {
      var i :| 0 <= i < |cs| && CrashChild(h, cs[i], stk) && NoHits(cs[..i], stk);
      if i > 0 {
        assert cs[..i][0] == cs[0] && cs[1..][i - 1] == cs[i];
        assert cs[1..][..i - 1] == cs[..i][1..];
      }
    }
    if CrashChild(h, cs[0], stk) {
      assert cs[..0] == [];
    } else if HitsChild(cs[0], stk) == [] && CrashOver(h, cs[1..], stk) {
      var i :| 0 <= i < |cs[1..]| && CrashChild(h, cs[1..][i], stk) && NoHits(cs[1..][..i], stk);
      assert cs[i + 1] == cs[1..][i] && cs[..i + 1] == [cs[0]] + cs[1..][..i];
    }
  }

  ghost function FirstAt(h: Hash, f: Frame): First
    requires FrameShape(f)
  {
    match f.pos
    case Down => FirstBelow(h, f.parent, f.stk)
    case At(b, i) => if f.parent.hashed then Crash else FirstOver(h, Rest(f.parent.buckets, b, i), f.stk)
  }

  ghost function FirstStack(h: Hash, fs: seq<Frame>): First
    requires FramesOk(h, fs)
  {
    if fs == [] then Nothing else Then(FirstAt(h, fs[0]), FirstStack(h, fs[1..]))
  }

  ghost function FirstChosen(h: Hash, ch: Option<Child>, stk: seq<PItem>): First
    requires stk != []
  {
    if ch.Some? then FirstChild(h, ch.value, stk) else Nothing
  }

  lemma ChooseFirst(h: Hash, f: Frame)
    requires FrameOk(h, f) && FramesOk(h, Choose(h, f).alt) && !(f.pos.At? && f.parent.hashed)
    ensures FirstAt(h, f) == Then(FirstChosen(h, Choose(h, f).child, f.stk), FirstStack(h, Choose(h, f).alt))
  {
    if f.stk[0].pat == Any && f.parent.hashed {
      var p := Here(f);
      var n := NextPos(f.parent.buckets, p.b, p.i);
      assert n.Some? ==> Choose(h, f).alt == [Frame(f.stk, f.parent, n.value)];
    } else if f.stk[0].pat == Any {
      ChooseFirstInChain(h, f);
    }
  }

  lemma ChooseFirstInChain(h: Hash, f: Frame)
    requires FrameOk(h, f) && FramesOk(h, Choose(h, f).alt) && !f.parent.hashed && f.stk[0].pat == Any
    ensures FirstAt(h, f) == Then(FirstChosen(h, Choose(h, f).child, f.stk), FirstStack(h, Choose(h, f).alt))
  {
    var bs := f.parent.buckets;
    assert |bs| == 1 by {
      var prefix, sig :| WF(h, f.parent, PTypes(f.stk), prefix, sig);
    }
    var p := Here(f);
    assert p.b == 0;
    var n := NextPos(bs, p.b, p.i);
    RestStep(bs, p.b, p.i);
    var tl := if n.Some? then Rest(bs, n.value.b, n.value.i) else [];
    assert Rest(bs, p.b, p.i)[0] == bs[p.b].nodes[p.i] && Rest(bs, p.b, p.i)[1..] == tl;
    assert FirstAt(h, f) == FirstOver(h, Rest(bs, p.b, p.i), f.stk) by {
      assert Rest(bs, 0, 0) == bs[0].nodes;
    }
    assert FirstStack(h, Choose(h, f).alt) == FirstOver(h, tl, f.stk) by {
      if n.Some? {
        assert Choose(h, f).alt == [Frame(f.stk, f.parent, n.value)];
      }
    }
  }

  // ------------------------------------------------------------------ one turn, over the whole stack

  lemma StackAppend(h: Hash, alt: seq<Frame>, cont: seq<Frame>)
    requires |alt| <= 1 && FramesOk(h, alt) && FramesOk(h, cont)
    ensures FramesOk(h, alt + cont)
    ensures HitsStack(h, alt + cont) == HitsStack(h, alt) + HitsStack(h, cont)
    ensures FirstStack(h, alt + cont) == Then(FirstStack(h, alt), FirstStack(h, cont))
    ensures WorkStack(h, alt + cont) == WorkStack(h, alt) + WorkStack(h, cont)
  {
    if alt == [] {
      assert alt + cont == cont;
    } else {
      assert (alt + cont)[1..] == cont && alt[1..] == [];
    }
  }

  // One turn keeps what is to be found, keeps the outcome of the first call, and leaves less work.
  lemma TurnHits(h: Hash, f: Frame, cont: seq<Frame>)
    requires FrameOk(h, f) && FramesOk(h, cont)
    ensures FramesOk(h, Choose(h, f).alt + cont)
    ensures HitsAt(f) + HitsStack(h, cont) == HitsChosen(Choose(h, f).child, f.stk) + HitsStack(h, Choose(h, f).alt + cont)
  {
    ChosenOk(h, f);
    ChooseHits(h, f);
    StackAppend(h, Choose(h, f).alt, cont);
    Associate(HitsChosen(Choose(h, f).child, f.stk), HitsStack(h, Choose(h, f).alt), HitsStack(h, cont));
  }

  lemma Associate(a: seq<Tuple>, b: seq<Tuple>, c: seq<Tuple>)
    ensures (a + b) + c == a + (b + c)
  {}

  lemma TurnWork(h: Hash, f: Frame, cont: seq<Frame>)
    requires FrameOk(h, f) && FramesOk(h, cont) && FramesOk(h, Choose(h, f).alt + cont)
    ensures (if Choose(h, f).child.Some? then Nodes(Choose(h, f).child.value.sub) else 0) + WorkStack(h, Choose(h, f).alt + cont)
            <= Work(f) + WorkStack(h, cont)
  {
    ChosenOk(h, f);
    ChooseWork(h, f);
    StackAppend(h, Choose(h, f).alt, cont);
  }

  lemma TurnFirst(h: Hash, f: Frame, cont: seq<Frame>)
    requires FrameOk(h, f) && FramesOk(h, cont) && FramesOk(h, Choose(h, f).alt + cont) && !(f.pos.At? && f.parent.hashed)
    ensures Then(FirstAt(h, f), FirstStack(h, cont))
            == Then(FirstChosen(h, Choose(h, f).child, f.stk), FirstStack(h, Choose(h, f).alt + cont))
  {
    ChosenOk(h, f);
    ChooseFirst(h, f);
    StackAppend(h, Choose(h, f).alt, cont);
  }

  // match_succeeded at an inner node: the search goes down.
  function Entered(f: Frame, c: Child): Frame
    requires f.stk != [] && Step(f.stk[0], c.data).Some?
  {
    Frame(Step(f.stk[0], c.data).value + f.stk[1..], c.sub, Down)
  }

  lemma EnterOk(h: Hash, f: Frame, c: Child)
    requires FrameOk(h, f) && Choose(h, f).child == Some(c) && c.sub.Inner?
    ensures Step(f.stk[0], c.data).Some? && FrameOk(h, Entered(f, c))
    ensures HitsAt(Entered(f, c)) == HitsChild(c, f.stk) && FirstAt(h, Entered(f, c)) == FirstChild(h, c, f.stk)
    ensures Work(Entered(f, c)) < Nodes(c.sub)
  {
    ChosenOk(h, f);
    StepOk(f.stk, c.data);
    var stk := Entered(f, c).stk;
    assert stk != [] by {
      var prefix, sig :| WF(h, c.sub, After(c.data, f.stk[0].ty) + PTypes(f.stk)[1..], prefix, sig);
      assert |PTypes(stk)| == |stk|;
    }
  }

  // match_succeeded at a leaf
  lemma LeafHits(h: Hash, f: Frame, c: Child)
    requires FrameOk(h, f) && Choose(h, f).child == Some(c) && c.sub.Leaf?
    ensures HitsChild(c, f.stk) == if c.sub.count == 0 then [] else [c.sub.tuple]
    ensures FirstChild(h, c, f.stk) == if c.sub.count == 0 then Nothing else Hit
  {
    ChosenOk(h, f);
  }

  // What a call of find_next has to find, and how it ends if it is the first.
  ghost predicate Owes(h: Hash, forceDown: bool, f: Frame, cont: seq<Frame>, hits: seq<Tuple>, first: First) {
    && FrameOk(h, f) && FramesOk(h, cont)
    && HitsAt(f) + HitsStack(h, cont) == hits
    && (forceDown ==> Then(FirstAt(h, f), FirstStack(h, cont)) == first)
  }

  lemma Enter(h: Hash, forceDown: bool, f: Frame, cont: seq<Frame>, hits: seq<Tuple>, first: First, c: Child)
    requires Owes(h, forceDown, f, cont, hits, first) && !(forceDown && f.pos.At? && f.parent.hashed)
    requires Choose(h, f).child == Some(c) && c.sub.Inner?
    ensures Step(f.stk[0], c.data).Some? && Owes(h, forceDown, Entered(f, c), Choose(h, f).alt + cont, hits, first)
    ensures Work(Entered(f, c)) + WorkStack(h, Choose(h, f).alt + cont) < Work(f) + WorkStack(h, cont)
  {
    TurnHits(h, f, cont);
    TurnWork(h, f, cont);
    EnterOk(h, f, c);
    if forceDown {
      TurnFirst(h, f, cont);
    }
  }

  lemma Land(h: Hash, forceDown: bool, f: Frame, cont: seq<Frame>, hits: seq<Tuple>, first: First, c: Child)
    requires Owes(h, forceDown, f, cont, hits, first) && !(forceDown && f.pos.At? && f.parent.hashed)
    requires Choose(h, f).child == Some(c) && c.sub.Leaf? && c.sub.count > 0
    ensures FramesOk(h, Choose(h, f).alt + cont) && hits == [c.sub.tuple] + HitsStack(h, Choose(h, f).alt + cont)
    ensures forceDown ==> first == Hit
  {
    TurnHits(h, f, cont);
    LeafHits(h, f, c);
    if forceDown {
      TurnFirst(h, f, cont);
    }
  }

  // try_again: with nothing below, or a leaf without references.
  lemma Retry(h: Hash, forceDown: bool, f: Frame, cont: seq<Frame>, hits: seq<Tuple>, first: First)
    requires Owes(h, forceDown, f, cont, hits, first) && !(forceDown && f.pos.At? && f.parent.hashed)
    requires Choose(h, f).child.Some? ==> Choose(h, f).child.value.sub.Leaf? && Choose(h, f).child.value.sub.count == 0
    ensures var rest := Choose(h, f).alt + cont;
            if rest == [] then hits == [] && (forceDown ==> first == Nothing)
            else && Owes(h, forceDown, rest[0], rest[1..], hits, first)
                 && (Work(rest[0]) + WorkStack(h, rest[1..]) < Work(f) + WorkStack(h, cont)
                     || (Work(rest[0]) + WorkStack(h, rest[1..]) <= Work(f) + WorkStack(h, cont) && |rest| == |cont|))
  {
    TurnHits(h, f, cont);
    TurnWork(h, f, cont);
    if Choose(h, f).child.Some? {
      LeafHits(h, f, Choose(h, f).child.value);
    }
    if forceDown {
      TurnFirst(h, f, cont);
    }
  }

  class SearchIterator {
    const h: Hash
    var cont: seq<Frame>
    var next: Option<Tuple>

    ghost predicate Valid()
      reads this
    {
      FramesOk(h, cont)
    }

    // The tuple the iterator is at, and those it will be at later.
    ghost function ToCome(): seq<Tuple>
      reads this
      requires Valid()
    {
      (if next.Some? then [next.value] else []) + HitsStack(h, cont)
    }

    constructor (h: Hash)
      ensures Valid() && this.h == h && cont == [] && next == None
    {
      this.h, cont, next := h, [], None;
    }

    // find_next: moves on to the first hit from a frame, or else from the continuation stack.
    method FindNext(frm: Frame, forceDown: bool) returns (crash: bool)
      requires Valid() && FrameOk(h, frm)
      modifies this
      ensures Valid()
      ensures !crash ==> ToCome() == HitsAt(frm) + HitsStack(h, old(cont))
      ensures !crash && next.None? ==> cont == []
      ensures crash <==> forceDown && Then(FirstAt(h, frm), FirstStack(h, old(cont))) == Crash
    {
      ghost var hits := HitsAt(frm) + HitsStack(h, cont);
      ghost var first := Then(FirstAt(h, frm), FirstStack(h, cont));
      var f := frm;
      while true
        invariant Owes(h, forceDown, f, cont, hits, first)
        decreases Work(f) + WorkStack(h, cont), |cont|
      {
        if forceDown && f.pos.At? && f.parent.hashed {
          return true;
        }
        var over;
        over, f := Turn(f, forceDown, hits, first);
        if over {
          return false;
        }
      }
    }

    // One turn: down into the child that is taken, on to a leaf, or back to the last alternative.
    method Turn(f: Frame, forceDown: bool, ghost hits: seq<Tuple>, ghost first: First) returns (over: bool, g: Frame)
      requires Owes(h, forceDown, f, cont, hits, first) && !(forceDown && f.pos.At? && f.parent.hashed)
      modifies this
      ensures over ==> Valid() && ToCome() == hits && (next.None? ==> cont == []) && (forceDown ==> first != Crash)
      ensures !over ==> Owes(h, forceDown, g, cont, hits, first)
      ensures !over ==> Work(g) + WorkStack(h, cont) < Work(f) + WorkStack(h, old(cont))
                        || (Work(g) + WorkStack(h, cont) <= Work(f) + WorkStack(h, old(cont)) && |cont| < |old(cont)|)
    {
      var ch := Choose(h, f);
      over, g := false, f;
      if ch.child.Some? && ch.child.value.sub.Inner? {
        Enter(h, forceDown, f, cont, hits, first, ch.child.value);
        g, cont := Entered(f, ch.child.value), ch.alt + cont;
      } else if ch.child.Some? && ch.child.value.sub.count > 0 {
        Land(h, forceDown, f, cont, hits, first, ch.child.value);
        over, cont, next := true, ch.alt + cont, Some(ch.child.value.sub.tuple);
      } else {
        Retry(h, forceDown, f, cont, hits, first);
        cont := ch.alt + cont;
        if cont == [] {
          over, next := true, None;
        } else {
          g, cont := cont[0], cont[1..];
        }
      }
    }

    // operator++
    method Increment()
      requires Valid()
      modifies this
      ensures Valid() && ToCome() == HitsStack(h, old(cont))
      ensures next.None? ==> cont == []
    {
      if cont == [] {
        next := None;
      } else {
        var frm := cont[0];
        cont := cont[1..];
        var crash := FindNext(frm, false);
      }
    }
  }
}
