/**
  Searching a trie with a pattern: find_next walks the tree with an explicit stack of continuation
  frames, jumps straight to a bucket for exact fields, and walks all children for the others.

  Its specification is the plain filter over the tuples (do_matches).  Structs cannot be searched:
  find_next does not pop a struct field that is not exact.
 */
module TrieSearch {
  import opened TrieValues
  import opened TrieTree
  import opened TrieOps
  import opened TrieGrow
  import opened TuplePatterns

  // ------------------------------------------------------------------ the match stack

  datatype PItem = PItem(ty: Type, pat: Pat)

  // Types without structs.
  predicate Plain(ty: Type) {
    match ty
    case TList(e) => Plain(e)
    case TStruct(_) => false
    case _ => true
  }

  predicate ItemOk(p: PItem) {
    Plain(p.ty) && PatFits(p.pat, p.ty)
  }

  predicate StackOk(stk: seq<PItem>) {
    forall i :: 0 <= i < |stk| ==> ItemOk(stk[i])
  }

  function PTypes(stk: seq<PItem>): (r: seq<Type>)
    ensures |r| == |stk| && forall i :: 0 <= i < |stk| ==> r[i] == stk[i].ty
  {
    seq(|stk|, i requires 0 <= i < |stk| => stk[i].ty)
  }

  // get_match_stack
  function MatchStack(sig: seq<Type>, m: seq<Pat>): (r: seq<PItem>)
    requires |sig| == |m|
    ensures |r| == |sig| && forall i :: 0 <= i < |r| ==> r[i] == PItem(sig[i], m[i])
  {
    seq(|sig|, i requires 0 <= i < |sig| => PItem(sig[i], m[i]))
  }

  // What replaces the top of the stack when a node with the token is taken, if it may be taken.
  function Step(p: PItem, tok: Token): (r: Option<seq<PItem>>)
    ensures r.Some? && ItemOk(p) && TokenFits(tok, p.ty) ==> StackOk(r.value) && PTypes(r.value) == After(tok, p.ty)
  {
    match p.pat
    case Any => if tok == ConsTok && p.ty.TList? then Some([PItem(p.ty.elem, Any), PItem(p.ty, Any)]) else Some([])
    case PInt(i) => if tok == IntTok(i) then Some([]) else None
    case PFloat(r) => if tok == FloatTok(r) then Some([]) else None
    case PNode(n) => if tok == NodeTok(n) then Some([]) else None
    case PNil => if tok == NilTok then Some([]) else None
    case PNonNil => if tok == ConsTok && p.ty.TList? then Some([PItem(p.ty.elem, Any), PItem(p.ty, Any)]) else None
    case PList(hd, tl) => if tok == ConsTok && p.ty.TList? then Some([PItem(p.ty.elem, hd), PItem(p.ty, tl)]) else None
  }

  // The one token an exact field matches.
  function ExactToken(p: Pat): Token
    requires p != Any
  {
    match p
    case PInt(i) => IntTok(i)
    case PFloat(r) => FloatTok(r)
    case PNode(n) => NodeTok(n)
    case PNil => NilTok
    case PNonNil => ConsTok
    case PList(_, _) => ConsTok
  }

  predicate StackMatches(pstk: seq<PItem>, vstk: seq<Item>) {
    |pstk| == |vstk| && forall i :: 0 <= i < |pstk| ==> Matches(pstk[i].pat, vstk[i].val)
  }

  /** Taking a node is right: the rest of the stack matches the rest of the values if and only if the
      whole stack matched them, and a node that cannot be taken is on no matching path. */
  lemma StepMatches(pstk: seq<PItem>, vstk: seq<Item>)
    requires pstk != [] && WellTyped(vstk) && PTypes(pstk) == Types(vstk) && StackOk(pstk)
    ensures var r := Step(pstk[0], TokenOf(vstk[0]));
            StackMatches(pstk, vstk) <==> r.Some? && StackMatches(r.value + pstk[1..], Pop(vstk))
  {
    assert |pstk| == |PTypes(pstk)| == |Types(vstk)| == |vstk|;
    assert pstk[0].ty == PTypes(pstk)[0] == Types(vstk)[0] == vstk[0].ty;
    var r := Step(pstk[0], TokenOf(vstk[0]));
    var top := vstk[0];
    if r.Some? {
      var e := Expand(top);
      StepTop(pstk[0], top);
      assert Pop(vstk) == e + vstk[1..];
      SplitMatches(r.value, pstk[1..], e, vstk[1..]);
      SplitMatches(pstk[..1], pstk[1..], vstk[..1], vstk[1..]);
      assert pstk == pstk[..1] + pstk[1..] && vstk == vstk[..1] + vstk[1..];
    } else {
      StepTop(pstk[0], top);
    }
  }

  lemma StepTop(p: PItem, it: Item)
    requires HasType(it.val, it.ty) && p.ty == it.ty && ItemOk(p)
    ensures var r := Step(p, TokenOf(it));
            && (Matches(p.pat, it.val) <==> r.Some? && StackMatches(r.value, Expand(it)))
            && (r.Some? ==> |r.value| == |Expand(it)|)
  {
    if it.val.VCons? && (p.pat.Any? || p.pat.PNonNil? || p.pat.PList?) {
      var r := Step(p, TokenOf(it)).value;
      assert |r| == 2 && Expand(it)[0].val == it.val.head && Expand(it)[1].val == it.val.tail;
      assert StackMatches(r, Expand(it)) <==> Matches(r[0].pat, it.val.head) && Matches(r[1].pat, it.val.tail);
    }
  }

  lemma SplitMatches(a: seq<PItem>, b: seq<PItem>, x: seq<Item>, y: seq<Item>)
    requires |a| == |x|
    ensures StackMatches(a + b, x + y) <==> StackMatches(a, x) && StackMatches(b, y)
  {
    if StackMatches(a + b, x + y) {
      assert forall i :: 0 <= i < |a| ==> (a + b)[i] == a[i] && (x + y)[i] == x[i];
      assert forall i :: 0 <= i < |b| ==> (a + b)[|a| + i] == b[i] && (x + y)[|a| + i] == y[i];
    }
  }

  // ------------------------------------------------------------------ the hits, in tree order

  function HitsBelow(t: Tree, stk: seq<PItem>): seq<Tuple>
    decreases t, 1
  {
    match t
    case Leaf(tup, n) => if n == 0 then [] else [tup]
    case Inner(_, bs, _) => if stk == [] then [] else HitsIn(bs, stk)
  }

  function HitsIn(bs: seq<Bucket>, stk: seq<PItem>): seq<Tuple>
    requires stk != []
    decreases bs, 0
  {
    if bs == [] then [] else HitsOver(bs[0].nodes, stk) + HitsIn(bs[1..], stk)
  }

  function HitsOver(cs: seq<Child>, stk: seq<PItem>): seq<Tuple>
    requires stk != []
    decreases cs, 0
  {
    if cs == [] then [] else
    var c := cs[0];
    assert c in cs;
    HitsChild(c, stk) + HitsOver(cs[1..], stk)
  }

  function HitsChild(c: Child, stk: seq<PItem>): seq<Tuple>
    requires stk != []
    decreases c, 2
  {
    match Step(stk[0], c.data)
    case None => []
    case Some(items) => HitsBelow(c.sub, items + stk[1..])
  }

  // ------------------------------------------------------------------ search against the filter

  // Times x is found.
  function Times(s: seq<Tuple>, x: Tuple): nat {
    if s == [] then 0 else (if s[0] == x then 1 else 0) + Times(s[1..], x)
  }

  lemma {:induction false} TimesAppend(a: seq<Tuple>, b: seq<Tuple>, x: Tuple)
    ensures Times(a + b, x) == Times(a, x) + Times(b, x)
  {
    if a == [] {
      assert a + b == b;
    } else {
      assert (a + b)[1..] == a[1..] + b;
      TimesAppend(a[1..], b, x);
    }
  }

  // Only what has references is found.
  lemma {:induction false} HitsLive(t: Tree, stk: seq<PItem>, x: Tuple)
    requires Count(t, RefsOf(x)) == 0
    ensures Times(HitsBelow(t, stk), x) == 0
    decreases t, 1
  {
    if t.Inner? && stk != [] {
      HitsLiveIn(t.buckets, stk, x);
    }
  }

  lemma {:induction false} HitsLiveIn(bs: seq<Bucket>, stk: seq<PItem>, x: Tuple)
    requires stk != [] && CountB(bs, RefsOf(x)) == 0
    ensures Times(HitsIn(bs, stk), x) == 0
    decreases bs, 0
  {
    if bs != [] {
      HitsLiveOver(bs[0].nodes, stk, x);
      HitsLiveIn(bs[1..], stk, x);
      TimesAppend(HitsOver(bs[0].nodes, stk), HitsIn(bs[1..], stk), x);
    }
  }

  lemma {:induction false} HitsLiveOver(cs: seq<Child>, stk: seq<PItem>, x: Tuple)
    requires stk != [] && CountC(cs, RefsOf(x)) == 0
    ensures Times(HitsOver(cs, stk), x) == 0
    decreases cs, 0
  {
    if cs != [] {
      var c := cs[0];
      assert c in cs;
      HitsLiveChild(c, stk, x);
      HitsLiveOver(cs[1..], stk, x);
      TimesAppend(HitsChild(c, stk), HitsOver(cs[1..], stk), x);
    }
  }

  lemma {:induction false} HitsLiveChild(c: Child, stk: seq<PItem>, x: Tuple)
    requires stk != [] && Count(c.sub, RefsOf(x)) == 0
    ensures Times(HitsChild(c, stk), x) == 0
    decreases c, 2
  {
    var r := Step(stk[0], c.data);
    if r.Some? {
      HitsLive(c.sub, r.value + stk[1..], x);
    }
  }

  // When one child, or one bucket, has all the references, the hits come from there.
  lemma {:induction false} HitsFromChild(cs: seq<Child>, k: nat, stk: seq<PItem>, x: Tuple)
    requires stk != [] && k < |cs| && forall i :: 0 <= i < |cs| && i != k ==> Count(cs[i].sub, RefsOf(x)) == 0
    ensures Times(HitsOver(cs, stk), x) == Times(HitsChild(cs[k], stk), x)
  {
    TimesAppend(HitsChild(cs[0], stk), HitsOver(cs[1..], stk), x);
    if k == 0 {
      OnlyChild(cs[1..], |cs|, RefsOf(x));
      HitsLiveOver(cs[1..], stk, x);
    } else {
      HitsLiveChild(cs[0], stk, x);
      HitsFromChild(cs[1..], k - 1, stk, x);
    }
  }

  lemma {:induction false} HitsFromBucket(bs: seq<Bucket>, b: nat, stk: seq<PItem>, x: Tuple)
    requires stk != [] && b < |bs| && forall i :: 0 <= i < |bs| && i != b ==> CountC(bs[i].nodes, RefsOf(x)) == 0
    ensures Times(HitsIn(bs, stk), x) == Times(HitsOver(bs[b].nodes, stk), x)
  {
    TimesAppend(HitsOver(bs[0].nodes, stk), HitsIn(bs[1..], stk), x);
    if b == 0 {
      NoBucket(bs[1..], RefsOf(x));
      HitsLiveIn(bs[1..], stk, x);
    } else {
      HitsLiveOver(bs[0].nodes, stk, x);
      HitsFromBucket(bs[1..], b - 1, stk, x);
    }
  }

  // At an inner node, a tuple is found through the child on its path and nowhere else.
  lemma HitsAtFound(h: Hash, t: Tree, types: seq<Type>, prefix: seq<Token>, sig: seq<Type>, tok: Token, stk: seq<PItem>, x: Tuple)
    requires WF(h, t, types, prefix, sig) && t.Inner? && stk != []
    requires TupleFits(sig, x) && prefix + [tok] <= Path(sig, x)
    ensures var cs := t.buckets[BucketOf(h, t, tok)].nodes;
            Times(HitsIn(t.buckets, stk), x) == if Find(cs, tok) < |cs| then Times(HitsChild(cs[Find(cs, tok)], stk), x) else 0
  {
    var b := BucketOf(h, t, tok);
    var k := Find(t.buckets[b].nodes, tok);
    forall i | 0 <= i < |t.buckets| && i != b ensures CountC(t.buckets[i].nodes, RefsOf(x)) == 0 {
      var cs := t.buckets[i].nodes;
      forall j | 0 <= j < |cs| ensures Count(cs[j].sub, RefsOf(x)) == 0 {
        assert cs[j] in cs;
        ZeroOffPath(h, cs[j], types, prefix, sig, tok, RefsOf(x));
      }
      OnlyChild(cs, |cs|, RefsOf(x));
    }
    HitsFromBucket(t.buckets, b, stk, x);
    var cs := t.buckets[b].nodes;
    forall j | 0 <= j < |cs| && j != k ensures Count(cs[j].sub, RefsOf(x)) == 0 {
      assert cs[j] in cs;
      ZeroOffPath(h, cs[j], types, prefix, sig, tok, RefsOf(x));
    }
    if k < |cs| {
      HitsFromChild(cs, k, stk, x);
    } else {
      OnlyChild(cs, k, RefsOf(x));
      HitsLiveOver(cs, stk, x);
    }
  }

  /** A tuple is found once if it has references and the stack matches the rest of its values, and
      otherwise not at all. */
  lemma {:induction false} HitsExact(h: Hash, t: Tree, pstk: seq<PItem>, vstk: seq<Item>, prefix: seq<Token>, sig: seq<Type>, x: Tuple)
    requires WellTyped(vstk) && PTypes(pstk) == Types(vstk) && StackOk(pstk)
    requires WF(h, t, Types(vstk), prefix, sig) && TupleFits(sig, x) && Path(sig, x) == prefix + Flatten(vstk)
    ensures Times(HitsBelow(t, pstk), x) == if StackMatches(pstk, vstk) && Count(t, RefsOf(x)) > 0 then 1 else 0
    decreases t
  {
    assert |pstk| == |PTypes(pstk)| == |Types(vstk)| == |vstk|;
    if Count(t, RefsOf(x)) == 0 {
      HitsLive(t, pstk, x);
    } else if t.Leaf? {
      assert t.tuple == x;
      assert [x][1..] == [];
    } else {
      HitsExactInner(h, t, pstk, vstk, prefix, sig, x);
    }
  }

  lemma {:induction false} HitsExactInner(h: Hash, t: Tree, pstk: seq<PItem>, vstk: seq<Item>, prefix: seq<Token>, sig: seq<Type>, x: Tuple)
    requires WellTyped(vstk) && PTypes(pstk) == Types(vstk) && StackOk(pstk) && t.Inner? && Count(t, RefsOf(x)) > 0
    requires WF(h, t, Types(vstk), prefix, sig) && TupleFits(sig, x) && Path(sig, x) == prefix + Flatten(vstk)
    ensures Times(HitsBelow(t, pstk), x) == if StackMatches(pstk, vstk) then 1 else 0
    decreases t, 0
  {
    assert |pstk| == |PTypes(pstk)| == |Types(vstk)| == |vstk|;
    StackStep(vstk);
    var tok := Flatten(vstk)[0];
    PathStep(prefix, Flatten(vstk), Path(sig, x));
    var c := ChildOnPath(h, t, Types(vstk), prefix, sig, tok, pstk, x);
    HitsExactChild(h, c, pstk, vstk, prefix, sig, x);
  }

  lemma ChildOnPath(h: Hash, t: Tree, types: seq<Type>, prefix: seq<Token>, sig: seq<Type>, tok: Token,
                    stk: seq<PItem>, x: Tuple)
    returns (c: Child)
    requires WF(h, t, types, prefix, sig) && t.Inner? && stk != [] && Count(t, RefsOf(x)) > 0
    requires TupleFits(sig, x) && prefix + [tok] <= Path(sig, x)
    ensures c.data == tok && c < t && ChildOk(h, c, types, prefix, sig) && Count(c.sub, RefsOf(x)) > 0
    ensures Times(HitsIn(t.buckets, stk), x) == Times(HitsChild(c, stk), x)
  {
    HitsAtFound(h, t, types, prefix, sig, tok, stk, x);
    CountAtFound(h, t, types, prefix, sig, tok, RefsOf(x));
    var b := t.buckets[BucketOf(h, t, tok)];
    c := b.nodes[Find(b.nodes, tok)];
    assert c in b.nodes && b in t.buckets;
  }

  lemma {:induction false} HitsExactChild(h: Hash, c: Child, pstk: seq<PItem>, vstk: seq<Item>,
                                          prefix: seq<Token>, sig: seq<Type>, x: Tuple)
    requires WellTyped(vstk) && vstk != [] && |pstk| == |vstk| && PTypes(pstk) == Types(vstk) && StackOk(pstk)
    requires ChildOk(h, c, Types(vstk), prefix, sig) && c.data == Flatten(vstk)[0] && Count(c.sub, RefsOf(x)) > 0
    requires TupleFits(sig, x) && Path(sig, x) == prefix + Flatten(vstk)
    ensures Times(HitsChild(c, pstk), x) == if StackMatches(pstk, vstk) then 1 else 0
    decreases c
  {
    StackStep(vstk);
    StepMatches(pstk, vstk);
    var r := Step(pstk[0], c.data);
    if r.Some? {
      StepOk(pstk, c.data);
      PathStep(prefix, Flatten(vstk), Path(sig, x));
      HitsExact(h, c.sub, r.value + pstk[1..], Pop(vstk), prefix + [c.data], sig, x);
    }
  }

  lemma StepOk(pstk: seq<PItem>, tok: Token)
    requires pstk != [] && StackOk(pstk) && TokenFits(tok, pstk[0].ty) && Step(pstk[0], tok).Some?
    ensures var r := Step(pstk[0], tok).value + pstk[1..]; StackOk(r) && PTypes(r) == After(tok, pstk[0].ty) + PTypes(pstk)[1..]
  {
    assert ItemOk(pstk[0]);
  }

  /** The hits of a whole search are the filter of the stored tuples, each once. */
  lemma SearchIsFilter(h: Hash, t: Tree, sig: seq<Type>, m: seq<Pat>, x: Tuple)
    requires WF(h, t, sig, [], sig) && MatchFits(m, sig) && (forall i :: 0 <= i < |sig| ==> Plain(sig[i]))
    requires TupleFits(sig, x)
    ensures Times(HitsBelow(t, MatchStack(sig, m)), x) == if MatchesAll(m, x) && Count(t, RefsOf(x)) > 0 then 1 else 0
  {
    var pstk, vstk := MatchStack(sig, m), Items(sig, x);
    assert PTypes(pstk) == Types(vstk) == sig;
    assert [] + Flatten(vstk) == Flatten(vstk);
    HitsExact(h, t, pstk, vstk, [], sig, x);
    assert StackMatches(pstk, vstk) <==> MatchesAll(m, x) by {
      forall i | 0 <= i < |m| ensures pstk[i].pat == m[i] && vstk[i].val == x[i] {}
    }
  }
}
