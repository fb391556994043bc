/**
  The tuple trie: a tree of tokens, the list of its leaves and the number of references.

  A deletion that takes the last reference only marks the leaf; committing it later removes the leaf
  and prunes its path.  In between, the tuple is pending.
 */
module TuplePatterns {
  import opened TrieValues

  // A field of a match: not exact, or an exact value; lists match by shape.
  datatype Pat =
    | Any
    | PInt(i: int)
    | PFloat(r: real)
    | PNode(n: nat)
    | PNil
    | PNonNil
    | PList(head: Pat, tail: Pat)

  predicate PatFits(p: Pat, ty: Type) {
    match p
    case Any => true
    case PInt(_) => ty == TInt
    case PFloat(_) => ty == TFloat
    case PNode(_) => ty == TNode
    case PNil => ty.TList?
    case PNonNil => ty.TList?
    case PList(hd, tl) => ty.TList? && PatFits(hd, ty.elem) && PatFits(tl, ty)
  }

  // do_rec_match, with the exact flag tested first.
  predicate Matches(p: Pat, v: Value) {
    match p
    case Any => true
    case PInt(i) => v == VInt(i)
    case PFloat(r) => v == VFloat(r)
    case PNode(n) => v == VNode(n)
    case PNil => v == VNil
    case PNonNil => v.VCons?
    case PList(hd, tl) => v.VCons? && Matches(hd, v.head) && Matches(tl, v.tail)
  }

  // do_matches
  predicate MatchesAll(m: seq<Pat>, tup: Tuple)
    requires |m| == |tup|
  {
    forall i :: 0 <= i < |m| ==> Matches(m[i], tup[i])
  }

  predicate MatchFits(m: seq<Pat>, sig: seq<Type>) {
    |m| == |sig| && forall i :: 0 <= i < |m| ==> PatFits(m[i], sig[i])
  }

  predicate ScalarPat(p: Pat) {
    p.PInt? || p.PFloat? || p.PNode?
  }

  function PatToken(p: Pat): Token
    requires ScalarPat(p)
  {
    match p
    case PInt(i) => IntTok(i)
    case PFloat(r) => FloatTok(r)
    case PNode(n) => NodeTok(n)
  }

  // The number of exact fields before the first field that is not.
  function ExactPrefix(m: seq<Pat>): (k: nat)
    ensures k <= |m| && (k < |m| ==> m[k] == Any)
    ensures forall i :: 0 <= i < k ==> m[i] != Any
  {
    if m == [] || m[0] == Any then 0 else 1 + ExactPrefix(m[1..])
  }

  function PatTokens(m: seq<Pat>): (r: seq<Token>)
    requires forall i :: 0 <= i < |m| ==> ScalarPat(m[i])
    ensures |r| == |m|
  {
    if m == [] then [] else [PatToken(m[0])] + PatTokens(m[1..])
  }

  predicate Begins(m: seq<Pat>, stk: seq<Item>) {
    |m| <= |stk| && forall i :: 0 <= i < |m| ==> Matches(m[i], stk[i].val)
  }

  lemma BeginsStep(m: seq<Pat>, stk: seq<Item>)
    requires m != [] && |m| <= |stk|
    ensures Begins(m, stk) <==> Matches(m[0], stk[0].val) && Begins(m[1..], stk[1..])
  {}

  lemma ScalarStep(p: Pat, stk: seq<Item>)
    requires stk != [] && WellTyped(stk) && ScalarPat(p) && PatFits(p, stk[0].ty)
    ensures Flatten(stk) == [TokenOf(stk[0])] + Flatten(stk[1..])
    ensures PatToken(p) == TokenOf(stk[0]) <==> Matches(p, stk[0].val)
  {
    assert Expand(stk[0]) == [] && Pop(stk) == stk[1..];
  }

  /** A path begins with the tokens of scalar patterns if and only if the first values match them. */
  lemma {:induction false} PathBegins(m: seq<Pat>, stk: seq<Item>)
    requires WellTyped(stk) && |m| <= |stk|
    requires forall i :: 0 <= i < |m| ==> ScalarPat(m[i]) && PatFits(m[i], stk[i].ty)
    ensures PatTokens(m) <= Flatten(stk) <==> Begins(m, stk)
  {
    if m != [] {
      BeginsStep(m, stk);
      ScalarStep(m[0], stk);
      PathBegins(m[1..], stk[1..]);
      PrefixStep(PatToken(m[0]), PatTokens(m[1..]), TokenOf(stk[0]), Flatten(stk[1..]));
    }
  }

  lemma PrefixStep(a: Token, xs: seq<Token>, b: Token, ys: seq<Token>)
    ensures [a] + xs <= [b] + ys <==> a == b && xs <= ys
  {
    if [a] + xs <= [b] + ys {
      assert ([a] + xs)[0] == ([b] + ys)[0];
      forall i | 0 <= i < |xs| ensures xs[i] == ys[i] {
        assert ([a] + xs)[i + 1] == ([b] + ys)[i + 1];
      }
    }
  }
}

module TupleTries {
  import opened TrieValues
  import opened TrieTree
  import opened TrieOps
  import opened TrieGrow
  import opened TriePrune
  import opened TuplePatterns

  // ------------------------------------------------------------------ the tree as a multiset

  // The leaves of a tree, or its references.
  datatype View = Slots | Refs

  function Ask(v: View, x: Tuple): Query {
    if v == Slots then SlotsOf(x) else RefsOf(x)
  }

  ghost function Bag(t: Tree, v: View): multiset<Tuple>
    decreases t, 1
  {
    match t
    case Leaf(x, n) => multiset{}[x := if v == Slots then 1 else n]
    case Inner(_, bs, _) => BagB(bs, v)
  }

  ghost function BagB(bs: seq<Bucket>, v: View): multiset<Tuple>
    decreases bs, 0
  {
    if bs == [] then multiset{} else BagC(bs[0].nodes, v) + BagB(bs[1..], v)
  }

  ghost function BagC(cs: seq<Child>, v: View): multiset<Tuple>
    decreases cs, 0
  {
    if cs == [] then multiset{} else
    var c := cs[0];
    assert c in cs && c.sub < c;
    Bag(c.sub, v) + BagC(cs[1..], v)
  }

  /** What is counted in a tree, tuple by tuple and in total, is what its multiset holds. */
  lemma {:induction false} BagOk(t: Tree, v: View, x: Tuple)
    ensures Bag(t, v)[x] == Count(t, Ask(v, x)) && |Bag(t, Refs)| == Count(t, AllRefs)
    decreases t, 1
  {
    if t.Inner? {
      BagBOk(t.buckets, v, x);
    }
  }

  lemma {:induction false} BagBOk(bs: seq<Bucket>, v: View, x: Tuple)
    ensures BagB(bs, v)[x] == CountB(bs, Ask(v, x)) && |BagB(bs, Refs)| == CountB(bs, AllRefs)
    decreases bs, 0
  {
    if bs != [] {
      BagCOk(bs[0].nodes, v, x);
      BagBOk(bs[1..], v, x);
    }
  }

  lemma {:induction false} BagCOk(cs: seq<Child>, v: View, x: Tuple)
    ensures BagC(cs, v)[x] == CountC(cs, Ask(v, x)) && |BagC(cs, Refs)| == CountC(cs, AllRefs)
    decreases cs, 0
  {
    if cs != [] {
      var c := cs[0];
      assert c in cs && c.sub < c;
      BagOk(c.sub, v, x);
      BagCOk(cs[1..], v, x);
    }
  }

  // ------------------------------------------------------------------ the operations at the root

  ghost predicate RootOk(h: Hash, t: Tree, sig: seq<Type>) {
    t == EMPTY || WF(h, t, sig, [], sig)
  }

  lemma EmptyCounts(q: Query)
    ensures Count(EMPTY, q) == 0
  {
    assert CountB([Bucket([])], q) == CountC([], q) + CountB([], q);
  }

  lemma RootLookup(h: Hash, t: Tree, sig: seq<Type>, x: Tuple)
    requires RootOk(h, t, sig) && TupleFits(sig, x)
    ensures var r := Lookup(h, t, Path(sig, x));
            && Count(t, SlotsOf(x)) == (if r.Some? then 1 else 0)
            && Count(t, RefsOf(x)) == (if r.Some? then r.value else 0)
  {
    EmptyCounts(SlotsOf(x));
    EmptyCounts(RefsOf(x));
    assert [] + Path(sig, x) == Path(sig, x);
    if t != EMPTY {
      LookupExact(h, t, sig, [], sig, Path(sig, x), x);
    }
  }

  lemma RootForeign(h: Hash, t: Tree, sig: seq<Type>, q: Query)
    requires RootOk(h, t, sig) && !q.AllRefs? && !TupleFits(sig, q.tuple)
    ensures Count(t, q) == 0
  {
    EmptyCounts(q);
    if Count(t, q) > 0 {
      CountedBelow(h, t, sig, [], sig, q);
    }
  }

  // check_insert when the tuple has no leaf
  function Planted(h: Hash, t: Tree, sig: seq<Type>, tup: Tuple): Tree
    requires TupleFits(sig, tup)
  {
    if sig == [] then Leaf(tup, 1) else Graft(h, t, Path(sig, tup), tup)
  }

  lemma RootPlanted(h: Hash, t: Tree, sig: seq<Type>, tup: Tuple, q: Query)
    requires RootOk(h, t, sig) && TupleFits(sig, tup) && Lookup(h, t, Path(sig, tup)).None?
    ensures RootOk(h, Planted(h, t, sig, tup), sig) && Count(Planted(h, t, sig, tup), q) == Count(t, q) + One(q, tup)
  {
    var stk := Items(sig, tup);
    assert Types(stk) == sig;
    assert [] + Flatten(stk) == Flatten(stk);
    if sig == [] {
      EmptyCounts(q);
      assert t == EMPTY;
    } else {
      GraftOk(h, t, stk, [], sig, tup, q);
    }
  }

  lemma RootSet(h: Hash, t: Tree, sig: seq<Type>, tup: Tuple, n: nat, q: Query)
    requires RootOk(h, t, sig) && TupleFits(sig, tup) && Lookup(h, t, Path(sig, tup)).Some?
    ensures RootOk(h, SetCount(h, t, Path(sig, tup), n), sig)
    ensures Count(SetCount(h, t, Path(sig, tup), n), q) ==
              match q
              case SlotsOf(_) => Count(t, q)
              case RefsOf(x) => if x == tup then n else Count(t, q)
              case AllRefs => Count(t, q) - Count(t, RefsOf(tup)) + n
  {
    RootLookup(h, t, sig, tup);
    assert [] + Path(sig, tup) == Path(sig, tup);
    SetCountWF(h, t, sig, [], sig, Path(sig, tup), n);
    SetCountOk(h, t, sig, [], sig, Path(sig, tup), tup, n, q);
  }

  function Pruned(h: Hash, t: Tree, toks: seq<Token>): Tree {
    match CutAt(h, t, toks)
    case None => EMPTY
    case Some(s) => s
  }

  lemma RootPruned(h: Hash, t: Tree, sig: seq<Type>, toks: seq<Token>, q: Query)
    requires RootOk(h, t, sig)
    ensures RootOk(h, Pruned(h, t, toks), sig)
    ensures Count(Pruned(h, t, toks), q) == Count(t, q) - CountAt(h, t, toks, q)
    ensures !q.AllRefs? && TupleFits(sig, q.tuple) ==> CountAt(h, t, toks, q) == if toks <= Path(sig, q.tuple) then Count(t, q) else 0
  {
    EmptyCounts(q);
    assert [] + toks == toks;
    if WF(h, t, sig, [], sig) {
      CutWF(h, t, sig, [], sig, toks);
      CutCount(h, t, sig, [], sig, toks, q);
      if !q.AllRefs? && TupleFits(sig, q.tuple) {
        CountAtExact(h, t, sig, [], sig, toks, q);
      }
    }
  }

  // ------------------------------------------------------------------ the leaf list

  function Keep(xs: seq<Tuple>, p: Tuple -> bool): seq<Tuple> {
    if xs == [] then [] else (if p(xs[0]) then [xs[0]] else []) + Keep(xs[1..], p)
  }

  lemma {:induction false} KeepCount(xs: seq<Tuple>, p: Tuple -> bool, x: Tuple)
    ensures multiset(Keep(xs, p))[x] == if p(x) then multiset(xs)[x] else 0
  {
    if xs != [] {
      KeepCount(xs[1..], p, x);
      assert xs == [xs[0]] + xs[1..];
    }
  }

  lemma {:induction false} KeepAll(xs: seq<Tuple>, p: Tuple -> bool)
    requires forall x :: x in xs ==> p(x)
    ensures Keep(xs, p) == xs
  {
    if xs != [] {
      assert xs == [xs[0]] + xs[1..];
      KeepAll(xs[1..], p);
    }
  }

  // ------------------------------------------------------------------ what the operations do to the multisets

  lemma EmptyBags(v: View)
    ensures Bag(EMPTY, v) == multiset{}
  {
    assert BagB([Bucket([])], v) == BagC([], v) + BagB([], v);
  }

  // What a walk along the path of a tuple tells.
  lemma Walked(h: Hash, root: Tree, sig: seq<Type>, x: Tuple)
    requires RootOk(h, root, sig) && TupleFits(sig, x)
    ensures var r := Lookup(h, root, Path(sig, x));
            && Bag(root, Slots)[x] == (if r.Some? then 1 else 0)
            && Bag(root, Refs)[x] == (if r.Some? then r.value else 0)
  {
    RootLookup(h, root, sig, x);
    BagOk(root, Slots, x);
    BagOk(root, Refs, x);
  }

  lemma Bounded(h: Hash, root: Tree, sig: seq<Type>, x: Tuple)
    requires RootOk(h, root, sig)
    ensures Bag(root, Slots)[x] <= 1 && (x in Bag(root, Refs) ==> x in Bag(root, Slots))
    ensures x in Bag(root, Slots) ==> TupleFits(sig, x)
  {
    if TupleFits(sig, x) {
      Walked(h, root, sig, x);
    } else {
      BagOk(root, Slots, x);
      BagOk(root, Refs, x);
      RootForeign(h, root, sig, SlotsOf(x));
      RootForeign(h, root, sig, RefsOf(x));
    }
  }

  lemma PlantedBags(h: Hash, root: Tree, sig: seq<Type>, tup: Tuple, v: View)
    requires RootOk(h, root, sig) && TupleFits(sig, tup) && Lookup(h, root, Path(sig, tup)).None?
    ensures var r := Planted(h, root, sig, tup); RootOk(h, r, sig) && Bag(r, v) == Bag(root, v) + multiset{tup}
  {
    RootPlanted(h, root, sig, tup, AllRefs);
    forall x ensures Count(Planted(h, root, sig, tup), Ask(v, x)) == Count(root, Ask(v, x)) + (if x == tup then 1 else 0) {
      RootPlanted(h, root, sig, tup, Ask(v, x));
    }
    BagPlus(root, Planted(h, root, sig, tup), v, tup);
  }

  lemma BagPlus(t: Tree, r: Tree, v: View, tup: Tuple)
    requires forall x :: Count(r, Ask(v, x)) == Count(t, Ask(v, x)) + (if x == tup then 1 else 0)
    ensures Bag(r, v) == Bag(t, v) + multiset{tup}
  {
    forall x ensures Bag(r, v)[x] == (Bag(t, v) + multiset{tup})[x] {
      BagOk(t, v, x);
      BagOk(r, v, x);
    }
  }

  // add_new or sub at an existing leaf
  lemma RecountedBags(h: Hash, root: Tree, sig: seq<Type>, tup: Tuple, n: nat)
    requires RootOk(h, root, sig) && TupleFits(sig, tup) && Lookup(h, root, Path(sig, tup)).Some?
    ensures var r := SetCount(h, root, Path(sig, tup), n);
            RootOk(h, r, sig) && Bag(r, Slots) == Bag(root, Slots) && Bag(r, Refs) == Bag(root, Refs)[tup := n]
  {
    var r := SetCount(h, root, Path(sig, tup), n);
    RootSet(h, root, sig, tup, n, AllRefs);
    forall x ensures Bag(r, Slots)[x] == Bag(root, Slots)[x] {
      BagOk(root, Slots, x);
      BagOk(r, Slots, x);
      RootSet(h, root, sig, tup, n, SlotsOf(x));
    }
    forall x ensures Bag(r, Refs)[x] == Bag(root, Refs)[tup := n][x] {
      BagOk(root, Refs, x);
      BagOk(r, Refs, x);
      RootSet(h, root, sig, tup, n, RefsOf(x));
    }
  }

  // delete_branch and delete_path: the leaves below the path go.
  lemma PrunedBags(h: Hash, root: Tree, sig: seq<Type>, toks: seq<Token>, p: Tuple -> bool)
    requires RootOk(h, root, sig)
    requires forall x :: TupleFits(sig, x) ==> (p(x) <==> !(toks <= Path(sig, x)))
    ensures var r := Pruned(h, root, toks);
            && RootOk(h, r, sig)
            && |Bag(r, Refs)| == |Bag(root, Refs)| - CountAt(h, root, toks, AllRefs)
            && (forall v, x :: Bag(r, v)[x] == if p(x) then Bag(root, v)[x] else 0)
  {
    var r := Pruned(h, root, toks);
    BagOk(root, Refs, []);
    BagOk(r, Refs, []);
    RootPruned(h, root, sig, toks, AllRefs);
    forall v, x ensures Bag(r, v)[x] == if p(x) then Bag(root, v)[x] else 0 {
      PrunedBag(h, root, sig, toks, p, v, x);
    }
  }

  lemma PrunedBag(h: Hash, root: Tree, sig: seq<Type>, toks: seq<Token>, p: Tuple -> bool, v: View, x: Tuple)
    requires RootOk(h, root, sig) && (TupleFits(sig, x) ==> (p(x) <==> !(toks <= Path(sig, x))))
    ensures Bag(Pruned(h, root, toks), v)[x] == if p(x) then Bag(root, v)[x] else 0
  {
    var r := Pruned(h, root, toks);
    BagOk(root, v, x);
    BagOk(r, v, x);
    RootPruned(h, root, sig, toks, Ask(v, x));
    if !TupleFits(sig, x) {
      RootForeign(h, root, sig, Ask(v, x));
      RootForeign(h, r, sig, Ask(v, x));
    }
  }

  // ------------------------------------------------------------------ the steps of the operations

  // The walk of check_insert: the count at the leaf, if there is one.
  method Walk(h: Hash, root: Tree, sig: seq<Type>, tup: Tuple) returns (at: Option<nat>)
    requires RootOk(h, root, sig) && TupleFits(sig, tup)
    ensures at.Some? <==> tup in Bag(root, Slots)
    ensures Bag(root, Refs)[tup] == if at.Some? then at.value else 0
  {
    Walked(h, root, sig, tup);
    at := Lookup(h, root, Path(sig, tup));
  }

  method Plant(h: Hash, root: Tree, sig: seq<Type>, tup: Tuple) returns (r: Tree)
    requires RootOk(h, root, sig) && TupleFits(sig, tup) && tup !in Bag(root, Slots)
    ensures RootOk(h, r, sig)
    ensures Bag(r, Slots) == Bag(root, Slots) + multiset{tup} && Bag(r, Refs) == Bag(root, Refs) + multiset{tup}
    ensures r == Planted(h, root, sig, tup)
  {
    Walked(h, root, sig, tup);
    PlantedBags(h, root, sig, tup, Slots);
    PlantedBags(h, root, sig, tup, Refs);
    r := Planted(h, root, sig, tup);
  }

  method Recount(h: Hash, root: Tree, sig: seq<Type>, tup: Tuple, n: nat) returns (r: Tree)
    requires RootOk(h, root, sig) && TupleFits(sig, tup) && tup in Bag(root, Slots)
    ensures RootOk(h, r, sig) && Bag(r, Slots) == Bag(root, Slots) && Bag(r, Refs) == Bag(root, Refs)[tup := n]
  {
    Walked(h, root, sig, tup);
    RecountedBags(h, root, sig, tup, n);
    r := SetCount(h, root, Path(sig, tup), n);
  }

  // delete_path from a leaf
  method Uproot(h: Hash, root: Tree, sig: seq<Type>, tup: Tuple) returns (r: Tree)
    requires RootOk(h, root, sig) && TupleFits(sig, tup) && tup !in Bag(root, Refs)
    ensures RootOk(h, r, sig) && Bag(r, Slots) == Bag(root, Slots)[tup := 0] && Bag(r, Refs) == Bag(root, Refs)
  {
    forall x | TupleFits(sig, x) ensures Other(tup)(x) <==> !(Path(sig, tup) <= Path(sig, x)) {
      PathIdentifiesTuple(sig, tup, x);
    }
    ghost var gone;
    r, gone := PruneAt(h, root, sig, Path(sig, tup), Other(tup));
    WithoutOne(Bag(root, Slots), Bag(r, Slots), tup);
    WithoutOne(Bag(root, Refs), Bag(r, Refs), tup);
  }

  lemma WithoutOne(bag: multiset<Tuple>, bag': multiset<Tuple>, tup: Tuple)
    requires forall x :: bag'[x] == if Other(tup)(x) then bag[x] else 0
    ensures bag' == bag[tup := 0] && (tup !in bag ==> bag' == bag)
  {}

  // delete_branch and delete_path from any node
  method PruneAt(h: Hash, root: Tree, sig: seq<Type>, toks: seq<Token>, ghost p: Tuple -> bool) returns (r: Tree, gone: nat)
    requires RootOk(h, root, sig)
    requires forall x :: TupleFits(sig, x) ==> (p(x) <==> !(toks <= Path(sig, x)))
    ensures RootOk(h, r, sig) && |Bag(r, Refs)| == |Bag(root, Refs)| - gone
    ensures forall x :: Bag(r, Slots)[x] == if p(x) then Bag(root, Slots)[x] else 0
    ensures forall x :: Bag(r, Refs)[x] == if p(x) then Bag(root, Refs)[x] else 0
  {
    PrunedBags(h, root, sig, toks, p);
    r, gone := Pruned(h, root, toks), CountAt(h, root, toks, AllRefs);
  }

  // inner_delete_by_leaf: a leaf without references goes, from the tree and from the list.
  method Settle(h: Hash, root: Tree, sig: seq<Type>, leaves: seq<Tuple>, tup: Tuple) returns (r: Tree, rest: seq<Tuple>)
    requires RootOk(h, root, sig) && tup in Bag(root, Slots)
    ensures RootOk(h, r, sig) && Bag(r, Refs) == Bag(root, Refs)
    ensures Bag(r, Slots) == if tup in Bag(root, Refs) then Bag(root, Slots) else Bag(root, Slots)[tup := 0]
    ensures rest == if tup in Bag(root, Refs) then leaves else Keep(leaves, Other(tup))
  {
    Bounded(h, root, sig, tup);
    var at := Walk(h, root, sig, tup);
    r, rest := root, leaves;
    if at == Some(0) {
      r := Uproot(h, root, sig, tup);
      rest := Keep(leaves, Other(tup));
    }
  }

  lemma OneLess(bag: multiset<Tuple>, tup: Tuple)
    ensures bag[tup := if bag[tup] == 0 then 0 else bag[tup] - 1] == bag - multiset{tup}
  {}

  // sub, and the leaf goes with the last reference.
  method Release(h: Hash, root: Tree, sig: seq<Type>, leaves: seq<Tuple>, tup: Tuple) returns (r: Tree, rest: seq<Tuple>)
    requires RootOk(h, root, sig) && tup in Bag(root, Slots)
    ensures RootOk(h, r, sig) && Bag(r, Refs) == Bag(root, Refs) - multiset{tup}
    ensures Bag(r, Slots) == if tup in Bag(r, Refs) then Bag(root, Slots) else Bag(root, Slots)[tup := 0]
    ensures rest == if tup in Bag(r, Refs) then leaves else Keep(leaves, Other(tup))
  {
    Bounded(h, root, sig, tup);
    var at := Walk(h, root, sig, tup);
    OneLess(Bag(root, Refs), tup);
    var n := if at.value == 0 then 0 else at.value - 1;
    var s := Recount(h, root, sig, tup, n);
    assert Bag(s, Refs) == Bag(root, Refs) - multiset{tup};
    r, rest := Settle(h, s, sig, leaves, tup);
  }

  // ------------------------------------------------------------------ the books

  // The leaf list is the leaves of the tree, references are exact up to deletions that are not
  // committed, and only these have leaves without references.
  ghost predicate Tally(slots: multiset<Tuple>, bag: multiset<Tuple>, refs: int, leaves: seq<Tuple>, pending: multiset<Tuple>) {
    && multiset(leaves) == slots
    && refs == |bag| + |pending|
    && (forall x :: x in pending ==> x in slots)
    && (forall x :: x in slots && x !in bag ==> x in pending)
  }

  function Other(tup: Tuple): Tuple -> bool {
    x => x != tup
  }

  lemma TallyNew(slots: multiset<Tuple>, bag: multiset<Tuple>, refs: int, leaves: seq<Tuple>, pending: multiset<Tuple>, tup: Tuple)
    requires Tally(slots, bag, refs, leaves, pending)
    ensures Tally(slots + multiset{tup}, bag + multiset{tup}, refs + 1, leaves + [tup], pending)
  {}

  lemma TallyAgain(slots: multiset<Tuple>, bag: multiset<Tuple>, refs: int, leaves: seq<Tuple>, pending: multiset<Tuple>, tup: Tuple)
    requires Tally(slots, bag, refs, leaves, pending) && tup in slots
    ensures bag[tup := bag[tup] + 1] == bag + multiset{tup}
    ensures Tally(slots, bag + multiset{tup}, refs + 1, leaves, pending)
  {}

  lemma TallyKeep(slots: multiset<Tuple>, bag: multiset<Tuple>, refs: int, leaves: seq<Tuple>, pending: multiset<Tuple>, tup: Tuple)
    requires Tally(slots, bag, refs, leaves, pending) && bag[tup] > 1
    ensures bag[tup := bag[tup] - 1] == bag - multiset{tup}
    ensures Tally(slots, bag - multiset{tup}, refs - 1, leaves, pending)
  {
    assert |bag - multiset{tup}| == |bag| - 1;
  }

  lemma InList(leaves: seq<Tuple>, slots: multiset<Tuple>, tup: Tuple)
    requires multiset(leaves) == slots
    ensures tup in leaves <==> tup in slots
  {}

  lemma Unchanged(bag: multiset<Tuple>, tup: Tuple)
    requires tup !in bag
    ensures bag - multiset{tup} == bag
  {}

  // A deletion of a tuple without references is counted twice.
  lemma TallyMark(slots: multiset<Tuple>, bag: multiset<Tuple>, refs: int, leaves: seq<Tuple>, pending: multiset<Tuple>, tup: Tuple)
    requires Tally(slots, bag, refs, leaves, pending) && tup in slots && bag[tup] <= 1
    ensures bag[tup := 0] == bag - multiset{tup}
    ensures Tally(slots, bag - multiset{tup}, refs, leaves, pending + multiset{tup}) <==> tup in bag
  {
    assert tup in bag ==> |bag - multiset{tup}| == |bag| - 1;
    assert tup !in bag ==> bag - multiset{tup} == bag;
  }

  lemma LeafGone(slots: multiset<Tuple>, leaves: seq<Tuple>, tup: Tuple)
    requires multiset(leaves) == slots
    ensures multiset(Keep(leaves, Other(tup))) == slots[tup := 0]
  {
    forall x ensures multiset(Keep(leaves, Other(tup)))[x] == slots[tup := 0][x] {
      KeepCount(leaves, Other(tup), x);
    }
  }

  lemma TallyCommit(slots: multiset<Tuple>, bag: multiset<Tuple>, refs: int, leaves: seq<Tuple>, pending: multiset<Tuple>, tup: Tuple)
    requires Tally(slots, bag, refs, leaves, pending) && tup in pending
    ensures tup in bag ==> Tally(slots, bag, refs - 1, leaves, pending - multiset{tup})
    ensures tup !in bag ==>
              (Tally(slots[tup := 0], bag, refs - 1, Keep(leaves, Other(tup)), pending - multiset{tup}) <==> pending[tup] == 1)
  {
    assert |pending - multiset{tup}| == |pending| - 1;
    LeafGone(slots, leaves, tup);
    assert pending[tup] > 1 ==> tup in pending - multiset{tup};
  }

  // A reference goes, and with the last one the leaf.
  lemma TallyLeaf(slots: multiset<Tuple>, bag: multiset<Tuple>, refs: int, leaves: seq<Tuple>, pending: multiset<Tuple>, tup: Tuple,
                  slots': multiset<Tuple>, bag': multiset<Tuple>, rest: seq<Tuple>)
    requires Tally(slots, bag, refs, leaves, pending) && tup in slots && bag' == bag - multiset{tup}
    requires slots' == if tup in bag' then slots else slots[tup := 0]
    requires rest == if tup in bag' then leaves else Keep(leaves, Other(tup))
    ensures Tally(slots', bag', refs - 1, rest, pending) <==> tup in bag' || tup !in pending
  {
    LeafGone(slots, leaves, tup);
    assert tup in bag ==> |bag'| == |bag| - 1;
  }

  lemma TallyCut(slots: multiset<Tuple>, bag: multiset<Tuple>, refs: int, leaves: seq<Tuple>, pending: multiset<Tuple>, p: Tuple -> bool,
                 slots': multiset<Tuple>, bag': multiset<Tuple>)
    requires Tally(slots, bag, refs, leaves, pending)
    requires forall x :: slots'[x] == if p(x) then slots[x] else 0
    requires forall x :: bag'[x] == if p(x) then bag[x] else 0
    ensures Tally(slots', bag', refs - (|bag| - |bag'|), Keep(leaves, p), pending) <==> forall x :: x in pending ==> p(x)
  {
    forall x ensures multiset(Keep(leaves, p))[x] == slots'[x] {
      KeepCount(leaves, p, x);
    }
    assert multiset(Keep(leaves, p)) == slots';
  }

  method PruneLeaves(h: Hash, root: Tree, sig: seq<Type>, refs: int, leaves: seq<Tuple>, ghost pending: multiset<Tuple>, m: seq<Pat>)
    returns (r: Tree, gone: nat)
    requires RootOk(h, root, sig) && Tally(Bag(root, Slots), Bag(root, Refs), refs, leaves, pending)
    requires MatchFits(m, sig) && ScalarPrefix(m) == ExactPrefix(m)
    ensures RootOk(h, r, sig) && gone == |Bag(root, Refs)| - |Bag(r, Refs)|
    ensures Without(Bag(root, Refs), Bag(r, Refs), m, sig)
    ensures Tally(Bag(r, Slots), Bag(r, Refs), refs - gone, Keep(leaves, Miss(m, sig)), pending) <==> Spared(pending, m, sig)
  {
    r, gone := PruneIndex(h, root, sig, m);
    TallyCut(Bag(root, Slots), Bag(root, Refs), refs, leaves, pending, Miss(m, sig), Bag(r, Slots), Bag(r, Refs));
  }

  ghost predicate Without(bag: multiset<Tuple>, bag': multiset<Tuple>, m: seq<Pat>, sig: seq<Type>) {
    forall x :: bag'[x] == if Hit(m, sig, x) then 0 else bag[x]
  }

  ghost predicate Spared(pending: multiset<Tuple>, m: seq<Pat>, sig: seq<Type>) {
    forall x :: x in pending ==> !Hit(m, sig, x)
  }

  method ReleaseLeaf(h: Hash, root: Tree, sig: seq<Type>, refs: int, leaves: seq<Tuple>, ghost pending: multiset<Tuple>, tup: Tuple)
    returns (r: Tree, rest: seq<Tuple>)
    requires RootOk(h, root, sig) && Tally(Bag(root, Slots), Bag(root, Refs), refs, leaves, pending) && tup in leaves
    ensures RootOk(h, r, sig) && Bag(r, Refs) == Bag(root, Refs) - multiset{tup}
    ensures rest == if tup in Bag(r, Refs) then leaves else Keep(leaves, Other(tup))
    ensures Tally(Bag(r, Slots), Bag(r, Refs), refs - 1, rest, pending) <==> tup in Bag(r, Refs) || tup !in pending
  {
    InList(leaves, Bag(root, Slots), tup);
    r, rest := Release(h, root, sig, leaves, tup);
    TallyLeaf(Bag(root, Slots), Bag(root, Refs), refs, leaves, pending, tup, Bag(r, Slots), Bag(r, Refs), rest);
  }

  // ------------------------------------------------------------------ the class

  // NoLeaf: with no fields the source looks at the leaf of the root without testing that there is one.
  datatype DeleteInfo = NotFound | Kept | ToDelete | NoLeaf

  // The tuples delete_by_index is about: their first fields equal the leading exact fields.
  predicate Hit(m: seq<Pat>, sig: seq<Type>, x: Tuple) {
    |x| == |sig| && Begins(m[..ExactPrefix(m)], Items(sig, x))
  }

  function Miss(m: seq<Pat>, sig: seq<Type>): Tuple -> bool {
    x => !Hit(m, sig, x)
  }

  // The number of exact scalar fields at the front: as far as delete_by_index can walk.
  function ScalarPrefix(m: seq<Pat>): (k: nat)
    ensures k <= ExactPrefix(m) && (k < |m| ==> !ScalarPat(m[k]))
    ensures forall i :: 0 <= i < k ==> ScalarPat(m[i])
  {
    if m == [] || !ScalarPat(m[0]) then 0 else 1 + ScalarPrefix(m[1..])
  }

  // The tuples below the end of the walk.
  predicate OnWalk(m: seq<Pat>, sig: seq<Type>, x: Tuple) {
    |x| == |sig| && Begins(m[..ScalarPrefix(m)], Items(sig, x))
  }

  lemma WalkIsPrefix(m: seq<Pat>, sig: seq<Type>, x: Tuple)
    requires MatchFits(m, sig) && TupleFits(sig, x)
    ensures OnWalk(m, sig, x) <==> PatTokens(m[..ScalarPrefix(m)]) <= Path(sig, x)
    ensures Hit(m, sig, x) ==> OnWalk(m, sig, x)
    ensures ScalarPrefix(m) == ExactPrefix(m) ==> (Hit(m, sig, x) <==> OnWalk(m, sig, x))
  {
    PathBegins(m[..ScalarPrefix(m)], Items(sig, x));
  }

  // A leaf below the end of a path.
  lemma {:induction false} AtSome(h: Hash, t: Tree, types: seq<Type>, prefix: seq<Token>, sig: seq<Type>, toks: seq<Token>)
    returns (x: Tuple)
    requires WF(h, t, types, prefix, sig) && Alive(t) && At(h, t, toks).Some?
    ensures CountAt(h, t, toks, SlotsOf(x)) > 0
    decreases t
  {
    if toks == [] {
      x := SomeLeaf(h, t, types, prefix, sig);
    } else {
      var cs := t.buckets[BucketOf(h, t, toks[0])].nodes;
      var c := cs[Find(cs, toks[0])];
      assert c in cs && ChildOk(h, c, types, prefix, sig);
      x := AtSome(h, c.sub, After(c.data, types[0]) + types[1..], prefix + [c.data], sig, toks[1..]);
    }
  }

  /** A node is found at the end of a path exactly when the path of some leaf goes through it. */
  lemma AtIsThrough(h: Hash, root: Tree, sig: seq<Type>, toks: seq<Token>)
    requires RootOk(h, root, sig) && toks != []
    ensures At(h, root, toks).Some? <==> exists x :: x in Bag(root, Slots) && TupleFits(sig, x) && toks <= Path(sig, x)
  {
    if At(h, root, toks).Some? {
      var x := AtSome(h, root, sig, [], sig, toks);
      ThroughTo(h, root, sig, toks, x);
    } else {
      forall x | x in Bag(root, Slots) && TupleFits(sig, x) ensures !(toks <= Path(sig, x)) {
        BagOk(root, Slots, x);
        RootPruned(h, root, sig, toks, SlotsOf(x));
      }
    }
  }

  lemma ThroughTo(h: Hash, root: Tree, sig: seq<Type>, toks: seq<Token>, x: Tuple)
    requires RootOk(h, root, sig) && CountAt(h, root, toks, SlotsOf(x)) > 0
    ensures x in Bag(root, Slots) && TupleFits(sig, x) && toks <= Path(sig, x)
  {
    RootPruned(h, root, sig, toks, SlotsOf(x));
    BagOk(root, Slots, x);
    Bounded(h, root, sig, x);
  }

  // Does the walk of delete_by_index get to the end of the scalar fields?
  ghost predicate GetsThere(leaves: seq<Tuple>, m: seq<Pat>, sig: seq<Type>) {
    ScalarPrefix(m) == 0 || exists x :: x in leaves && OnWalk(m, sig, x)
  }

  lemma WalkEnds(h: Hash, root: Tree, sig: seq<Type>, m: seq<Pat>, leaves: seq<Tuple>)
    requires RootOk(h, root, sig) && MatchFits(m, sig) && multiset(leaves) == Bag(root, Slots)
    ensures At(h, root, PatTokens(m[..ScalarPrefix(m)])).Some? <==> GetsThere(leaves, m, sig)
  {
    var toks := PatTokens(m[..ScalarPrefix(m)]);
    if ScalarPrefix(m) > 0 {
      AtIsThrough(h, root, sig, toks);
      forall x ensures x in leaves && OnWalk(m, sig, x) <==> x in Bag(root, Slots) && TupleFits(sig, x) && toks <= Path(sig, x) {
        OnWalkThrough(h, root, sig, m, leaves, x);
      }
    }
  }

  lemma OnWalkThrough(h: Hash, root: Tree, sig: seq<Type>, m: seq<Pat>, leaves: seq<Tuple>, x: Tuple)
    requires RootOk(h, root, sig) && MatchFits(m, sig) && multiset(leaves) == Bag(root, Slots)
    ensures x in leaves <==> x in Bag(root, Slots)
    ensures x in Bag(root, Slots) ==> TupleFits(sig, x) && (OnWalk(m, sig, x) <==> PatTokens(m[..ScalarPrefix(m)]) <= Path(sig, x))
  {
    assert x in leaves <==> x in multiset(leaves);
    Bounded(h, root, sig, x);
    if TupleFits(sig, x) {
      WalkIsPrefix(m, sig, x);
    }
  }

  lemma MissedWalk(h: Hash, root: Tree, sig: seq<Type>, m: seq<Pat>, leaves: seq<Tuple>, x: Tuple)
    requires RootOk(h, root, sig) && MatchFits(m, sig) && multiset(leaves) == Bag(root, Slots) && !GetsThere(leaves, m, sig)
    ensures x in Bag(root, Slots) || x in leaves ==> !Hit(m, sig, x)
  {
    OnWalkThrough(h, root, sig, m, leaves, x);
    if TupleFits(sig, x) {
      WalkIsPrefix(m, sig, x);
    }
  }

  // The cut at the end of the walk.
  method PruneIndex(h: Hash, root: Tree, sig: seq<Type>, m: seq<Pat>) returns (r: Tree, gone: nat)
    requires RootOk(h, root, sig) && MatchFits(m, sig) && ScalarPrefix(m) == ExactPrefix(m)
    ensures RootOk(h, r, sig) && gone == |Bag(root, Refs)| - |Bag(r, Refs)|
    ensures forall x :: Bag(r, Slots)[x] == if Miss(m, sig)(x) then Bag(root, Slots)[x] else 0
    ensures forall x :: Bag(r, Refs)[x] == if Miss(m, sig)(x) then Bag(root, Refs)[x] else 0
  {
    var toks := PatTokens(m[..ScalarPrefix(m)]);
    forall x | TupleFits(sig, x) ensures Miss(m, sig)(x) <==> !(toks <= Path(sig, x)) {
      WalkIsPrefix(m, sig, x);
    }
    r, gone := PruneAt(h, root, sig, toks, Miss(m, sig));
  }

  class TupleTrie {
    const sig: seq<Type>
    const h: Hash
    var root: Tree
    var refs: int
    var leaves: seq<Tuple>
    // deletions that are still to be committed
    ghost var pending: multiset<Tuple>

    ghost function Contents(): multiset<Tuple>
      reads this
    {
      Bag(root, Refs)
    }

    ghost predicate Valid()
      reads this
    {
      RootOk(h, root, sig) && Tally(Bag(root, Slots), Bag(root, Refs), refs, leaves, pending)
    }

    constructor (sig: seq<Type>, h: Hash)
      ensures Valid() && this.sig == sig && this.h == h
      ensures Contents() == multiset{} && refs == 0 && leaves == [] && pending == multiset{} && root == EMPTY
    {
      this.sig, this.h := sig, h;
      root, refs, leaves, pending := EMPTY, 0, [], multiset{};
      new;
      EmptyBags(Slots);
      EmptyBags(Refs);
    }

    // insert_tuple
    method Insert(tup: Tuple) returns (isNew: bool)
      requires Valid() && TupleFits(sig, tup)
      modifies this
      ensures Valid() && pending == old(pending) && refs == old(refs) + 1
      ensures Contents() == old(Contents()) + multiset{tup}
      ensures isNew == (tup !in old(leaves))
      ensures leaves == old(leaves) + if isNew then [tup] else []
      ensures isNew ==> root == Planted(h, old(root), sig, tup)
    {
      var at := Walk(h, root, sig, tup);
      InList(leaves, Bag(root, Slots), tup);
      if at.None? {
        isNew := true;
        AddLeaf(tup);
      } else {
        isNew := false;
        AddReference(tup, at.value);
      }
    }

    method AddLeaf(tup: Tuple)
      requires Valid() && TupleFits(sig, tup) && tup !in leaves
      modifies this
      ensures Valid() && pending == old(pending) && refs == old(refs) + 1
      ensures Contents() == old(Contents()) + multiset{tup} && leaves == old(leaves) + [tup]
      ensures root == Planted(h, old(root), sig, tup)
    {
      TallyNew(Bag(root, Slots), Bag(root, Refs), refs, leaves, pending, tup);
      root := Plant(h, root, sig, tup);
      leaves := leaves + [tup];
      refs := refs + 1;
    }

    // add_new
    method AddReference(tup: Tuple, n: nat)
      requires Valid() && TupleFits(sig, tup) && tup in leaves && n == Contents()[tup]
      modifies this`root, this`refs
      ensures Valid() && refs == old(refs) + 1
      ensures Contents() == old(Contents()) + multiset{tup}
    {
      TallyAgain(Bag(root, Slots), Bag(root, Refs), refs, leaves, pending, tup);
      root := Recount(h, root, sig, tup, n + 1);
      refs := refs + 1;
    }

    // delete_tuple: the last reference leaves the leaf in place, to be committed.  Deleting a tuple
    // that has no reference left promises the commit a second time.
    method Delete(tup: Tuple) returns (info: DeleteInfo)
      requires Valid() && TupleFits(sig, tup)
      modifies this
      ensures Valid() <==> !(tup in old(leaves) && tup !in old(Contents()))
      ensures info.NoLeaf? <==> sig == [] && tup !in old(leaves)
      ensures info.NotFound? <==> sig != [] && tup !in old(leaves)
      ensures info.NoLeaf? || info.NotFound? ==> root == old(root) && refs == old(refs) && pending == old(pending)
      ensures leaves == old(leaves) && Contents() == old(Contents()) - multiset{tup}
      ensures info.Kept? ==> tup in Contents() && pending == old(pending) && refs == old(refs) - 1
      ensures info.ToDelete? ==> tup !in Contents() && pending == old(pending) + multiset{tup} && refs == old(refs)
    {
      var at := Walk(h, root, sig, tup);
      InList(leaves, Bag(root, Slots), tup);
      if at.None? {
        Unchanged(Contents(), tup);
        info := if sig == [] then NoLeaf else NotFound;
      } else {
        info := Subtract(tup, at.value);
      }
    }

    // sub, at the leaf of the tuple
    method Subtract(tup: Tuple, n: nat) returns (info: DeleteInfo)
      requires Valid() && TupleFits(sig, tup) && tup in leaves && n == Contents()[tup]
      modifies this`root, this`refs, this`pending
      ensures (Valid() <==> n > 0) && Contents() == old(Contents()) - multiset{tup}
      ensures if n > 1 then info == Kept && tup in Contents() && pending == old(pending) && refs == old(refs) - 1
              else info == ToDelete && tup !in Contents() && pending == old(pending) + multiset{tup} && refs == old(refs)
    {
      if n > 1 {
        DropReference(tup, n);
        info := Kept;
      } else {
        MarkLeaf(tup);
        info := ToDelete;
      }
    }

    method MarkLeaf(tup: Tuple)
      requires Valid() && TupleFits(sig, tup) && tup in leaves && Contents()[tup] <= 1
      modifies this`root, this`pending
      ensures Valid() <==> tup in old(Contents())
      ensures pending == old(pending) + multiset{tup} && Contents() == old(Contents()) - multiset{tup}
    {
      TallyMark(Bag(root, Slots), Bag(root, Refs), refs, leaves, pending, tup);
      var r := Recount(h, root, sig, tup, 0);
      SetMarked(r, pending + multiset{tup});
    }

    method SetMarked(r: Tree, ghost pending': multiset<Tuple>)
      requires RootOk(h, r, sig)
      modifies this`root, this`pending
      ensures Valid() <==> Tally(Bag(r, Slots), Bag(r, Refs), refs, leaves, pending')
      ensures root == r && pending == pending'
    {
      root, pending := r, pending';
    }

    method DropReference(tup: Tuple, n: nat)
      requires Valid() && TupleFits(sig, tup) && tup in leaves && n == Contents()[tup] > 1
      modifies this`root, this`refs
      ensures Valid() && refs == old(refs) - 1
      ensures Contents() == old(Contents()) - multiset{tup}
    {
      TallyKeep(Bag(root, Slots), Bag(root, Refs), refs, leaves, pending, tup);
      root := Recount(h, root, sig, tup, n - 1);
      refs := refs - 1;
    }

    // commit_delete: the leaf and its path go, unless the tuple was inserted again.  A further commit
    // of the same tuple has lost its leaf then.
    method Commit(tup: Tuple)
      requires Valid() && tup in pending
      modifies this
      ensures Valid() <==> tup in Contents() || old(pending)[tup] == 1
      ensures Contents() == old(Contents()) && pending == old(pending) - multiset{tup} && refs == old(refs) - 1
      ensures leaves == if tup in Contents() then old(leaves) else Keep(old(leaves), Other(tup))
    {
      TallyCommit(Bag(root, Slots), Bag(root, Refs), refs, leaves, pending, tup);
      var r, rest := Settle(h, root, sig, leaves, tup);
      SetAll(r, refs - 1, rest, pending - multiset{tup});
    }

    // delete_by_leaf: a deletion that commits at once
    method DeleteByLeaf(tup: Tuple)
      requires Valid() && tup in leaves
      modifies this
      ensures Valid() <==> tup in Contents() || tup !in pending
      ensures Contents() == old(Contents()) - multiset{tup} && pending == old(pending) && refs == old(refs) - 1
      ensures leaves == if tup in Contents() then old(leaves) else Keep(old(leaves), Other(tup))
    {
      var r, rest := ReleaseLeaf(h, root, sig, refs, leaves, pending, tup);
      SetAll(r, refs - 1, rest, pending);
    }

    // delete_by_index: walks down the exact fields and cuts there.  Fields after the first one that
    // is not exact play no part.  The walk aborts at an exact list if it gets there.
    method DeleteByIndex(m: seq<Pat>) returns (ok: bool)
      requires Valid() && MatchFits(m, sig)
      modifies this
      ensures !ok <==> ScalarPrefix(m) < ExactPrefix(m) && GetsThere(old(leaves), m, sig)
      ensures !ok ==> root == old(root) && refs == old(refs) && leaves == old(leaves)
      ensures pending == old(pending) && (Valid() <==> !ok || Spared(pending, m, sig))
      ensures ok ==> Without(old(Contents()), Contents(), m, sig)
      ensures ok ==> refs == old(refs) - (|old(Contents())| - |Contents()|) && leaves == Keep(old(leaves), Miss(m, sig))
    {
      WalkEnds(h, root, sig, m, leaves);
      ok := true;
      if ScalarPrefix(m) == ExactPrefix(m) {
        CutIndex(m);
      } else if At(h, root, PatTokens(m[..ScalarPrefix(m)])).Some? {
        ok := false;
      } else {
        NothingHit(m);
      }
    }

    method CutIndex(m: seq<Pat>)
      requires Valid() && MatchFits(m, sig) && ScalarPrefix(m) == ExactPrefix(m)
      modifies this
      ensures pending == old(pending) && (Valid() <==> Spared(pending, m, sig))
      ensures Without(old(Contents()), Contents(), m, sig)
      ensures refs == old(refs) - (|old(Contents())| - |Contents()|) && leaves == Keep(old(leaves), Miss(m, sig))
    {
      var r, gone := PruneLeaves(h, root, sig, refs, leaves, pending, m);
      SetAll(r, refs - gone, Keep(leaves, Miss(m, sig)), pending);
    }

    // A walk that ends early has nothing to cut.
    lemma NothingHit(m: seq<Pat>)
      requires Valid() && MatchFits(m, sig) && !GetsThere(leaves, m, sig)
      ensures Without(Contents(), Contents(), m, sig) && Spared(pending, m, sig)
      ensures leaves == Keep(leaves, Miss(m, sig))
    {
      forall x ensures x in Contents() || x in pending || x in leaves ==> !Hit(m, sig, x) {
        Bounded(h, root, sig, x);
        MissedWalk(h, root, sig, m, leaves, x);
      }
      KeepAll(leaves, Miss(m, sig));
    }

    // The fields of the new state
    method SetAll(r: Tree, refs': int, leaves': seq<Tuple>, ghost pending': multiset<Tuple>)
      requires RootOk(h, r, sig)
      modifies this
      ensures Valid() <==> Tally(Bag(r, Slots), Bag(r, Refs), refs', leaves', pending')
      ensures root == r && refs == refs' && leaves == leaves' && pending == pending'
    {
      root, refs, leaves, pending := r, refs', leaves', pending';
    }

    /** The assertions of basic_invariants: there are references exactly when the root has a child, and
        exactly when the leaf list is not empty. */
    lemma BasicInvariants()
      requires Valid()
      ensures refs >= 0 && (refs == 0 <==> leaves == []) && (leaves == [] <==> !Alive(root))
    {
      assert |multiset(leaves)| == |leaves|;
      if leaves == [] {
        forall x ensures x !in Bag(root, Refs) {
          Bounded(h, root, sig, x);
        }
        assert Bag(root, Refs) == multiset{} && pending == multiset{};
      } else {
        assert leaves[0] in multiset(leaves);
        assert leaves[0] in pending || leaves[0] in Bag(root, Refs);
        assert |Bag(root, Refs)| > 0 || |pending| > 0;
      }
      if Alive(root) {
        var x := SomeLeaf(h, root, sig, [], sig);
        BagOk(root, Slots, x);
        assert x in multiset(leaves);
      } else {
        forall x ensures Bag(root, Slots)[x] == 0 {
          BagOk(root, Slots, x);
          EmptyBuckets(root.buckets, SlotsOf(x));
        }
        assert multiset(leaves) == multiset{};
      }
    }
  }

  // No dead interior node: every node with a child leads to a leaf.
  lemma {:induction false} SomeLeaf(h: Hash, t: Tree, types: seq<Type>, prefix: seq<Token>, sig: seq<Type>) returns (x: Tuple)
    requires WF(h, t, types, prefix, sig) && Alive(t)
    ensures Count(t, SlotsOf(x)) > 0
    decreases t
  {
    if t.Leaf? {
      x := t.tuple;
    } else {
      var b :| 0 <= b < |t.buckets| && t.buckets[b].nodes != [];
      var c := t.buckets[b].nodes[0];
      assert c in t.buckets[b].nodes && ChildOk(h, c, types, prefix, sig);
      x := SomeLeaf(h, c.sub, After(c.data, types[0]) + types[1..], prefix + [c.data], sig);
      CountReplace(t.buckets, b, 0, c, SlotsOf(x));
    }
  }
}
