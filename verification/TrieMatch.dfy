/**
  match_predicate: what a whole search over a tuple trie returns, and when it is safe.
 */
module TrieMatch {
  import opened TrieValues
  import opened TrieTree
  import opened TrieOps
  import opened TrieGrow
  import opened TuplePatterns
  import opened TupleTries
  import opened TrieSearch
  import opened TrieIterator

  // any_exact
  predicate AnyExact(m: seq<Pat>) {
    exists i :: 0 <= i < |m| && m[i] != Any
  }

  predicate Searchable(sig: seq<Type>, m: seq<Pat>) {
    MatchFits(m, sig) && forall i :: 0 <= i < |sig| ==> Plain(sig[i])
  }

  // The first call takes a node for a hash: before the first tuple that is to be found, a hash at a level
  // without an exact field has nothing to be found below its first child, and a further child.
  ghost predicate FirstCallCrashes(h: Hash, root: Tree, sig: seq<Type>, m: seq<Pat>)
    requires |m| == |sig|
  {
    CrashBelow(h, root, MatchStack(sig, m))
  }

  // Every tuple that is stored and matches, once, and nothing else.
  ghost predicate IsFilter(out: seq<Tuple>, bag: multiset<Tuple>, m: seq<Pat>) {
    forall x :: Times(out, x) == if |x| == |m| && MatchesAll(m, x) && x in bag then 1 else 0
  }

  lemma HitsAreFilter(h: Hash, root: Tree, sig: seq<Type>, m: seq<Pat>)
    requires WF(h, root, sig, [], sig) && Searchable(sig, m)
    ensures IsFilter(HitsBelow(root, MatchStack(sig, m)), Bag(root, Refs), m)
  {
    forall x ensures Times(HitsBelow(root, MatchStack(sig, m)), x) == if |x| == |m| && MatchesAll(m, x) && x in Bag(root, Refs) then 1 else 0 {
      BagOk(root, Refs, x);
      if TupleFits(sig, x) {
        SearchIsFilter(h, root, sig, m, x);
      } else {
        RootForeign(h, root, sig, RefsOf(x));
        HitsLive(root, MatchStack(sig, m), x);
      }
    }
  }

  // The leaf list serves searches without exact fields; it still shows pending deletions.
  lemma LeavesAreFilter(h: Hash, root: Tree, sig: seq<Type>, m: seq<Pat>, refs: int, leaves: seq<Tuple>, pending: multiset<Tuple>)
    requires RootOk(h, root, sig) && Tally(Bag(root, Slots), Bag(root, Refs), refs, leaves, pending)
    requires MatchFits(m, sig) && !AnyExact(m)
    ensures IsFilter(leaves, Bag(root, Refs), m) <==> forall x :: x in pending ==> x in Bag(root, Refs)
  {
    forall x
      ensures Times(leaves, x) == (if x in Bag(root, Refs) || x in pending then 1 else 0)
      ensures x in Bag(root, Refs) ==> |x| == |m| && MatchesAll(m, x)
    {
      TimesIsCount(leaves, x);
      Bounded(h, root, sig, x);
    }
    if IsFilter(leaves, Bag(root, Refs), m) {
      forall x | x in pending ensures x in Bag(root, Refs) {
        assert Times(leaves, x) == 1;
      }
    }
  }

  lemma {:induction false} TimesIsCount(s: seq<Tuple>, x: Tuple)
    ensures Times(s, x) == multiset(s)[x]
  {
    if s != [] {
      assert s == [s[0]] + s[1..];
      TimesIsCount(s[1..], x);
    }
  }

  // The frame match_predicate starts from.
  lemma FirstFrameOk(h: Hash, root: Tree, sig: seq<Type>, m: seq<Pat>)
    requires WF(h, root, sig, [], sig) && Alive(root) && Searchable(sig, m) && AnyExact(m)
    ensures FrameOk(h, Frame(MatchStack(sig, m), root, Down))
  {
    assert PTypes(MatchStack(sig, m)) == sig;
    assert root.Inner?;
  }

  /** A search by frames returns the filter, unless its first call crashes. */
  method Search(h: Hash, root: Tree, sig: seq<Type>, m: seq<Pat>) returns (out: Option<seq<Tuple>>)
    requires WF(h, root, sig, [], sig) && Alive(root) && Searchable(sig, m) && AnyExact(m)
    ensures out.None? <==> FirstCallCrashes(h, root, sig, m)
    ensures out.Some? ==> IsFilter(out.value, Bag(root, Refs), m)
  {
    FirstFrameOk(h, root, sig, m);
    FirstTells(h, root, MatchStack(sig, m));
    HitsAreFilter(h, root, sig, m);
    var it := new SearchIterator(h);
    var crash := it.FindNext(Frame(MatchStack(sig, m), root, Down), true);
    if crash {
      return None;
    }
    var found: seq<Tuple> := [];
    ghost var all := HitsBelow(root, MatchStack(sig, m));
    while it.next.Some?
      invariant it.Valid() && fresh(it)
      invariant found + it.ToCome() == all
      invariant it.next.None? ==> it.cont == []
      decreases |all| - |found|
    {
      Associate(found, [it.next.value], HitsStack(it.h, it.cont));
      found := found + [it.next.value];
      it.Increment();
    }
    assert found == all;
    return Some(found);
  }

  // match_predicate and a run through its iterator to the end
  method MatchPredicate(t: TupleTrie, m: seq<Pat>) returns (out: Option<seq<Tuple>>)
    requires t.Valid() && Searchable(t.sig, m)
    ensures out.None? <==> AnyExact(m) && t.refs > 0 && FirstCallCrashes(t.h, t.root, t.sig, m)
    ensures out.Some? && AnyExact(m) ==> IsFilter(out.value, t.Contents(), m)
    ensures !AnyExact(m) ==> out == Some(t.leaves)
  {
    if !AnyExact(m) {
      return Some(t.leaves);
    }
    t.BasicInvariants();
    if t.refs == 0 {
      assert t.Contents() == multiset{};
      return Some([]);
    }
    out := Search(t.h, t.root, t.sig, m);
  }

  // ------------------------------------------------------------------ when the first call is safe

  // No hash at a level the search walks without an exact field.
  ghost predicate FreeLevelsChained(t: Tree, stk: seq<PItem>)
    decreases t
  {
    t.Inner? && stk != [] ==>
      && (stk[0].pat == Any ==> !t.hashed)
      && (forall b, c :: 0 <= b < |t.buckets| && c in t.buckets[b].nodes && Step(stk[0], c.data).Some? ==>
            FreeLevelsChained(c.sub, Step(stk[0], c.data).value + stk[1..]))
  }

  /** The first call is safe when no level without an exact field is a hash. */
  lemma {:induction false} SafeOnChains(h: Hash, t: Tree, stk: seq<PItem>)
    requires FreeLevelsChained(t, stk)
    ensures !CrashBelow(h, t, stk)
    decreases t
  {
    if t.Inner? && stk != [] {
      forall b, c | 0 <= b < |t.buckets| && c in t.buckets[b].nodes ensures !CrashChild(h, c, stk) {
        if Step(stk[0], c.data).Some? {
          SafeOnChains(h, c.sub, Step(stk[0], c.data).value + stk[1..]);
        }
      }
    }
  }

  // Every leaf has references.
  ghost predicate Live(t: Tree)
    decreases t
  {
    match t
    case Leaf(_, n) => n > 0
    case Inner(_, bs, _) => forall b, c :: 0 <= b < |bs| && c in bs[b].nodes ==> Live(c.sub)
  }

  lemma {:induction false} LiveFromCounts(h: Hash, t: Tree, types: seq<Type>, prefix: seq<Token>, sig: seq<Type>)
    requires WF(h, t, types, prefix, sig)
    requires forall x :: Count(t, SlotsOf(x)) > 0 ==> Count(t, RefsOf(x)) > 0
    ensures Live(t)
    decreases t
  {
    match t
    case Leaf(tup, _) =>
      assert Count(t, SlotsOf(tup)) > 0;
    case Inner(_, bs, _) =>
      forall b, c | 0 <= b < |bs| && c in bs[b].nodes ensures Live(c.sub) {
        assert ChildOk(h, c, types, prefix, sig);
        forall x | Count(c.sub, SlotsOf(x)) > 0 ensures Count(c.sub, RefsOf(x)) > 0 {
          OwnCount(h, t, types, prefix, sig, b, c, x);
        }
        LiveFromCounts(h, c.sub, After(c.data, types[0]) + types[1..], prefix + [c.data], sig);
      }
  }

  // What a child has of a tuple is all there is of it.
  lemma OwnCount(h: Hash, t: Tree, types: seq<Type>, prefix: seq<Token>, sig: seq<Type>, b: nat, c: Child, x: Tuple)
    requires WF(h, t, types, prefix, sig) && t.Inner? && b < |t.buckets| && c in t.buckets[b].nodes
    requires Count(c.sub, SlotsOf(x)) > 0
    ensures Count(t, SlotsOf(x)) == Count(c.sub, SlotsOf(x)) && Count(t, RefsOf(x)) == Count(c.sub, RefsOf(x))
  {
    assert ChildOk(h, c, types, prefix, sig);
    CountedBelow(h, c.sub, After(c.data, types[0]) + types[1..], prefix + [c.data], sig, SlotsOf(x));
    CountAtFound(h, t, types, prefix, sig, c.data, SlotsOf(x));
    CountAtFound(h, t, types, prefix, sig, c.data, RefsOf(x));
    assert b == BucketOf(h, t, c.data);
  }

  predicate AllAny(stk: seq<PItem>) {
    forall i :: 0 <= i < |stk| ==> stk[i].pat == Any
  }

  // Exact ints, floats, nodes and empty lists first, and then only fields that are not exact.
  predicate ExactFirst(stk: seq<PItem>) {
    AllAny(stk) || ((ScalarPat(stk[0].pat) || stk[0].pat == PNil) && ExactFirst(stk[1..]))
  }

  lemma {:induction false} AnyHits(h: Hash, t: Tree, stk: seq<PItem>)
    requires AllAny(stk) && StackOk(stk) && NodeOk(h, t, PTypes(stk)) && Alive(t) && Live(t)
    ensures FirstBelow(h, t, stk) == Hit
    decreases t
  {
    if t.Inner? {
      assert stk != [] && (!t.hashed ==> |t.buckets| == 1) by {
        var prefix, sig :| WF(h, t, PTypes(stk), prefix, sig);
        assert |PTypes(stk)| == |stk|;
      }
      var b := t.buckets[NextBucket(t.buckets, 0)];
      var c := b.nodes[0];
      assert c in b.nodes && b in t.buckets;
      ChildNodeOk(h, t, stk, NextBucket(t.buckets, 0), c);
      AnyHits(h, c.sub, Step(stk[0], c.data).value + stk[1..]);
      assert FirstChild(h, c, stk) == Hit;
    }
  }

  /** Without pending deletions, a search whose exact fields come first never crashes. */
  lemma {:induction false} SafeWhenExactFirst(h: Hash, t: Tree, stk: seq<PItem>)
    requires ExactFirst(stk) && StackOk(stk) && NodeOk(h, t, PTypes(stk)) && Alive(t) && Live(t)
    ensures !CrashBelow(h, t, stk)
    decreases t
  {
    if AllAny(stk) {
      AnyHits(h, t, stk);
      FirstTells(h, t, stk);
    } else if t.Inner? && t.buckets != [] {
      var tok := ExactToken(stk[0].pat);
      var i := BucketOf(h, t, tok);
      var b := t.buckets[i];
      var k := Find(b.nodes, tok);
      if k < |b.nodes| {
        var c := b.nodes[k];
        assert c in b.nodes && b in t.buckets;
        assert Step(stk[0], tok).value + stk[1..] == stk[1..];
        ChildNodeOk(h, t, stk, i, c);
        SafeWhenExactFirst(h, c.sub, stk[1..]);
      }
    }
  }

  lemma SafeSearch(t: TupleTrie, m: seq<Pat>)
    requires t.Valid() && t.pending == multiset{} && t.refs > 0 && Searchable(t.sig, m) && ExactFirst(MatchStack(t.sig, m))
    ensures !FirstCallCrashes(t.h, t.root, t.sig, m)
  {
    t.BasicInvariants();
    assert PTypes(MatchStack(t.sig, m)) == t.sig;
    forall x | Count(t.root, SlotsOf(x)) > 0 ensures Count(t.root, RefsOf(x)) > 0 {
      BagOk(t.root, Slots, x);
      BagOk(t.root, Refs, x);
    }
    LiveFromCounts(t.h, t.root, t.sig, [], t.sig);
    SafeWhenExactFirst(t.h, t.root, MatchStack(t.sig, m));
  }

  // ------------------------------------------------------------------ a first call that crashes

  // Nine pairs, inserted into an empty trie: the ninth turns the chain of the first field into a hash.
  const PAIR_SIG: seq<Type> := [TInt, TInt]

  function Pair(i: nat): Tuple {
    [VInt(i), VInt(10 * i)]
  }

  function Pairs(n: nat): seq<Tuple> {
    seq(n, i requires 0 <= i < n => Pair(i))
  }

  function IntHash(tok: Token): nat {
    if tok.IntTok? && tok.i >= 0 then tok.i else 0
  }

  function PairChild(i: nat): Child {
    Child(IntTok(i), NewPath([IntTok(10 * i)], Pair(i)))
  }

  // The last one comes first.
  function Chain(n: nat): (cs: seq<Child>)
    ensures |cs| == n && forall i :: 0 <= i < n ==> cs[i] == PairChild(n - 1 - i)
  {
    seq(n, i requires 0 <= i < n => PairChild(n - 1 - i))
  }

  function ChainTree(n: nat): Tree {
    Inner(false, [Bucket(Chain(n))], 0)
  }

  // The chain of n pairs as a hash, with one more pair.
  function HashTree(n: nat): Tree {
    Sprout(IntHash, Inner(true, Rehash(IntHash, Chain(n), TRIE_HASH_BASE_BUCKETS), n), [IntTok(n), IntTok(10 * n)], Pair(n))
  }

  lemma PairPath(i: nat)
    ensures TupleFits(PAIR_SIG, Pair(i)) && Path(PAIR_SIG, Pair(i)) == [IntTok(i), IntTok(10 * i)]
  {
    var stk := Items(PAIR_SIG, Pair(i));
    var stk1 := [Item(TInt, VInt(10 * i))];
    assert Pop(stk) == stk1 && Pop(stk1) == [];
    assert Flatten(stk1) == [IntTok(10 * i)] + Flatten([]);
    assert Flatten(stk) == [IntTok(i)] + Flatten(stk1);
  }

  lemma NoneFound(cs: seq<Child>, tok: Token)
    requires forall i :: 0 <= i < |cs| ==> cs[i].data != tok
    ensures Find(cs, tok) == |cs|
  {}

  lemma ChainSprouts(n: nat, toks: seq<Token>)
    requires toks == [IntTok(n), IntTok(10 * n)]
    ensures Sprout(IntHash, ChainTree(n), toks, Pair(n)) == ChainTree(n + 1)
  {
    assert toks[1..] == [IntTok(10 * n)];
    assert [PairChild(n)] + Chain(n) == Chain(n + 1);
    assert Add([Bucket(Chain(n))], 0, PairChild(n)) == [Bucket(Chain(n + 1))];
  }

  lemma ChainGrows(n: nat)
    requires n < TRIE_HASH_LIST_THRESHOLD && TupleFits(PAIR_SIG, Pair(n))
    ensures Planted(IntHash, ChainTree(n), PAIR_SIG, Pair(n)) == ChainTree(n + 1)
  {
    PairPath(n);
    NoneFound(Chain(n), IntTok(n));
    GraftIsSprout(IntHash, ChainTree(n), [IntTok(n), IntTok(10 * n)], Pair(n));
    ChainSprouts(n, [IntTok(n), IntTok(10 * n)]);
  }

  lemma ChainTurns(n: nat)
    requires n == TRIE_HASH_LIST_THRESHOLD && TupleFits(PAIR_SIG, Pair(n))
    ensures Planted(IntHash, ChainTree(n), PAIR_SIG, Pair(n)) == HashTree(n)
  {
    PairPath(n);
    NoneFound(Chain(n), IntTok(n));
    GraftIsSprout(IntHash, ChainTree(n), [IntTok(n), IntTok(10 * n)], Pair(n));
  }

  // Buckets that hold the first n pairs, each where its key says.
  ghost predicate Spread(bs: seq<Bucket>, n: nat) {
    && n < |bs| == TRIE_HASH_BASE_BUCKETS
    && (forall b :: 0 <= b < |bs| ==> Distinct(bs[b].nodes))
    && (forall b, c :: 0 <= b < |bs| && c in bs[b].nodes ==> b < n && c == PairChild(b))
    && (forall b :: 0 <= b < n ==> CountB(bs, SlotsOf(Pair(b))) > 0)
  }

  lemma InChain(n: nat, c: Child) returns (i: nat)
    requires c in Chain(n)
    ensures i < n && c == PairChild(i) && IntHash(c.data) == i
  {
    var k :| 0 <= k < |Chain(n)| && Chain(n)[k] == c;
    i := n - 1 - k;
  }

  lemma ChainCounts(n: nat, b: nat)
    requires b < n
    ensures CountC(Chain(n), SlotsOf(Pair(b))) > 0
  {
    CountSplit(Chain(n), n - 1 - b, SlotsOf(Pair(b)));
    NewPathCount([IntTok(10 * b)], Pair(b), SlotsOf(Pair(b)));
  }

  lemma RehashedFrom(n: nat, b: nat, c: Child)
    requires n < TRIE_HASH_BASE_BUCKETS && b < TRIE_HASH_BASE_BUCKETS
    requires c in Rehash(IntHash, Chain(n), TRIE_HASH_BASE_BUCKETS)[b].nodes
    ensures b < n && c == PairChild(b)
  {
    RehashOk(IntHash, Chain(n), TRIE_HASH_BASE_BUCKETS, AllRefs);
    assert c in Chain(n);
    var i := InChain(n, c);
  }

  lemma RehashCounts(n: nat, b: nat)
    requires b < n
    ensures CountB(Rehash(IntHash, Chain(n), TRIE_HASH_BASE_BUCKETS), SlotsOf(Pair(b))) > 0
  {
    ChainCounts(n, b);
    RehashOk(IntHash, Chain(n), TRIE_HASH_BASE_BUCKETS, SlotsOf(Pair(b)));
  }

  lemma RehashSpreads(n: nat)
    requires n < TRIE_HASH_BASE_BUCKETS
    ensures Spread(Rehash(IntHash, Chain(n), TRIE_HASH_BASE_BUCKETS), n)
  {
    var bs := Rehash(IntHash, Chain(n), TRIE_HASH_BASE_BUCKETS);
    RehashOk(IntHash, Chain(n), TRIE_HASH_BASE_BUCKETS, AllRefs);
    forall b, c | 0 <= b < |bs| && c in bs[b].nodes ensures b < n && c == PairChild(b) {
      RehashedFrom(n, b, c);
    }
    forall b | 0 <= b < n ensures CountB(bs, SlotsOf(Pair(b))) > 0 {
      RehashCounts(n, b);
    }
  }

  lemma AllTheSame(cs: seq<Child>, c: Child)
    requires Distinct(cs) && cs != [] && forall d :: d in cs ==> d == c
    ensures cs == [c]
  {
    forall i | 0 <= i < |cs| ensures i == 0 && cs[i] == c {
      assert cs[i] in cs && cs[0] in cs;
    }
    assert cs[|cs| - 1] == c;
  }

  lemma SpreadBucket(bs: seq<Bucket>, n: nat, b: nat)
    requires Spread(bs, n) && b < n
    ensures bs[b].nodes == [PairChild(b)]
  {
    var b', k := CountedInBucket(bs, SlotsOf(Pair(b)));
    assert bs[b'].nodes[k] in bs[b'].nodes;
    NewPathCount([IntTok(10 * b')], Pair(b'), SlotsOf(Pair(b)));
    assert Pair(b) == Pair(b');
    assert VInt(b) == Pair(b)[0] == Pair(b')[0] == VInt(b');
    AllTheSame(bs[b].nodes, PairChild(b));
  }

  // The first two buckets of the hash hold the first two pairs.
  lemma FirstBuckets(bs: seq<Bucket>, n: nat, c: Child)
    requires Spread(bs, n) && 2 <= n
    ensures var r := Add(bs, n, c); r[0].nodes == [PairChild(0)] && r[1].nodes == [PairChild(1)]
  {
    SpreadBucket(bs, n, 0);
    SpreadBucket(bs, n, 1);
  }

  lemma FirstPairMisses(stk: seq<PItem>)
    requires stk == [PItem(TInt, Any), PItem(TInt, PInt(10))]
    ensures HitsChild(PairChild(0), stk) == []
  {
    assert stk[1..] == [PItem(TInt, PInt(10))] && [] + stk[1..] == stk[1..];
  }

  lemma FirstOfMany(bs: seq<Bucket>, total: nat, stk: seq<PItem>)
    requires |bs| > 1 && bs[0].nodes == [PairChild(0)] && bs[1].nodes == [PairChild(1)]
    requires stk == [PItem(TInt, Any), PItem(TInt, PInt(10))]
    ensures CrashBelow(IntHash, Inner(true, bs, total), stk)
  {
    FirstPairMisses(stk);
    assert NextBucket(bs, 0) == 0;
    assert Flat(bs) == [PairChild(0)] + ([PairChild(1)] + Flat(bs[1..][1..]));
  }

  // Nothing matches below the first pair, and there are more.
  lemma HashTreeCrashes(n: nat)
    requires 2 <= n < TRIE_HASH_BASE_BUCKETS
    ensures FirstCallCrashes(IntHash, HashTree(n), PAIR_SIG, SECOND_IS_TEN)
  {
    RehashSpreads(n);
    var bs := Rehash(IntHash, Chain(n), TRIE_HASH_BASE_BUCKETS);
    var c := Child(IntTok(n), NewPath([IntTok(n), IntTok(10 * n)][1..], Pair(n)));
    FirstBuckets(bs, n, c);
    assert BucketOf(IntHash, Inner(true, bs, n), IntTok(n)) == n;
    assert HashTree(n) == Inner(true, Add(bs, n, c), n + 1);
    FirstOfMany(Add(bs, n, c), n + 1, MatchStack(PAIR_SIG, SECOND_IS_TEN));
  }

  function Grown(k: nat): Tree {
    if k < 9 then ChainTree(k) else HashTree(8)
  }

  lemma Grows(k: nat)
    requires k < 9
    ensures TupleFits(PAIR_SIG, Pair(k)) && Planted(IntHash, Grown(k), PAIR_SIG, Pair(k)) == Grown(k + 1)
  {
    PairPath(k);
    if k < 8 {
      ChainGrows(k);
    } else {
      ChainTurns(k);
    }
  }

  lemma NewPair(k: nat)
    ensures Pair(k) !in Pairs(k) && Pairs(k + 1) == Pairs(k) + [Pair(k)]
  {
    forall i | 0 <= i < k ensures Pairs(k)[i] != Pair(k) {
      assert Pair(i)[0] == VInt(i) && Pair(k)[0] == VInt(k);
    }
  }

  // What a trie with these leaves, and nothing pending, holds.
  lemma PairIsThere(t: TupleTrie)
    requires t.Valid() && t.pending == multiset{} && t.leaves == Pairs(9)
    ensures Pair(1) in t.Contents() && t.refs > 0
  {
    t.BasicInvariants();
    assert Pairs(9)[1] == Pair(1);
    InList(t.leaves, Bag(t.root, Slots), Pair(1));
  }

  method NinePairs() returns (t: TupleTrie)
    ensures fresh(t) && t.Valid() && t.sig == PAIR_SIG && t.h == IntHash && t.pending == multiset{}
    ensures t.leaves == Pairs(9) && t.root == Grown(9)
  {
    t := new TupleTrie(PAIR_SIG, IntHash);
    assert Chain(0) == [];
    for k := 0 to 9
      invariant t.Valid() && fresh(t) && t.sig == PAIR_SIG && t.h == IntHash && t.pending == multiset{}
      invariant t.leaves == Pairs(k) && t.root == Grown(k)
    {
      Grows(k);
      NewPair(k);
      var isNew := t.Insert(Pair(k));
    }
  }

  const SECOND_IS_TEN: seq<Pat> := [Any, PInt(10)]

  lemma TenIsSearchable()
    ensures Searchable(PAIR_SIG, SECOND_IS_TEN) && AnyExact(SECOND_IS_TEN) && MatchesAll(SECOND_IS_TEN, Pair(1))
  {
    assert SECOND_IS_TEN[1] != Any;
  }

  /** Nine inserts are enough: searching for a pair by its second field then crashes when the first pair
      in hash order is not it, although the pair is there and no deletion is pending. */
  method FirstCallCanCrash() returns (t: TupleTrie)
    ensures fresh(t) && t.Valid() && t.pending == multiset{} && t.refs > 0 && Searchable(t.sig, SECOND_IS_TEN)
    ensures AnyExact(SECOND_IS_TEN) && FirstCallCrashes(t.h, t.root, t.sig, SECOND_IS_TEN)
    ensures Pair(1) in t.Contents() && MatchesAll(SECOND_IS_TEN, Pair(1))
  {
    t := NinePairs();
    HashTreeCrashes(8);
    PairIsThere(t);
    TenIsSearchable();
  }
}
