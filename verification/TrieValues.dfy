/**
  Typed tuples and the way the trie flattens them.

  A tuple is walked with a stack of typed values.  Each step takes the value on top, yields one
  token and pushes the components of the value, so that a tuple becomes a sequence of tokens:
  the labels on its path in the trie.
 */
module TrieValues {

  datatype Type = TInt | TFloat | TNode | TList(elem: Type) | TStruct(fields: seq<Type>)

  datatype Value =
    | VInt(i: int)
    | VFloat(r: real)
    | VNode(n: nat)
    | VNil
    | VCons(head: Value, tail: Value)
    | VStruct(items: seq<Value>)

  type Tuple = seq<Value>

  // The data field of a trie node: lists show only whether they are empty, structs their size.
  datatype Token = IntTok(i: int) | FloatTok(r: real) | NodeTok(n: nat) | NilTok | ConsTok | SizeTok(size: nat)

  datatype Item = Item(ty: Type, val: Value)

  // An item whose value really has the type, one level deep per step.
  predicate HasType(v: Value, t: Type)
    decreases v
  {
    match v
    case VInt(_) => t == TInt
    case VFloat(_) => t == TFloat
    case VNode(_) => t == TNode
    case VNil => t.TList?
    case VCons(hd, tl) => t.TList? && HasType(hd, t.elem) && HasType(tl, t)
    case VStruct(vs) => t.TStruct? && |vs| == |t.fields| && forall i :: 0 <= i < |vs| ==> HasType(vs[i], t.fields[i])
  }

  predicate WellTyped(stk: seq<Item>) {
    forall i :: 0 <= i < |stk| ==> HasType(stk[i].val, stk[i].ty)
  }

  function Types(stk: seq<Item>): (r: seq<Type>)
    ensures |r| == |stk| && forall i :: 0 <= i < |stk| ==> r[i] == stk[i].ty
  {
    seq(|stk|, i requires 0 <= i < |stk| => stk[i].ty)
  }

  // The stack check_insert starts with: the fields of the tuple, first field on top.
  function Items(sig: seq<Type>, tup: Tuple): (r: seq<Item>)
    requires |sig| == |tup|
    ensures |r| == |sig| && forall i :: 0 <= i < |r| ==> r[i] == Item(sig[i], tup[i])
  {
    seq(|sig|, i requires 0 <= i < |sig| => Item(sig[i], tup[i]))
  }

  predicate TupleFits(sig: seq<Type>, tup: Tuple) {
    |sig| == |tup| && forall i :: 0 <= i < |tup| ==> HasType(tup[i], sig[i])
  }

  function TokenOf(it: Item): Token {
    match it.val
    case VInt(i) => IntTok(i)
    case VFloat(r) => FloatTok(r)
    case VNode(n) => NodeTok(n)
    case VNil => NilTok
    case VCons(_, _) => ConsTok
    case VStruct(vs) => SizeTok(|vs|)
  }

  // What is pushed in place of the item, top first.
  function Expand(it: Item): (r: seq<Item>)
    requires HasType(it.val, it.ty)
    ensures WellTyped(r)
    ensures Types(r) == After(TokenOf(it), it.ty)
    ensures forall i :: 0 <= i < |r| ==> r[i].val < it.val
  {
    match it.val
    case VCons(hd, tl) => [Item(it.ty.elem, hd), Item(it.ty, tl)]
    case VStruct(vs) => seq(|vs|, i requires 0 <= i < |vs| => Item(it.ty.fields[i], vs[i]))
    case _ => []
  }

  // The types of what is pushed depend only on the token.
  function After(tok: Token, ty: Type): seq<Type> {
    if tok == ConsTok && ty.TList? then [ty.elem, ty]
    else if tok.SizeTok? && ty.TStruct? then ty.fields
    else []
  }

  predicate TokenFits(tok: Token, ty: Type) {
    match ty
    case TInt => tok.IntTok?
    case TFloat => tok.FloatTok?
    case TNode => tok.NodeTok?
    case TList(_) => tok == NilTok || tok == ConsTok
    case TStruct(fs) => tok == SizeTok(|fs|)
  }

  function Size(v: Value): nat {
    match v
    case VCons(hd, tl) => 1 + Size(hd) + Size(tl)
    case VStruct(vs) => 1 + SizeAll(vs)
    case _ => 1
  }

  function SizeAll(vs: seq<Value>): nat {
    if vs == [] then 0 else Size(vs[0]) + SizeAll(vs[1..])
  }

  function StackSize(stk: seq<Item>): nat {
    if stk == [] then 0 else Size(stk[0].val) + StackSize(stk[1..])
  }

  lemma {:induction false} StackSizeAppend(a: seq<Item>, b: seq<Item>)
    ensures StackSize(a + b) == StackSize(a) + StackSize(b)
  {
    if a == [] {
      assert a + b == b;
    } else {
      assert (a + b)[1..] == a[1..] + b;
      StackSizeAppend(a[1..], b);
    }
  }

  lemma {:induction false} StructSize(fs: seq<Type>, vs: seq<Value>)
    requires |fs| == |vs|
    ensures StackSize(Items(fs, vs)) == SizeAll(vs)
  {
    if vs != [] {
      assert Items(fs, vs)[1..] == Items(fs[1..], vs[1..]);
      StructSize(fs[1..], vs[1..]);
    }
  }

  lemma ExpandSize(it: Item)
    requires HasType(it.val, it.ty)
    ensures StackSize(Expand(it)) == Size(it.val) - 1
  {
    if it.val.VStruct? {
      StructSize(it.ty.fields, it.val.items);
      assert Expand(it) == Items(it.ty.fields, it.val.items);
    } else if it.val.VCons? {
      var hd, tl := Item(it.ty.elem, it.val.head), Item(it.ty, it.val.tail);
      assert Expand(it) == [hd, tl];
      assert [hd, tl][1..] == [tl] && [tl][1..] == [];
      assert StackSize([tl]) == Size(tl.val) + StackSize([]);
    }
  }

  // One step of the walk: the stack loses exactly one unit of size.
  function Pop(stk: seq<Item>): (r: seq<Item>)
    requires stk != [] && WellTyped(stk)
    ensures WellTyped(r) && StackSize(r) == StackSize(stk) - 1
    ensures Types(r) == After(TokenOf(stk[0]), stk[0].ty) + Types(stk)[1..]
  {
    StackSizeAppend(Expand(stk[0]), stk[1..]);
    ExpandSize(stk[0]);
    Expand(stk[0]) + stk[1..]
  }

  // The path of a stack of values.
  function Flatten(stk: seq<Item>): seq<Token>
    requires WellTyped(stk)
    decreases StackSize(stk)
  {
    if stk == [] then [] else [TokenOf(stk[0])] + Flatten(Pop(stk))
  }

  lemma StackStep(stk: seq<Item>)
    requires WellTyped(stk) && stk != []
    ensures var toks := Flatten(stk);
            && toks != [] && toks[1..] == Flatten(Pop(stk)) && TokenFits(toks[0], Types(stk)[0])
            && Types(Pop(stk)) == After(toks[0], Types(stk)[0]) + Types(stk)[1..]
  {}

  function Path(sig: seq<Type>, tup: Tuple): seq<Token>
    requires TupleFits(sig, tup)
  {
    Flatten(Items(sig, tup))
  }

  // Token and components give the value back.
  lemma ExpandInjective(a: Item, b: Item)
    requires HasType(a.val, a.ty) && HasType(b.val, b.ty) && a.ty == b.ty
    requires TokenOf(a) == TokenOf(b) && Expand(a) == Expand(b)
    ensures a == b
  {}

  lemma PopInjective(a: seq<Item>, b: seq<Item>)
    requires a != [] && b != [] && WellTyped(a) && WellTyped(b)
    requires a[0].ty == b[0].ty && TokenOf(a[0]) == TokenOf(b[0]) && Pop(a) == Pop(b)
    ensures a == b
  {
    var k := |Expand(a[0])|;
    assert k == |Types(Expand(a[0]))| == |Types(Expand(b[0]))| == |Expand(b[0])|;
    assert Expand(a[0]) == Pop(a)[..k] == Pop(b)[..k] == Expand(b[0]);
    ExpandInjective(a[0], b[0]);
    assert a[1..] == Pop(a)[k..] == Pop(b)[k..] == b[1..];
    assert a == [a[0]] + a[1..] && b == [b[0]] + b[1..];
  }

  /** The flattening is injective and prefix-free: for stacks of the same types, one path can only
      be a prefix of another if the values are the same. */
  lemma {:induction false} FlattenPrefixFree(a: seq<Item>, b: seq<Item>)
    requires WellTyped(a) && WellTyped(b) && Types(a) == Types(b)
    requires Flatten(a) <= Flatten(b)
    ensures a == b
    decreases StackSize(a)
  {
    assert |a| == |Types(a)| == |Types(b)| == |b|;
    if a != [] {
      assert a[0].ty == Types(a)[0] == Types(b)[0] == b[0].ty;
      assert Flatten(a)[0] == Flatten(b)[0];
      assert Flatten(a)[1..] == Flatten(Pop(a)) && Flatten(b)[1..] == Flatten(Pop(b));
      FlattenPrefixFree(Pop(a), Pop(b));
      PopInjective(a, b);
    }
  }

  /** Two tuples of one predicate reach the same leaf if and only if they are equal. */
  lemma PathIdentifiesTuple(sig: seq<Type>, x: Tuple, y: Tuple)
    requires TupleFits(sig, x) && TupleFits(sig, y)
    ensures Path(sig, x) <= Path(sig, y) <==> x == y
  {
    if Path(sig, x) <= Path(sig, y) {
      assert Types(Items(sig, x)) == Types(Items(sig, y));
      FlattenPrefixFree(Items(sig, x), Items(sig, y));
      forall i | 0 <= i < |sig| ensures x[i] == y[i] {
        assert Items(sig, x)[i] == Items(sig, y)[i];
      }
    }
  }
}
