/**
  The store of linear facts: one cell a predicate, holding a list or a hash table, and one type bit
  a predicate that says which.
 */
module LinearStores {
  import opened HashTables
  import opened HashTableIterators

  // ------------------------------------------------------------------ the facts of a table

  ghost function BagOf(ls: seq<KeyList>): multiset<Fact> {
    if ls == [] then multiset{} else multiset(ls[0].items) + BagOf(ls[1..])
  }

  ghost function Bag(t: Table): multiset<Fact> {
    BagOf(WalkFrom(t, 0))
  }

  lemma {:induction false} BagOfKey(ls: seq<KeyList>, x: Fact)
    requires Distinct(ls) && forall i :: 0 <= i < |ls| ==> ListOk(ls[i])
    ensures BagOf(ls)[x] == multiset(Facts(Get(ls, x.key)))[x]
  {
    if ls != [] {
      BagOfKey(ls[1..], x);
      if ls[0].value == x.key {
        assert forall i :: 0 <= i < |ls[1..]| ==> ls[1..][i] == ls[i + 1];
        GetNone(ls[1..], x.key);
      } else {
        assert ListOk(ls[0]);
        assert x !in ls[0].items;
        FindIs(ls, x.key, 1 + Find(ls[1..], x.key));
      }
    }
  }

  /** A fact is in a table as often as it is in the list that lookup finds for its key. */
  lemma BagIsLookup(h: Hash, t: Table, x: Fact)
    requires WF(h, t, [])
    ensures Bag(t)[x] == multiset(Facts(Lookup(t, h(x.key), x.key)))[x]
  {
    var ls := WalkFrom(t, 0);
    EachListOnce(h, t);
    forall i | 0 <= i < |ls| ensures ListOk(ls[i]) {
      assert ls[i] in ls;
      LookupOk(h, t, [], ls[i].value);
    }
    BagOfKey(ls, x);
    var r := Lookup(t, h(x.key), x.key);
    LookupOk(h, t, [], x.key);
    if r.Some? {
      assert r.value in ls;
      GetUnique(ls, r.value);
    } else {
      forall i | 0 <= i < |ls| ensures ls[i].value != x.key {
        assert ls[i] in ls;
      }
      GetNone(ls, x.key);
    }
  }

  lemma BagNew(h: Hash)
    ensures WF(h, NEW_TABLE, []) && Bag(NEW_TABLE) == multiset{}
  {
    NewOk(h, Empty());
    WalkNew(Empty(), 0);
  }

  lemma NewOk(h: Hash, ss: seq<Slot>)
    requires |ss| == SUBHASH_SHIFT_SIZE && forall i :: 0 <= i < |ss| ==> ss[i] == Chain([])
    ensures WF(h, Table(ss, 0, 0), [])
  {
    TallyNone(ss);
  }

  lemma {:induction false} WalkNew(ss: seq<Slot>, i: nat)
    requires forall j :: 0 <= j < |ss| ==> ss[j] == Chain([])
    ensures WalkFrom(Table(ss, 0, 0), i) == []
    decreases HASH_TABLE_PRIME - i
  {
    if i < HASH_TABLE_PRIME {
      WalkNew(ss, i + 1);
    }
  }

  /** An insert adds exactly the fact. */
  lemma BagInsert(h: Hash, t: Table, x: Fact)
    requires WF(h, t, [])
    ensures var r := Insert(h, t, h(x.key), x, 0); WF(h, r, []) && Bag(r) == Bag(t) + multiset{x}
  {
    var r := Insert(h, t, h(x.key), x, 0);
    InsertWF(h, t, [], x);
    forall y ensures Bag(r)[y] == (Bag(t) + multiset{x})[y] {
      InsertLookup(h, t, [], x, y.key);
      BagIsLookup(h, t, y);
      BagIsLookup(h, r, y);
    }
  }

  /** An erase takes exactly the fact. */
  lemma BagErase(h: Hash, t: Table, k: Key, j: nat)
    requires WF(h, t, []) && j < |Facts(Lookup(t, h(k), k))|
    ensures var x := Facts(Lookup(t, h(k), k))[j];
            var r := Erase(t, h(k), k, j);
            WF(h, r, []) && x in Bag(t) && Bag(r) == Bag(t) - multiset{x}
  {
    var items := Facts(Lookup(t, h(k), k));
    var x, r := items[j], Erase(t, h(k), k, j);
    EraseWF(h, t, [], k, j);
    LookupOk(h, t, [], k);
    assert items[j] in items;
    BagIsLookup(h, t, x);
    forall y ensures Bag(r)[y] == (Bag(t) - multiset{x})[y] {
      EraseOne(h, t, k, j, y);
    }
  }

  lemma EraseOne(h: Hash, t: Table, k: Key, j: nat, y: Fact)
    requires WF(h, t, []) && j < |Facts(Lookup(t, h(k), k))| && WF(h, Erase(t, h(k), k, j), [])
    ensures Bag(Erase(t, h(k), k, j))[y] + (if y == Facts(Lookup(t, h(k), k))[j] then 1 else 0) == Bag(t)[y]
  {
    var items := Facts(Lookup(t, h(k), k));
    EraseLookup(h, t, [], k, j, y.key);
    LookupOk(h, t, [], k);
    assert items[j] in items;
    BagIsLookup(h, t, y);
    BagIsLookup(h, Erase(t, h(k), k, j), y);
    WithoutCount(items, j);
  }

  lemma WithoutCount(items: seq<Fact>, j: nat)
    requires j < |items|
    ensures multiset(Without(items, j)) == multiset(items) - multiset{items[j]}
  {
    assert items == items[..j] + [items[j]] + items[j + 1..];
  }

  // ------------------------------------------------------------------ the cells

  datatype Cell = ListCell(items: seq<Fact>) | TableCell(sh: Table, elems: int)

  ghost function FactsOf(c: Cell): multiset<Fact> {
    match c
    case ListCell(items) => multiset(items)
    case TableCell(sh, _) => Bag(sh)
  }

  ghost predicate CellOk(h: Hash, c: Cell) {
    c.TableCell? ==> WF(h, c.sh, []) && c.elems == |Bag(c.sh)|
  }

  // create_table
  method NewTable(h: Hash) returns (r: Cell)
    ensures r.TableCell? && CellOk(h, r) && FactsOf(r) == multiset{}
  {
    BagNew(h);
    r := TableCell(NEW_TABLE, 0);
  }

  // hash_table::insert
  method InsertOne(h: Hash, c: Cell, x: Fact) returns (r: Cell)
    requires c.TableCell? && CellOk(h, c)
    ensures r.TableCell? && CellOk(h, r) && FactsOf(r) == FactsOf(c) + multiset{x}
  {
    BagInsert(h, c.sh, x);
    r := TableCell(Insert(h, c.sh, h(x.key), x, 0), c.elems + 1);
  }

  method InsertAll(h: Hash, c: Cell, xs: seq<Fact>) returns (r: Cell)
    requires c.TableCell? && CellOk(h, c)
    ensures r.TableCell? && CellOk(h, r) && FactsOf(r) == FactsOf(c) + multiset(xs)
  {
    r := c;
    ghost var before := FactsOf(c);
    for i := 0 to |xs|
      invariant r.TableCell? && CellOk(h, r)
      invariant FactsOf(r) == before + multiset(xs[..i])
    {
      MultisetNext(xs, i);
      r := InsertOne(h, r, xs[i]);
    }
    assert xs[..|xs|] == xs;
  }

  lemma MultisetNext(xs: seq<Fact>, i: nat)
    requires i < |xs|
    ensures multiset(xs[..i + 1]) == multiset(xs[..i]) + multiset{xs[i]}
  {
    assert xs[..i + 1] == xs[..i] + [xs[i]];
  }

  // transform_list_to_hash_table
  method ListToTable(h: Hash, items: seq<Fact>) returns (r: Cell)
    ensures r.TableCell? && CellOk(h, r) && FactsOf(r) == multiset(items)
  {
    r := NewTable(h);
    r := InsertAll(h, r, items);
  }

  // transform_hash_table_to_list: the lists of all keys, spliced together
  method TableToList(h: Hash, sh: Table) returns (items: seq<Fact>)
    requires WF(h, sh, [])
    ensures multiset(items) == Bag(sh)
  {
    var lists := AllLists(h, sh);
    items := [];
    for i := 0 to |lists|
      invariant multiset(items) + BagOf(lists[i..]) == Bag(sh)
    {
      items := items + lists[i].items;
      assert lists[i..][1..] == lists[i + 1..];
    }
  }

  // too_sparse
  predicate TooSparse(sh: Table) {
    sh.uniqueLists < CREATE_HASHTABLE_THRESHOLD / 2 && sh.uniqueSubs == 0
  }

  class LinearStore {
    const h: Hash
    var cells: seq<Cell>
    var types: seq<bool>

    // The type bit of every predicate names the representation that is there.
    ghost predicate Valid()
      reads this
    {
      && |cells| == |types|
      && (forall p :: 0 <= p < |cells| ==> CellOk(h, cells[p]) && (types[p] <==> cells[p].TableCell?))
    }

    constructor (h: Hash, predicates: nat)
      ensures Valid() && this.h == h && |cells| == predicates
      ensures forall p :: 0 <= p < predicates ==> cells[p] == ListCell([])
    {
      this.h := h;
      cells := seq(predicates, _ => ListCell([]));
      types := seq(predicates, _ => false);
    }

    // The last step of every operation: a new content for one predicate.
    method Store(p: nat, c: Cell)
      requires Valid() && p < |cells| && CellOk(h, c)
      modifies this
      ensures Valid() && cells == old(cells)[p := c]
    {
      cells := cells[p := c];
      types := types[p := c.TableCell?];
    }

    // add_fact: isHash tells whether the predicate is to be indexed.
    method AddFact(p: nat, x: Fact, isHash: bool)
      requires Valid() && p < |cells|
      modifies this
      ensures Valid() && |cells| == |old(cells)|
      ensures FactsOf(cells[p]) == FactsOf(old(cells)[p]) + multiset{x}
      ensures types[p] <==> old(types)[p] || (isHash && |FactsOf(old(cells)[p])| + 1 >= CREATE_HASHTABLE_THRESHOLD)
      ensures !types[p] ==> cells[p] == ListCell(old(cells)[p].items + [x])
      ensures forall q :: 0 <= q < |cells| && q != p ==> cells[q] == old(cells)[q]
    {
      var c := cells[p];
      if types[p] {
        c := InsertAll(h, c, [x]);
      } else if isHash && |c.items| + 1 >= CREATE_HASHTABLE_THRESHOLD {
        c := ListToTable(h, c.items);
        c := InsertAll(h, c, [x]);
      } else {
        c := ListCell(c.items + [x]);
      }
      Store(p, c);
    }

    // add_fact_list: only a list that is spliced is left empty.
    method AddFactList(p: nat, xs: seq<Fact>, isHash: bool) returns (left: seq<Fact>)
      requires Valid() && p < |cells|
      modifies this
      ensures Valid() && |cells| == |old(cells)|
      ensures FactsOf(cells[p]) == FactsOf(old(cells)[p]) + multiset(xs)
      ensures types[p] <==> old(types)[p] || (isHash && |FactsOf(old(cells)[p])| + |xs| >= CREATE_HASHTABLE_THRESHOLD)
      ensures forall q :: 0 <= q < |cells| && q != p ==> cells[q] == old(cells)[q]
      ensures !types[p] ==> cells[p] == ListCell(old(cells)[p].items + xs)
      ensures left == if types[p] then xs else []
    {
      var c := cells[p];
      left := xs;
      if types[p] {
        c := InsertAll(h, c, xs);
      } else if isHash && |c.items| + |xs| >= CREATE_HASHTABLE_THRESHOLD {
        c := ListToTable(h, c.items);
        c := InsertAll(h, c, xs);
      } else {
        c := ListCell(c.items + xs);
        left := [];
      }
      Store(p, c);
    }

    // increment_database: the list that was added is always left empty.
    method IncrementDatabase(p: nat, xs: seq<Fact>, isHash: bool) returns (left: seq<Fact>)
      requires Valid() && p < |cells|
      modifies this
      ensures Valid() && |cells| == |old(cells)| && left == []
      ensures FactsOf(cells[p]) == FactsOf(old(cells)[p]) + multiset(xs)
      ensures types[p] <==> old(types)[p] || (isHash && |FactsOf(old(cells)[p])| + |xs| >= CREATE_HASHTABLE_THRESHOLD)
      ensures !types[p] ==> cells[p] == ListCell(old(cells)[p].items + xs)
      ensures forall q :: 0 <= q < |cells| && q != p ==> cells[q] == old(cells)[q]
    {
      left := AddFactList(p, xs, isHash);
      left := [];
    }

    // erase_from_list on a table: the j-th fact of a key
    method EraseFact(p: nat, k: Key, j: nat)
      requires Valid() && p < |cells| && types[p]
      requires j < |Facts(Lookup(cells[p].sh, h(k), k))|
      modifies this
      ensures Valid() && |cells| == |old(cells)| && types == old(types)
      ensures FactsOf(cells[p]) == FactsOf(old(cells)[p]) - multiset{Facts(Lookup(old(cells)[p].sh, h(k), k))[j]}
      ensures forall q :: 0 <= q < |cells| && q != p ==> cells[q] == old(cells)[q]
    {
      BagErase(h, cells[p].sh, k, j);
      Store(p, TableCell(Erase(cells[p].sh, h(k), k, j), cells[p].elems - 1));
    }

    // cleanup_index: tables with few keys go back to lists.
    method CleanupIndex()
      requires Valid()
      modifies this
      ensures Valid() && |cells| == |old(cells)|
      ensures forall p :: 0 <= p < |cells| ==> FactsOf(cells[p]) == FactsOf(old(cells)[p])
      ensures forall p :: 0 <= p < |cells| ==> if old(types)[p] && TooSparse(old(cells)[p].sh) then !types[p] else cells[p] == old(cells)[p]
    {
      for p := 0 to |cells|
        invariant Valid() && |cells| == |old(cells)|
        invariant forall q :: p <= q < |cells| ==> cells[q] == old(cells)[q]
        invariant forall q :: 0 <= q < p ==> FactsOf(cells[q]) == FactsOf(old(cells)[q])
        invariant forall q :: 0 <= q < p ==> if old(types)[q] && TooSparse(old(cells)[q].sh) then !types[q] else cells[q] == old(cells)[q]
      {
        if types[p] && TooSparse(cells[p].sh) {
          var items := TableToList(h, cells[p].sh);
          Store(p, ListCell(items));
        }
      }
    }
  }
}
