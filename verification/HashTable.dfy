/**
  The nested hash table of linear facts.

  A table has 29 slots in use out of 32.  A slot holds a chain of key lists or a table of the next
  level; slot 31 of a nested table holds its slot in the parent.  The hash of a key is consumed five
  bits a level.
 */
module HashTables {

  const SUBHASH_SHIFT_SIZE: nat := 32
  const HASH_TABLE_PRIME: nat := 29
  const CREATE_HASHTABLE_THRESHOLD: nat := 8
  const HASH_TABLE_MAX_LEVELS: nat := 4

  // The hashed field of a fact, up to the equality the table uses: lists only show if they are nil.
  datatype Key = IntKey(i: int) | FloatKey(r: real) | NodeKey(n: nat) | NilKey | ConsKey

  datatype Fact = Fact(id: nat, key: Key)

  datatype KeyList = KeyList(value: Key, items: seq<Fact>)

  datatype Slot = Chain(lists: seq<KeyList>) | Sub(table: Table) | Back(idx: nat)

  datatype Table = Table(slots: seq<Slot>, uniqueLists: int, uniqueSubs: int)

  datatype Option<T> = None | Some(value: T)

  type Hash = Key -> nat

  function Idx(id: nat): (i: nat)
    ensures i < HASH_TABLE_PRIME
  {
    id % SUBHASH_SHIFT_SIZE % HASH_TABLE_PRIME
  }

  // The hash that is left at a level.
  function Shift(id: nat, level: nat): nat {
    if level == 0 then id else Shift(id, level - 1) / SUBHASH_SHIFT_SIZE
  }

  function SlotAt(id: nat, level: nat): (i: nat)
    ensures i < HASH_TABLE_PRIME
  {
    Idx(Shift(id, level))
  }

  // ------------------------------------------------------------------ chains

  // The position of the key in the chain, or its length.
  function Find(ks: seq<KeyList>, k: Key): (i: nat)
    ensures i <= |ks| && (i < |ks| ==> ks[i].value == k)
    ensures forall j :: 0 <= j < i ==> ks[j].value != k
  {
    if ks == [] || ks[0].value == k then 0 else 1 + Find(ks[1..], k)
  }

  function Get(ks: seq<KeyList>, k: Key): Option<KeyList> {
    if Find(ks, k) < |ks| then Some(ks[Find(ks, k)]) else None
  }

  predicate Distinct(ks: seq<KeyList>) {
    forall i, j :: 0 <= i < j < |ks| ==> ks[i].value != ks[j].value
  }

  // ------------------------------------------------------------------ well-formed tables

  predicate OnPath(h: Hash, k: Key, path: seq<nat>) {
    forall j :: 0 <= j < |path| ==> SlotAt(h(k), j) == path[j]
  }

  predicate ListOk(kl: KeyList) {
    kl.items != [] && forall x :: x in kl.items ==> x.key == kl.value
  }

  predicate ChainOk(h: Hash, ks: seq<KeyList>, path: seq<nat>) {
    Distinct(ks) && forall kl :: kl in ks ==> ListOk(kl) && OnPath(h, kl.value, path)
  }

  // A chain of eight is split, except on the last level; all of them may end up in one slot again.
  predicate Short(ks: seq<KeyList>, level: nat) {
    level + 1 < HASH_TABLE_MAX_LEVELS ==> |ks| < CREATE_HASHTABLE_THRESHOLD + level
  }

  // Key lists in the chains of the table itself, and nested tables in its slots.
  function Lists(ss: seq<Slot>): nat {
    if ss == [] then 0 else (if ss[0].Chain? then |ss[0].lists| else 0) + Lists(ss[1..])
  }

  function Subs(ss: seq<Slot>): nat {
    if ss == [] then 0 else (if ss[0].Sub? then 1 else 0) + Subs(ss[1..])
  }

  ghost predicate SlotOk(h: Hash, s: Slot, path: seq<nat>, i: nat)
    decreases s, 0
  {
    match s
    case Chain(ks) => ChainOk(h, ks, path + [i]) && Short(ks, |path|)
    case Sub(u) => WF(h, u, path + [i]) && u.slots[31] == Back(i) && u.uniqueLists + u.uniqueSubs > 0
    case Back(_) => false
  }

  // path: the slots that lead here from the root; its length is the level.
  ghost predicate WF(h: Hash, t: Table, path: seq<nat>)
    decreases t, 1
  {
    && |t.slots| == SUBHASH_SHIFT_SIZE && |path| < HASH_TABLE_MAX_LEVELS
    && (forall i :: 0 <= i < HASH_TABLE_PRIME ==> SlotOk(h, t.slots[i], path, i))
    && t.slots[29] == t.slots[30] == Chain([])
    && (if path == [] then t.slots[31] == Chain([]) else t.slots[31].Back?)
    && t.uniqueLists == Lists(t.slots) && t.uniqueSubs == Subs(t.slots)
  }

  lemma {:induction false} TallySet(ss: seq<Slot>, i: nat, s: Slot)
    requires i < |ss|
    ensures Lists(ss[i := s]) == Lists(ss) - Lists([ss[i]]) + Lists([s])
    ensures Subs(ss[i := s]) == Subs(ss) - Subs([ss[i]]) + Subs([s])
    ensures Lists(ss) >= Lists([ss[i]]) && Subs(ss) >= Subs([ss[i]])
  {
    assert [s][1..] == [] && [ss[i]][1..] == [];
    if i == 0 {
      assert ss[0 := s][1..] == ss[1..];
    } else {
      TallySet(ss[1..], i - 1, s);
      assert ss[i := s][1..] == ss[1..][i - 1 := s];
      assert ss[1..][i - 1] == ss[i];
    }
  }

  lemma {:induction false} TallyNone(ss: seq<Slot>)
    requires forall i :: 0 <= i < |ss| ==> ss[i] == Chain([])
    ensures Lists(ss) == 0 && Subs(ss) == 0
  {
    if ss != [] {
      TallyNone(ss[1..]);
    }
  }

  function Empty(): (r: seq<Slot>)
    ensures |r| == SUBHASH_SHIFT_SIZE && forall i :: 0 <= i < |r| ==> r[i] == Chain([])
  {
    seq(SUBHASH_SHIFT_SIZE, _ => Chain([]))
  }

  // setup
  const NEW_TABLE: Table := Table(Empty(), 0, 0)

  // ------------------------------------------------------------------ lookup_list

  function Lookup(t: Table, id: nat, k: Key): Option<KeyList>
    decreases t
  {
    if |t.slots| != SUBHASH_SHIFT_SIZE then None else
    match t.slots[Idx(id)]
    case Sub(u) => Lookup(u, id / SUBHASH_SHIFT_SIZE, k)
    case Chain(ks) => Get(ks, k)
    case Back(_) => None
  }

  // The facts of a key, in the order of the list.
  function Facts(r: Option<KeyList>): seq<Fact> {
    if r.Some? then r.value.items else []
  }

  lemma {:induction false} LookupOk(h: Hash, t: Table, path: seq<nat>, k: Key)
    requires WF(h, t, path)
    ensures var r := Lookup(t, Shift(h(k), |path|), k); r.Some? ==> ListOk(r.value) && r.value.value == k
    decreases t
  {
    var i := SlotAt(h(k), |path|);
    assert SlotOk(h, t.slots[i], path, i);
    match t.slots[i]
    case Sub(u) => LookupOk(h, u, path + [i], k);
    case Chain(ks) =>
      assert Find(ks, k) < |ks| ==> ks[Find(ks, k)] in ks;
    case Back(_) =>
  }

  // ------------------------------------------------------------------ splitting a chain

  // Each key list goes to the front of its slot in the new table.
  function Spread(h: Hash, ks: seq<KeyList>, level: nat, ss: seq<Slot>): (r: seq<Slot>)
    requires |ss| == SUBHASH_SHIFT_SIZE && forall i :: 0 <= i < |ss| ==> ss[i].Chain?
    ensures |r| == SUBHASH_SHIFT_SIZE && forall i :: 0 <= i < |r| ==> r[i].Chain? && (i >= HASH_TABLE_PRIME ==> r[i] == ss[i])
    decreases |ks|
  {
    if ks == [] then ss else
    var i := SlotAt(h(ks[0].value), level);
    Spread(h, ks[1..], level, ss[i := Chain([ks[0]] + ss[i].lists)])
  }

  function Split(h: Hash, ks: seq<KeyList>, level: nat, idx: nat): Table {
    Table(Spread(h, ks, level, Empty())[31 := Back(idx)], |ks|, 0)
  }

  lemma {:induction false} SpreadTally(h: Hash, ks: seq<KeyList>, level: nat, ss: seq<Slot>)
    requires |ss| == SUBHASH_SHIFT_SIZE && forall i :: 0 <= i < |ss| ==> ss[i].Chain?
    ensures Lists(Spread(h, ks, level, ss)) == Lists(ss) + |ks| && Subs(Spread(h, ks, level, ss)) == Subs(ss)
    decreases |ks|
  {
    if ks != [] {
      var i := SlotAt(h(ks[0].value), level);
      var s := Chain([ks[0]] + ss[i].lists);
      TallySet(ss, i, s);
      assert [s][1..] == [] && [ss[i]][1..] == [];
      SpreadTally(h, ks[1..], level, ss[i := s]);
    }
  }

  // A chain in the slots and a chain still to be spread have no key in common.
  ghost predicate Fresh(ks: seq<KeyList>, ss: seq<Slot>) {
    && Distinct(ks)
    && (forall i :: 0 <= i < |ss| ==> ss[i].Chain? && Distinct(ss[i].lists))
    && (forall i, a, b :: 0 <= i < |ss| && a in ks && b in ss[i].lists ==> a.value != b.value)
  }

  lemma FreshStep(ks: seq<KeyList>, ss: seq<Slot>, i: nat)
    requires Fresh(ks, ss) && ks != [] && i < |ss|
    ensures Fresh(ks[1..], ss[i := Chain([ks[0]] + ss[i].lists)])
  {}

  // What a slot holds after spreading came from the chain, with that slot, or was there before.
  lemma {:induction false} SpreadFrom(h: Hash, ks: seq<KeyList>, level: nat, ss: seq<Slot>, i: nat, kl: KeyList)
    requires |ss| == SUBHASH_SHIFT_SIZE && Fresh(ks, ss) && i < SUBHASH_SHIFT_SIZE
    ensures Distinct(Spread(h, ks, level, ss)[i].lists)
    ensures kl in Spread(h, ks, level, ss)[i].lists ==> (kl in ks && SlotAt(h(kl.value), level) == i) || kl in ss[i].lists
    decreases |ks|
  {
    if ks != [] {
      var j := SlotAt(h(ks[0].value), level);
      FreshStep(ks, ss, j);
      SpreadFrom(h, ks[1..], level, ss[j := Chain([ks[0]] + ss[j].lists)], i, kl);
    }
  }

  lemma GetUnique(ks: seq<KeyList>, kl: KeyList)
    requires Distinct(ks) && kl in ks
    ensures Get(ks, kl.value) == Some(kl)
  {}

  lemma GetNone(ks: seq<KeyList>, k: Key)
    requires forall i :: 0 <= i < |ks| ==> ks[i].value != k
    ensures Get(ks, k) == None
  {}

  /** Splitting a chain changes no lookup. */
  lemma {:induction false} SpreadGet(h: Hash, ks: seq<KeyList>, level: nat, ss: seq<Slot>, k: Key)
    requires |ss| == SUBHASH_SHIFT_SIZE && Fresh(ks, ss)
    ensures var i := SlotAt(h(k), level);
            Get(Spread(h, ks, level, ss)[i].lists, k) == if Get(ks, k).Some? then Get(ks, k) else Get(ss[i].lists, k)
    decreases |ks|
  {
    if ks != [] {
      var i := SlotAt(h(k), level);
      var j := SlotAt(h(ks[0].value), level);
      var ls := [ks[0]] + ss[j].lists;
      FreshStep(ks, ss, j);
      SpreadGet(h, ks[1..], level, ss[j := Chain(ls)], k);
      assert ls[1..] == ss[j].lists;
      GetFront(ks, k);
      GetFront(ls, k);
      if ks[0].value == k {
        assert forall n :: 0 <= n < |ks[1..]| ==> ks[1..][n] == ks[n + 1];
        GetNone(ks[1..], k);
      }
    }
  }

  lemma GetFront(ks: seq<KeyList>, k: Key)
    requires ks != []
    ensures Get(ks, k) == if ks[0].value == k then Some(ks[0]) else Get(ks[1..], k)
  {}

  lemma {:induction false} SpreadShort(h: Hash, ks: seq<KeyList>, level: nat, ss: seq<Slot>, i: nat)
    requires |ss| == SUBHASH_SHIFT_SIZE && i < |ss| && forall j :: 0 <= j < |ss| ==> ss[j].Chain?
    ensures |Spread(h, ks, level, ss)[i].lists| <= |ks| + |ss[i].lists|
    decreases |ks|
  {
    if ks != [] {
      var j := SlotAt(h(ks[0].value), level);
      SpreadShort(h, ks[1..], level, ss[j := Chain([ks[0]] + ss[j].lists)], i);
    }
  }

  lemma SplitSlot(h: Hash, ks: seq<KeyList>, path: seq<nat>, i: nat)
    requires ChainOk(h, ks, path) && i < HASH_TABLE_PRIME && |ks| < CREATE_HASHTABLE_THRESHOLD + |path|
    ensures SlotOk(h, Spread(h, ks, |path|, Empty())[i], path, i)
  {
    var ls := Spread(h, ks, |path|, Empty())[i].lists;
    assert Fresh(ks, Empty());
    SpreadShort(h, ks, |path|, Empty(), i);
    forall kl | kl in ls ensures ListOk(kl) && OnPath(h, kl.value, path + [i]) {
      SpreadFrom(h, ks, |path|, Empty(), i, kl);
    }
    assert Distinct(ls) by {
      SpreadFrom(h, ks, |path|, Empty(), i, KeyList(NilKey, []));
    }
  }

  lemma SplitWF(h: Hash, ks: seq<KeyList>, path: seq<nat>, idx: nat)
    requires ChainOk(h, ks, path) && path != [] && |path| < HASH_TABLE_MAX_LEVELS && |ks| < CREATE_HASHTABLE_THRESHOLD + |path|
    ensures WF(h, Split(h, ks, |path|, idx), path)
  {
    var ss := Spread(h, ks, |path|, Empty());
    TallyNone(Empty());
    SpreadTally(h, ks, |path|, Empty());
    TallySet(ss, 31, Back(idx));
    forall i | 0 <= i < HASH_TABLE_PRIME ensures SlotOk(h, ss[i], path, i) {
      SplitSlot(h, ks, path, i);
    }
  }

  // ------------------------------------------------------------------ insert

  function Insert(h: Hash, t: Table, id: nat, x: Fact, level: nat): Table
    decreases t
  {
    if |t.slots| != SUBHASH_SHIFT_SIZE then t else
    var idx := Idx(id);
    match t.slots[idx]
    case Sub(u) => t.(slots := t.slots[idx := Sub(Insert(h, u, id / SUBHASH_SHIFT_SIZE, x, level + 1))])
    case Chain(ks) => Put(h, t, idx, ks, x, level)
    case Back(_) => t
  }

  // The fact joins the list of its key, or a new list at the end of the chain.  A chain of eight
  // becomes a nested table, down to the last level.
  function Put(h: Hash, t: Table, idx: nat, ks: seq<KeyList>, x: Fact, level: nat): Table
    requires idx < |t.slots|
  {
    var n := Find(ks, x.key);
    if n < |ks| then
      t.(slots := t.slots[idx := Chain(ks[n := KeyList(ks[n].value, ks[n].items + [x])])])
    else
      var ks' := ks + [KeyList(x.key, [x])];
      if |ks| + 1 >= CREATE_HASHTABLE_THRESHOLD && level + 1 < HASH_TABLE_MAX_LEVELS then
        Table(t.slots[idx := Sub(Split(h, ks', level + 1, idx))], t.uniqueLists + 1 - |ks'|, t.uniqueSubs + 1)
      else
        Table(t.slots[idx := Chain(ks')], t.uniqueLists + 1, t.uniqueSubs)
  }

  // Another content for one slot, with the counters moved along.
  lemma SetSlotWF(h: Hash, t: Table, path: seq<nat>, i: nat, s: Slot, lists: int, subs: int)
    requires WF(h, t, path) && i < HASH_TABLE_PRIME && SlotOk(h, s, path, i)
    requires lists == t.uniqueLists - Lists([t.slots[i]]) + Lists([s])
    requires subs == t.uniqueSubs - Subs([t.slots[i]]) + Subs([s])
    ensures WF(h, Table(t.slots[i := s], lists, subs), path)
  {
    TallySet(t.slots, i, s);
    var ss := t.slots[i := s];
    forall j | 0 <= j < HASH_TABLE_PRIME ensures SlotOk(h, ss[j], path, j) {
      assert SlotOk(h, t.slots[j], path, j);
    }
  }

  lemma TallyOne(s: Slot)
    ensures Lists([s]) == (if s.Chain? then |s.lists| else 0) && Subs([s]) == (if s.Sub? then 1 else 0)
  {}

  lemma ChainPut(h: Hash, ks: seq<KeyList>, path: seq<nat>, x: Fact)
    requires ChainOk(h, ks, path) && OnPath(h, x.key, path)
    ensures var n := Find(ks, x.key);
            ChainOk(h, if n < |ks| then ks[n := KeyList(ks[n].value, ks[n].items + [x])] else ks + [KeyList(x.key, [x])], path)
  {}

  lemma PathStep(h: Hash, k: Key, path: seq<nat>)
    requires OnPath(h, k, path)
    ensures OnPath(h, k, path + [SlotAt(h(k), |path|)])
  {}

  /** An insert keeps the table well-formed: counters, distinct keys, paths and back indices. */
  lemma {:induction false} InsertWF(h: Hash, t: Table, path: seq<nat>, x: Fact)
    requires WF(h, t, path) && OnPath(h, x.key, path)
    ensures var r := Insert(h, t, Shift(h(x.key), |path|), x, |path|);
            && WF(h, r, path) && r.slots[31] == t.slots[31]
            && r.uniqueLists + r.uniqueSubs > 0
    decreases t
  {
    var id := Shift(h(x.key), |path|);
    var i := Idx(id);
    assert SlotOk(h, t.slots[i], path, i);
    PathStep(h, x.key, path);
    match t.slots[i]
    case Sub(u) =>
      InsertWF(h, u, path + [i], x);
      assert Shift(h(x.key), |path| + 1) == id / SUBHASH_SHIFT_SIZE;
      TallySet(t.slots, i, t.slots[i]);
      InsertSub(h, t, path, i, Insert(h, u, id / SUBHASH_SHIFT_SIZE, x, |path| + 1));
    case Chain(ks) =>
      PutWF(h, t, path, i, ks, x);
    case Back(_) =>
  }

  lemma InsertSub(h: Hash, t: Table, path: seq<nat>, i: nat, u: Table)
    requires WF(h, t, path) && i < HASH_TABLE_PRIME && t.slots[i].Sub? && SlotOk(h, Sub(u), path, i)
    ensures WF(h, t.(slots := t.slots[i := Sub(u)]), path) && t.uniqueSubs > 0
  {
    TallyOne(t.slots[i]);
    TallyOne(Sub(u));
    TallySet(t.slots, i, Sub(u));
    SetSlotWF(h, t, path, i, Sub(u), t.uniqueLists, t.uniqueSubs);
  }

  lemma PutWF(h: Hash, t: Table, path: seq<nat>, i: nat, ks: seq<KeyList>, x: Fact)
    requires WF(h, t, path) && i < HASH_TABLE_PRIME && t.slots[i] == Chain(ks) && OnPath(h, x.key, path + [i])
    ensures var r := Put(h, t, i, ks, x, |path|);
            WF(h, r, path) && r.slots[31] == t.slots[31] && r.uniqueLists + r.uniqueSubs > 0
  {
    assert SlotOk(h, t.slots[i], path, i);
    ChainPut(h, ks, path + [i], x);
    TallyOne(t.slots[i]);
    TallySet(t.slots, i, t.slots[i]);
    var n := Find(ks, x.key);
    var ks' := if n < |ks| then ks[n := KeyList(ks[n].value, ks[n].items + [x])] else ks + [KeyList(x.key, [x])];
    if n == |ks| && |ks| + 1 >= CREATE_HASHTABLE_THRESHOLD && |path| + 1 < HASH_TABLE_MAX_LEVELS {
      var u := Split(h, ks', |path| + 1, i);
      SplitWF(h, ks', path + [i], i);
      TallyOne(Sub(u));
      SetSlotWF(h, t, path, i, Sub(u), t.uniqueLists + 1 - |ks'|, t.uniqueSubs + 1);
    } else {
      TallyOne(Chain(ks'));
      SetSlotWF(h, t, path, i, Chain(ks'), t.uniqueLists + |ks'| - |ks|, t.uniqueSubs);
    }
  }

  /** An insert appends the fact to the list of its key, and changes no other list, whatever chains
      it splits. */
  lemma {:induction false} InsertLookup(h: Hash, t: Table, path: seq<nat>, x: Fact, k: Key)
    requires WF(h, t, path)
    ensures var id, r := Shift(h(k), |path|), Insert(h, t, Shift(h(x.key), |path|), x, |path|);
            Lookup(r, id, k) == if k == x.key then With(k, Lookup(t, id, k), x) else Lookup(t, id, k)
    decreases t
  {
    var i, id := SlotAt(h(x.key), |path|), Shift(h(k), |path|);
    assert SlotOk(h, t.slots[i], path, i);
    match t.slots[i]
    case Sub(u) =>
      InsertLookup(h, u, path + [i], x, k);
      ThroughSlot(t, id, i, Sub(Insert(h, u, Shift(h(x.key), |path| + 1), x, |path| + 1)), t.uniqueLists, t.uniqueSubs, k);
    case Chain(ks) =>
      PutLookup(h, t, |path|, i, ks, x, k);
    case Back(_) =>
  }

  // The list of a key with one more fact
  function With(k: Key, r: Option<KeyList>, x: Fact): Option<KeyList> {
    Some(KeyList(k, Facts(r) + [x]))
  }

  // Another content of one slot changes the lookups that go through this slot, and no others.
  lemma ThroughSlot(t: Table, id: nat, i: nat, s: Slot, lists: int, subs: int, k: Key)
    requires |t.slots| == SUBHASH_SHIFT_SIZE && i < HASH_TABLE_PRIME
    ensures Lookup(Table(t.slots[i := s], lists, subs), id, k)
            == if Idx(id) != i then Lookup(t, id, k)
               else match s case Sub(u) => Lookup(u, id / SUBHASH_SHIFT_SIZE, k) case Chain(ks) => Get(ks, k) case Back(_) => None
  {}

  lemma PutLookup(h: Hash, t: Table, level: nat, i: nat, ks: seq<KeyList>, x: Fact, k: Key)
    requires |t.slots| == SUBHASH_SHIFT_SIZE && i == SlotAt(h(x.key), level) && t.slots[i] == Chain(ks) && Distinct(ks)
    ensures var id := Shift(h(k), level);
            Lookup(Put(h, t, i, ks, x, level), id, k) == if k == x.key then With(k, Lookup(t, id, k), x) else Lookup(t, id, k)
  {
    var r, id, n := Put(h, t, i, ks, x, level), Shift(h(k), level), Find(ks, x.key);
    ThroughSlot(t, id, i, r.slots[i], r.uniqueLists, r.uniqueSubs, k);
    assert r == Table(t.slots[i := r.slots[i]], r.uniqueLists, r.uniqueSubs);
    if Idx(id) == i {
      GetPut(ks, x, k);
      if r.slots[i].Sub? {
        SplitGet(h, ks, level + 1, i, x, k);
      }
    }
  }

  lemma SplitGet(h: Hash, ks: seq<KeyList>, level: nat, i: nat, x: Fact, k: Key)
    requires Distinct(ks) && Find(ks, x.key) == |ks|
    ensures var ks' := ks + [KeyList(x.key, [x])]; Lookup(Split(h, ks', level, i), Shift(h(k), level), k) == Get(ks', k)
  {
    var ks' := ks + [KeyList(x.key, [x])];
    assert Fresh(ks', Empty());
    SpreadGet(h, ks', level, Empty(), k);
  }

  lemma GetPut(ks: seq<KeyList>, x: Fact, k: Key)
    ensures var n := Find(ks, x.key);
            && (n < |ks| ==> Get(ks[n := KeyList(ks[n].value, ks[n].items + [x])], k) == if k == x.key then With(k, Get(ks, k), x) else Get(ks, k))
            && (n == |ks| ==> Get(ks + [KeyList(x.key, [x])], k) == if k == x.key then With(k, Get(ks, k), x) else Get(ks, k))
  {
    var n := Find(ks, x.key);
    if n < |ks| {
      FindIs(ks[n := KeyList(ks[n].value, ks[n].items + [x])], k, Find(ks, k));
    } else {
      assert [] + [x] == [x];
      FindIs(ks + [KeyList(x.key, [x])], k, if k == x.key then |ks| else if Find(ks, k) < |ks| then Find(ks, k) else |ks| + 1);
    }
  }

  lemma FindIs(ks: seq<KeyList>, k: Key, n: nat)
    requires n <= |ks| && (n < |ks| ==> ks[n].value == k) && forall j :: 0 <= j < n ==> ks[j].value != k
    ensures Find(ks, k) == n
  {}

  // ------------------------------------------------------------------ erase_from_list

  function Without(items: seq<Fact>, j: nat): seq<Fact>
    requires j < |items|
  {
    items[..j] + items[j + 1..]
  }

  // The chain when the j-th fact of its n-th list is gone; an empty list leaves the chain.
  function Dropped(ks: seq<KeyList>, n: nat, j: nat): seq<KeyList>
    requires n < |ks| && j < |ks[n].items|
  {
    var items := Without(ks[n].items, j);
    if items == [] then ks[..n] + ks[n + 1..] else ks[n := KeyList(ks[n].value, items)]
  }

  // check_empty_table on the way up: an empty nested table is unhooked at the slot its last entry
  // names.
  function Erase(t: Table, id: nat, k: Key, j: nat): Table
    requires j < |Facts(Lookup(t, id, k))|
    decreases t
  {
    var idx := Idx(id);
    match t.slots[idx]
    case Sub(u) =>
      var u' := Erase(u, id / SUBHASH_SHIFT_SIZE, k, j);
      if u'.uniqueLists == 0 && u'.uniqueSubs == 0 && |u'.slots| == SUBHASH_SHIFT_SIZE && u'.slots[31].Back? && u'.slots[31].idx < |t.slots| then
        Table(t.slots[u'.slots[31].idx := Chain([])], t.uniqueLists, t.uniqueSubs - 1)
      else
        t.(slots := t.slots[idx := Sub(u')])
    case Chain(ks) =>
      var ks' := Dropped(ks, Find(ks, k), j);
      Table(t.slots[idx := Chain(ks')], t.uniqueLists + |ks'| - |ks|, t.uniqueSubs)
    case Back(_) => t
  }

  lemma ChainDrop(h: Hash, ks: seq<KeyList>, path: seq<nat>, n: nat, j: nat)
    requires ChainOk(h, ks, path) && n < |ks| && j < |ks[n].items|
    ensures ChainOk(h, Dropped(ks, n, j), path)
  {}

  /** Erasing a fact keeps the table well-formed; no empty nested table is left behind. */
  lemma {:induction false} EraseWF(h: Hash, t: Table, path: seq<nat>, k: Key, j: nat)
    requires WF(h, t, path) && j < |Facts(Lookup(t, Shift(h(k), |path|), k))|
    ensures var r := Erase(t, Shift(h(k), |path|), k, j); WF(h, r, path) && r.slots[31] == t.slots[31]
    decreases t
  {
    var id := Shift(h(k), |path|);
    var i := Idx(id);
    assert SlotOk(h, t.slots[i], path, i);
    match t.slots[i]
    case Sub(u) =>
      EraseWF(h, u, path + [i], k, j);
      EraseSub(h, t, path, i, Erase(u, id / SUBHASH_SHIFT_SIZE, k, j));
    case Chain(ks) =>
      EraseInChain(h, t, path, i, ks, Find(ks, k), j);
    case Back(_) =>
  }

  lemma EraseInChain(h: Hash, t: Table, path: seq<nat>, i: nat, ks: seq<KeyList>, n: nat, j: nat)
    requires WF(h, t, path) && i < HASH_TABLE_PRIME && t.slots[i] == Chain(ks) && n < |ks| && j < |ks[n].items|
    ensures var ks' := Dropped(ks, n, j);
            WF(h, Table(t.slots[i := Chain(ks')], t.uniqueLists + |ks'| - |ks|, t.uniqueSubs), path)
  {
    assert SlotOk(h, t.slots[i], path, i);
    var ks' := Dropped(ks, n, j);
    ChainDrop(h, ks, path + [i], n, j);
    TallyOne(Chain(ks));
    TallyOne(Chain(ks'));
    SetSlotWF(h, t, path, i, Chain(ks'), t.uniqueLists + |ks'| - |ks|, t.uniqueSubs);
  }

  lemma EraseSub(h: Hash, t: Table, path: seq<nat>, i: nat, u: Table)
    requires WF(h, t, path) && i < HASH_TABLE_PRIME && t.slots[i].Sub?
    requires WF(h, u, path + [i]) && u.slots[31] == Back(i)
    ensures if u.uniqueLists == 0 && u.uniqueSubs == 0 then WF(h, Table(t.slots[i := Chain([])], t.uniqueLists, t.uniqueSubs - 1), path)
            else WF(h, t.(slots := t.slots[i := Sub(u)]), path)
  {
    TallyOne(t.slots[i]);
    if u.uniqueLists == 0 && u.uniqueSubs == 0 {
      TallyOne(Chain([]));
      SetSlotWF(h, t, path, i, Chain([]), t.uniqueLists, t.uniqueSubs - 1);
    } else {
      TallyOne(Sub(u));
      SetSlotWF(h, t, path, i, Sub(u), t.uniqueLists, t.uniqueSubs);
    }
  }

  lemma EmptyLookup(h: Hash, t: Table, path: seq<nat>, k: Key)
    requires WF(h, t, path) && t.uniqueLists == 0 && t.uniqueSubs == 0
    ensures Lookup(t, Shift(h(k), |path|), k) == None
  {
    var i := SlotAt(h(k), |path|);
    assert SlotOk(h, t.slots[i], path, i);
    TallySet(t.slots, i, t.slots[i]);
    TallyOne(t.slots[i]);
  }

  // The list of the key without the fact; no list at all if it was the only one.
  function Less(r: Option<KeyList>, j: nat): Option<KeyList>
    requires j < |Facts(r)|
  {
    var items := Without(r.value.items, j);
    if items == [] then None else Some(KeyList(r.value.value, items))
  }

  /** Erasing takes the fact out of the list of its key, and changes no other list, whatever nested
      tables it collapses. */
  lemma {:induction false} EraseLookup(h: Hash, t: Table, path: seq<nat>, k: Key, j: nat, k': Key)
    requires WF(h, t, path) && j < |Facts(Lookup(t, Shift(h(k), |path|), k))|
    ensures var id, r := Shift(h(k'), |path|), Erase(t, Shift(h(k), |path|), k, j);
            Lookup(r, id, k') == if k' == k then Less(Lookup(t, id, k), j) else Lookup(t, id, k')
    decreases t
  {
    var i, id := SlotAt(h(k), |path|), Shift(h(k'), |path|);
    assert SlotOk(h, t.slots[i], path, i);
    var r := Erase(t, Shift(h(k), |path|), k, j);
    match t.slots[i]
    case Sub(u) =>
      EraseLookup(h, u, path + [i], k, j, k');
      EraseWF(h, u, path + [i], k, j);
      var u' := Erase(u, Shift(h(k), |path| + 1), k, j);
      if u'.uniqueLists == 0 && u'.uniqueSubs == 0 {
        EmptyLookup(h, u', path + [i], k');
        ThroughSlot(t, id, i, Chain([]), t.uniqueLists, t.uniqueSubs - 1, k');
      } else {
        ThroughSlot(t, id, i, Sub(u'), t.uniqueLists, t.uniqueSubs, k');
      }
    case Chain(ks) =>
      ThroughSlot(t, id, i, r.slots[i], r.uniqueLists, r.uniqueSubs, k');
      GetDrop(ks, k, j, k');
    case Back(_) =>
  }

  lemma GetDrop(ks: seq<KeyList>, k: Key, j: nat, k': Key)
    requires Distinct(ks) && j < |Facts(Get(ks, k))|
    ensures Get(Dropped(ks, Find(ks, k), j), k') == if k' == k then Less(Get(ks, k), j) else Get(ks, k')
  {
    var n, m := Find(ks, k), Find(ks, k');
    var r := Dropped(ks, n, j);
    if |r| == |ks| {
      FindIs(r, k', m);
    } else {
      GetGone(ks, n, k');
    }
  }

  lemma GetGone(ks: seq<KeyList>, n: nat, k: Key)
    requires Distinct(ks) && n < |ks|
    ensures Get(ks[..n] + ks[n + 1..], k) == if k == ks[n].value then None else Get(ks, k)
  {
    var r, m := ks[..n] + ks[n + 1..], Find(ks, k);
    assert forall p :: 0 <= p < |r| ==> r[p] == if p < n then ks[p] else ks[p + 1];
    if k == ks[n].value {
      GetNone(r, k);
    } else {
      FindIs(r, k, if m <= n then m else m - 1);
    }
  }

  // ------------------------------------------------------------------ all the lists

  // The key lists of a table from a slot on, in slot order.
  function WalkFrom(t: Table, i: nat): seq<KeyList>
    decreases t, 1, HASH_TABLE_PRIME - i
  {
    if |t.slots| != SUBHASH_SHIFT_SIZE || i >= HASH_TABLE_PRIME then [] else
    SlotLists(t.slots[i]) + WalkFrom(t, i + 1)
  }

  function SlotLists(s: Slot): seq<KeyList>
    decreases s, 0, 0
  {
    match s
    case Chain(ks) => ks
    case Sub(u) => WalkFrom(u, 0)
    case Back(_) => []
  }

  ghost predicate Reached(h: Hash, t: Table, path: seq<nat>, kl: KeyList) {
    Lookup(t, Shift(h(kl.value), |path|), kl.value) == Some(kl)
  }

  lemma {:induction false} SlotListsOk(h: Hash, t: Table, path: seq<nat>, i: nat, kl: KeyList)
    requires WF(h, t, path) && i < HASH_TABLE_PRIME
    ensures Distinct(SlotLists(t.slots[i]))
    ensures kl in SlotLists(t.slots[i]) <==> SlotAt(h(kl.value), |path|) == i && Reached(h, t, path, kl)
    decreases t, 0
  {
    assert SlotOk(h, t.slots[i], path, i);
    match t.slots[i]
    case Chain(ks) =>
      if kl in ks {
        GetUnique(ks, kl);
        assert OnPath(h, kl.value, path + [i]) && (path + [i])[|path|] == i;
      }
    case Sub(u) =>
      WalkOk(h, u, path + [i], 0, kl);
      if kl in WalkFrom(u, 0) {
        LookupOnPath(h, u, path + [i], kl.value);
        assert (path + [i])[|path|] == i;
      }
    case Back(_) =>
  }

  lemma {:induction false} LookupOnPath(h: Hash, t: Table, path: seq<nat>, k: Key)
    requires WF(h, t, path) && Lookup(t, Shift(h(k), |path|), k).Some?
    ensures OnPath(h, k, path)
    decreases t
  {
    var i := SlotAt(h(k), |path|);
    assert SlotOk(h, t.slots[i], path, i);
    match t.slots[i]
    case Sub(u) =>
      LookupOnPath(h, u, path + [i], k);
      assert forall j :: 0 <= j < |path| ==> (path + [i])[j] == path[j];
    case Chain(ks) =>
      assert ks[Find(ks, k)] in ks;
      assert forall j :: 0 <= j < |path| ==> (path + [i])[j] == path[j];
    case Back(_) =>
  }

  /** A walk over a table meets every key list that lookup can find, and each key once. */
  lemma {:induction false} WalkOk(h: Hash, t: Table, path: seq<nat>, i: nat, kl: KeyList)
    requires WF(h, t, path) && i <= HASH_TABLE_PRIME
    ensures Distinct(WalkFrom(t, i))
    ensures kl in WalkFrom(t, i) <==> SlotAt(h(kl.value), |path|) >= i && Reached(h, t, path, kl)
    decreases t, 1, HASH_TABLE_PRIME - i
  {
    if i < HASH_TABLE_PRIME {
      var a, b := SlotLists(t.slots[i]), WalkFrom(t, i + 1);
      SlotListsOk(h, t, path, i, kl);
      WalkOk(h, t, path, i + 1, kl);
      forall x, y | x in a && y in b ensures x.value != y.value {
        SlotListsOk(h, t, path, i, x);
        WalkOk(h, t, path, i + 1, y);
      }
      DistinctAppend(a, b);
    }
  }

  lemma DistinctAppend(a: seq<KeyList>, b: seq<KeyList>)
    requires Distinct(a) && Distinct(b) && forall x, y :: x in a && y in b ==> x.value != y.value
    ensures Distinct(a + b)
  {}
}
