/**
  The iterator of the nested hash table: four frames, one a level, and the list it is at.
 */
module HashTableIterators {
  import opened HashTables

  datatype Frame = Frame(sub: Table, pos: nat)

  // Slots that are left, nested ones included.
  function Left(t: Table, i: nat): nat
    decreases t, 1, HASH_TABLE_PRIME - i
  {
    if |t.slots| != SUBHASH_SHIFT_SIZE || i >= HASH_TABLE_PRIME then 0 else
    1 + LeftIn(t.slots[i]) + Left(t, i + 1)
  }

  function LeftIn(s: Slot): nat
    decreases s, 0, 0
  {
    if s.Sub? then 1 + Left(s.table, 0) else 0
  }

  // Frames that can be on the stack: well-formed tables, level by level.
  ghost predicate FramesOk(h: Hash, fs: seq<Frame>) {
    && |fs| <= HASH_TABLE_MAX_LEVELS
    && (forall j :: 0 <= j < |fs| ==> TableAt(h, fs[j].sub, j) && fs[j].pos <= HASH_TABLE_PRIME)
  }

  ghost predicate TableAt(h: Hash, t: Table, level: nat) {
    exists path :: |path| == level && WF(h, t, path)
  }

  // What the frames still have to visit, top first.
  ghost function ToVisit(fs: seq<Frame>): seq<KeyList> {
    if fs == [] then [] else
    var top := fs[|fs| - 1];
    WalkFrom(top.sub, top.pos) + ToVisit(fs[..|fs| - 1])
  }

  ghost function ToDo(fs: seq<Frame>): nat {
    if fs == [] then 0 else
    var top := fs[|fs| - 1];
    Left(top.sub, top.pos) + ToDo(fs[..|fs| - 1])
  }

  lemma VisitTop(base: seq<Frame>, f: Frame)
    ensures ToVisit(base + [f]) == WalkFrom(f.sub, f.pos) + ToVisit(base)
    ensures ToDo(base + [f]) == Left(f.sub, f.pos) + ToDo(base)
  {}

  lemma Associate(a: seq<KeyList>, b: seq<KeyList>, c: seq<KeyList>)
    ensures (a + b) + c == a + (b + c)
  {}

  // Moving the top frame past a slot leaves the lists of the slot to be visited.
  lemma PassFrame(base: seq<Frame>, f: Frame)
    requires |f.sub.slots| == SUBHASH_SHIFT_SIZE && f.pos < HASH_TABLE_PRIME
    ensures ToVisit(base + [f]) == SlotLists(f.sub.slots[f.pos]) + ToVisit(base + [Frame(f.sub, f.pos + 1)])
    ensures ToDo(base + [f]) == 1 + LeftIn(f.sub.slots[f.pos]) + ToDo(base + [Frame(f.sub, f.pos + 1)])
  {}

  lemma TopOk(h: Hash, base: seq<Frame>, f: Frame)
    requires FramesOk(h, base + [f])
    ensures |f.sub.slots| == SUBHASH_SHIFT_SIZE && FramesOk(h, base)
    ensures f.pos < HASH_TABLE_PRIME ==> FramesOk(h, base + [Frame(f.sub, f.pos + 1)]) && !f.sub.slots[f.pos].Back?
  {
    var fs := base + [f];
    assert fs[|base|] == f;
    var path :| |path| == |base| && WF(h, f.sub, path);
    assert f.pos < HASH_TABLE_PRIME ==> SlotOk(h, f.sub.slots[f.pos], path, f.pos);
    forall j | 0 <= j < |base| ensures TableAt(h, base[j].sub, j) && base[j].pos <= HASH_TABLE_PRIME {
      assert fs[j] == base[j];
    }
  }

  // A nested table gets a frame of its own; there is always room for it.
  lemma PushFrame(h: Hash, base: seq<Frame>, f: Frame)
    requires FramesOk(h, base + [f]) && |f.sub.slots| == SUBHASH_SHIFT_SIZE && f.pos < HASH_TABLE_PRIME && f.sub.slots[f.pos].Sub?
    ensures |base| + 1 < HASH_TABLE_MAX_LEVELS
    ensures FramesOk(h, base + [Frame(f.sub, f.pos + 1)] + [Frame(f.sub.slots[f.pos].table, 0)])
  {
    TopOk(h, base, f);
    assert (base + [f])[|base|] == f;
    var path :| |path| == |base| && WF(h, f.sub, path);
    assert SlotOk(h, f.sub.slots[f.pos], path, f.pos);
    assert |path + [f.pos]| == |base| + 1 && TableAt(h, f.sub.slots[f.pos].table, |base| + 1);
  }

  class Iterator {
    ghost const h: Hash
    const frames: array<Frame>
    var cur: int
    // The node the iterator is at and those after it in its chain; empty for a null pointer.
    var current: seq<KeyList>

    ghost predicate InRange()
      reads this
    {
      frames.Length == HASH_TABLE_MAX_LEVELS && -1 <= cur < HASH_TABLE_MAX_LEVELS
    }

    ghost function Stack(): seq<Frame>
      reads this, frames
      requires InRange()
    {
      frames[..cur + 1]
    }

    // At a node, the top frame is still at the slot of its chain.
    ghost predicate Valid()
      reads this, frames
    {
      && InRange() && FramesOk(h, Stack())
      && (current == [] <==> cur == -1)
      && (cur >= 0 ==> frames[cur].pos < HASH_TABLE_PRIME)
    }

    // The list the iterator is at, and those it will be at later.
    ghost function ToCome(): seq<KeyList>
      reads this, frames
      requires Valid()
    {
      if cur == -1 then [] else current + ToVisit(frames[..cur] + [Frame(frames[cur].sub, frames[cur].pos + 1)])
    }

    // A frame that is through is left.
    method Ascend()
      requires InRange() && cur >= 0 && FramesOk(h, Stack()) && frames[cur].pos == HASH_TABLE_PRIME
      modifies this`cur
      ensures InRange() && FramesOk(h, Stack()) && cur == old(cur) - 1
      ensures ToVisit(Stack()) == old(ToVisit(Stack())) && ToDo(Stack()) <= old(ToDo(Stack()))
    {
      ghost var base := frames[..cur];
      assert Stack() == base + [frames[cur]];
      TopOk(h, base, frames[cur]);
      VisitTop(base, frames[cur]);
      cur := cur - 1;
    }

    // A nested table gets the next frame.
    method Descend(u: Table)
      requires InRange() && cur >= 0 && FramesOk(h, Stack()) && frames[cur].pos < HASH_TABLE_PRIME
      requires |frames[cur].sub.slots| == SUBHASH_SHIFT_SIZE && frames[cur].sub.slots[frames[cur].pos] == Sub(u)
      modifies this`cur, frames
      ensures InRange() && FramesOk(h, Stack())
      ensures ToVisit(Stack()) == old(ToVisit(Stack())) && ToDo(Stack()) < old(ToDo(Stack()))
    {
      var f := frames[cur];
      ghost var base := frames[..cur];
      assert Stack() == base + [f];
      PassFrame(base, f);
      PushFrame(h, base, f);
      VisitTop(base + [Frame(f.sub, f.pos + 1)], Frame(u, 0));
      frames[cur] := Frame(f.sub, f.pos + 1);
      cur := cur + 1;
      frames[cur] := Frame(u, 0);
      assert Stack() == base + [Frame(f.sub, f.pos + 1)] + [Frame(u, 0)];
    }

    // A slot without a list is passed.
    method Skip()
      requires InRange() && cur >= 0 && FramesOk(h, Stack()) && frames[cur].pos < HASH_TABLE_PRIME
      requires |frames[cur].sub.slots| == SUBHASH_SHIFT_SIZE && frames[cur].sub.slots[frames[cur].pos] == Chain([])
      modifies frames
      ensures FramesOk(h, Stack())
      ensures ToVisit(Stack()) == old(ToVisit(Stack())) && ToDo(Stack()) < old(ToDo(Stack()))
    {
      var f := frames[cur];
      ghost var base := frames[..cur];
      assert Stack() == base + [f];
      TopOk(h, base, f);
      PassFrame(base, f);
      frames[cur] := Frame(f.sub, f.pos + 1);
      assert Stack() == base + [Frame(f.sub, f.pos + 1)];
    }

    // A chain is where the search ends.
    method Stop(ks: seq<KeyList>)
      requires InRange() && cur >= 0 && FramesOk(h, Stack()) && frames[cur].pos < HASH_TABLE_PRIME && ks != []
      requires |frames[cur].sub.slots| == SUBHASH_SHIFT_SIZE && frames[cur].sub.slots[frames[cur].pos] == Chain(ks)
      modifies this`current
      ensures Valid() && current == ks && ToCome() == old(ToVisit(Stack()))
    {
      ghost var f, base := frames[cur], frames[..cur];
      assert Stack() == base + [f];
      PassFrame(base, f);
      current := ks;
      assert ToCome() == ks + ToVisit(base + [Frame(f.sub, f.pos + 1)]);
    }

    // One turn of the loops of find_good_bucket, at the slot of the top frame
    method Turn()
      requires InRange() && cur >= 0 && FramesOk(h, Stack()) && current == []
      modifies this`cur, this`current, frames
      ensures InRange() && FramesOk(h, Stack())
      ensures current == [] ==> ToVisit(Stack()) == old(ToVisit(Stack()))
      ensures current == [] ==> ToDo(Stack()) < old(ToDo(Stack())) || (ToDo(Stack()) <= old(ToDo(Stack())) && cur < old(cur))
      ensures current != [] ==> Valid() && ToCome() == old(ToVisit(Stack()))
    {
      var f := frames[cur];
      assert Stack() == frames[..cur] + [f];
      TopOk(h, frames[..cur], f);
      if f.pos == HASH_TABLE_PRIME {
        Ascend();
      } else {
        match f.sub.slots[f.pos]
        case Sub(u) => Descend(u);
        case Chain(ks) =>
          if ks == [] {
            Skip();
          } else {
            Stop(ks);
          }
      }
    }

    // find_good_bucket: look for a list from the top frame on.
    method FindBucket()
      requires InRange() && FramesOk(h, Stack()) && current == []
      modifies this`cur, this`current, frames
      ensures Valid() && ToCome() == old(ToVisit(Stack()))
    {
      while cur >= 0 && current == []
        invariant InRange() && FramesOk(h, Stack())
        invariant current == [] ==> ToVisit(Stack()) == old(ToVisit(Stack()))
        invariant current != [] ==> Valid() && ToCome() == old(ToVisit(Stack()))
        decreases if current == [] then 1 else 0, ToDo(Stack()), cur
      {
        Turn();
      }
    }

    // begin
    constructor (ghost h: Hash, table: Table)
      requires WF(h, table, [])
      ensures Valid() && fresh(frames) && this.h == h && ToCome() == WalkFrom(table, 0)
    {
      this.h := h;
      frames := new Frame[HASH_TABLE_MAX_LEVELS](_ => Frame(table, 0));
      cur, current := 0, [];
      new;
      assert Stack() == [] + [Frame(table, 0)];
      assert TableAt(h, table, 0) by {
        var path: seq<nat> := [];
        assert |path| == 0 && WF(h, table, path);
      }
      VisitTop([], Frame(table, 0));
      FindBucket();
    }

    // The chain is through: go on from the next slot.
    method LeaveChain()
      requires Valid() && cur != -1
      modifies this, frames
      ensures Valid() && old(current) + ToCome() == old(ToCome())
    {
      PassChain();
      FindBucket();
    }

    method PassChain()
      requires Valid() && cur != -1
      modifies this`current, frames
      ensures InRange() && FramesOk(h, Stack()) && current == []
      ensures old(current) + ToVisit(Stack()) == old(ToCome())
    {
      var f := frames[cur];
      ghost var base := frames[..cur];
      assert Stack() == base + [f];
      TopOk(h, base, f);
      frames[cur] := Frame(f.sub, f.pos + 1);
      assert Stack() == base + [Frame(f.sub, f.pos + 1)];
      current := [];
    }

    // operator++: the next list of the chain, or the next chain.
    method Next()
      requires Valid() && cur != -1
      modifies this, frames
      ensures Valid() && [old(current)[0]] + ToCome() == old(ToCome())
    {
      if |current| > 1 {
        ghost var beyond := ToVisit(frames[..cur] + [Frame(frames[cur].sub, frames[cur].pos + 1)]);
        Associate([current[0]], current[1..], beyond);
        assert current == [current[0]] + current[1..];
        current := current[1..];
        assert ToCome() == current + beyond;
      } else {
        assert current == [current[0]];
        LeaveChain();
      }
    }
  }

  /** Iterating from begin to end meets the lists of the table in slot order. */
  method AllLists(ghost h: Hash, table: Table) returns (out: seq<KeyList>)
    requires WF(h, table, [])
    ensures out == WalkFrom(table, 0)
  {
    var it := new Iterator(h, table);
    out := [];
    ghost var all := WalkFrom(table, 0);
    while it.cur != -1
      invariant it.Valid() && fresh(it) && fresh(it.frames)
      invariant out + it.ToCome() == all
      decreases |all| - |out|
    {
      var here := it.current[0];
      it.Next();
      Associate(out, [here], it.ToCome());
      out := out + [here];
    }
    assert out + [] == out;
  }

  /** The lists met are those that lookup finds: the list of every key that has facts, exactly once. */
  lemma EachListOnce(h: Hash, table: Table)
    requires WF(h, table, [])
    ensures Distinct(WalkFrom(table, 0))
    ensures forall kl :: kl in WalkFrom(table, 0) <==> Lookup(table, h(kl.value), kl.value) == Some(kl)
  {
    forall kl ensures Distinct(WalkFrom(table, 0)) && (kl in WalkFrom(table, 0) <==> Lookup(table, h(kl.value), kl.value) == Some(kl)) {
      WalkOk(h, table, [], 0, kl);
    }
  }
}
