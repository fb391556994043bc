/**
  The size-class allocator: a sorted table of free lists, one for each size, and pages that are
  carved from the front.

  The binary search of the table is the one with the guard for an empty table.
 */
module Allocators {

  const ALLOCATOR_FREE_SIZE: nat := 32
  const PAGE_HEADER: nat := 32
  const MIN_SIZE_OBJ: nat := 8

  // Bytes of a page, by page number, offset and size.
  datatype Block = Block(page: nat, off: nat, size: nat)

  datatype FreeSize = FreeSize(size: nat, list: seq<Block>)

  datatype Page = Page(ptr: nat, size: nat)

  function AtLeastMin(size: nat): (r: nat)
    ensures r >= size && r >= MIN_SIZE_OBJ
  {
    if size < MIN_SIZE_OBJ then MIN_SIZE_OBJ else size
  }

  // ------------------------------------------------------------------ the table of sizes

  predicate Sorted(t: seq<FreeSize>) {
    forall i, j :: 0 <= i < j < |t| ==> t[i].size < t[j].size
  }

  ghost function Sizes(t: seq<FreeSize>): set<nat> {
    set i | 0 <= i < |t| :: t[i].size
  }

  predicate HasFree(t: seq<FreeSize>, size: nat) {
    exists i :: 0 <= i < |t| && t[i].size == size && t[i].list != []
  }

  // The block is the first one in the list of its size.
  predicate IsHead(t: seq<FreeSize>, b: Block) {
    exists i :: 0 <= i < |t| && t[i].size == b.size && t[i].list != [] && t[i].list[0] == b
  }

  // Where a size belongs in a sorted table.
  predicate Belongs(t: seq<FreeSize>, size: nat, pos: nat) {
    && pos <= |t|
    && (forall i :: 0 <= i < pos ==> t[i].size < size)
    && (forall i :: pos <= i < |t| ==> size < t[i].size)
  }

  lemma InsertSorted(t: seq<FreeSize>, size: nat, pos: nat)
    requires Sorted(t) && Belongs(t, size, pos)
    ensures Sorted(Inserted(t, size, pos))
  {}

  function Inserted(t: seq<FreeSize>, size: nat, pos: nat): (r: seq<FreeSize>)
    requires pos <= |t|
    ensures |r| == |t| + 1
    ensures forall i :: 0 <= i < |r| ==> r[i] == if i < pos then t[i] else if i == pos then FreeSize(size, []) else t[i - 1]
  {
    t[..pos] + [FreeSize(size, [])] + t[pos..]
  }

  lemma SizesInserted(t: seq<FreeSize>, size: nat, pos: nat)
    requires Belongs(t, size, pos)
    ensures size !in Sizes(t) && Sizes(Inserted(t, size, pos)) == Sizes(t) + {size}
  {
    var r := Inserted(t, size, pos);
    forall i | 0 <= i < |t| ensures t[i].size in Sizes(r) {
      assert t[i] == r[if i < pos then i else i + 1];
    }
    assert r[pos].size == size;
  }

  lemma SizesKept(t: seq<FreeSize>, pos: nat, f: FreeSize)
    requires pos < |t| && f.size == t[pos].size
    ensures Sizes(t[pos := f]) == Sizes(t)
  {
    forall i | 0 <= i < |t| ensures t[i].size in Sizes(t[pos := f]) {
      assert t[pos := f][i].size == t[i].size;
    }
  }

  // The least multiple of four that is at least both.
  predicate Rounded(r: nat, size: nat, least: nat) {
    r >= size && r >= least && r % 4 == 0 && (r < size + 4 || r < least + 4)
  }

  // make_size
  method MakeSize(size: nat, least: nat) returns (r: nat)
    ensures Rounded(r, size, least)
  {
    r := if size < least then least else size;
    ghost var start := r;
    while r % 4 != 0
      invariant start <= r <= start + 3 && (r % 4 == 0 || r - start < r % 4)
      decreases start + 4 - r
    {
      r := r + 1;
    }
  }

  // The sizes that the pool passes to its small group.
  predicate SmallSize(size: nat) {
    size % 4 == 0 && MIN_SIZE_OBJ <= size <= 128
  }

  predicate SmallSizes(t: seq<FreeSize>) {
    forall i :: 0 <= i < |t| ==> SmallSize(t[i].size)
  }

  /** A table of the sizes of the small group never has more than 31 entries. */
  lemma {:induction false} SmallTable(t: seq<FreeSize>, k: nat)
    requires Sorted(t) && SmallSizes(t) && k < |t|
    ensures t[k].size >= 8 + 4 * k && k < 31
  {
    if k > 0 {
      SmallTable(t, k - 1);
      assert t[k - 1].size < t[k].size;
    }
  }

  /** So there is room for one more small size in any table without it. */
  lemma SmallNeverOverflows(t: seq<FreeSize>, size: nat, pos: nat)
    requires Sorted(t) && SmallSizes(t) && SmallSize(size) && Belongs(t, size, pos)
    ensures |t| < ALLOCATOR_FREE_SIZE - 1 && SmallSizes(Inserted(t, size, pos))
  {
    InsertSorted(t, size, pos);
    SmallTable(Inserted(t, size, pos), |t|);
  }

  // ------------------------------------------------------------------ without the guard

  // Where mixedgroup puts a new size: it compares with the entry the search ended at, also when the
  // table is empty and the entry was never written.
  function UnguardedPlace(sizes: seq<nat>, middle: nat, size: nat): nat
    requires middle < |sizes|
  {
    if size > sizes[middle] then middle + 1 else middle
  }

  /** In an empty table the first size is found again if and only if the unwritten entry happens not
      to be smaller; otherwise the entry lies outside the table. */
  lemma UnguardedFirstSize(sizes: seq<nat>, size: nat)
    requires |sizes| == ALLOCATOR_FREE_SIZE
    ensures var p := UnguardedPlace(sizes, 0, size); sizes[p := size][..1] == [size] <==> sizes[0] >= size
  {}

  // ------------------------------------------------------------------ pages

  // The doubling loop of allocate_new_page
  method PageSize(start: nat, atleast: nat) returns (size: nat)
    requires start > 0
    ensures size >= start && size + PAGE_HEADER >= 8 * atleast
    ensures start >= 512 ==> PAGE_HEADER + atleast <= size
  {
    size := start;
    while size + PAGE_HEADER < 8 * atleast
      invariant size >= start
      decreases 8 * atleast - size
    {
      size := size * 2;
    }
  }

  predicate Apart(b: Block, c: Block) {
    b.page != c.page || b.off + b.size <= c.off || c.off + c.size <= b.off
  }

  predicate Inside(b: Block, pages: seq<Page>) {
    b.page < |pages| && PAGE_HEADER <= b.off && b.size > 0 && b.off + b.size <= pages[b.page].ptr <= pages[b.page].size
  }

  ghost predicate Listed(t: seq<FreeSize>, b: Block) {
    exists i :: 0 <= i < |t| && b in t[i].list
  }

  predicate Distinct(list: seq<Block>) {
    forall j, k :: 0 <= j < k < |list| ==> list[j] != list[k]
  }

  // The lists hold exactly the free blocks, each in the list of its size and once.
  ghost predicate TableOk(t: seq<FreeSize>, free: set<Block>) {
    && Sorted(t)
    && (forall i :: 0 <= i < |t| ==> Distinct(t[i].list))
    && (forall i, b :: 0 <= i < |t| && b in t[i].list ==> b in free && b.size == t[i].size)
    && (forall b :: b in free ==> Listed(t, b))
  }

  lemma InsertedOk(t: seq<FreeSize>, free: set<Block>, size: nat, pos: nat)
    requires TableOk(t, free) && Belongs(t, size, pos)
    ensures TableOk(Inserted(t, size, pos), free)
  {
    var r := Inserted(t, size, pos);
    InsertSorted(t, size, pos);
    forall b | b in free ensures Listed(r, b) {
      var i :| 0 <= i < |t| && b in t[i].list;
      assert b in r[if i < pos then i else i + 1].list;
    }
    forall i | 0 <= i < |r| ensures Distinct(r[i].list) {
      assert i != pos ==> Distinct(t[if i < pos then i else i - 1].list);
    }
  }

  lemma PoppedOk(t: seq<FreeSize>, free: set<Block>, pos: nat)
    requires TableOk(t, free) && pos < |t| && t[pos].list != []
    ensures t[pos].list[0] in free
    ensures TableOk(t[pos := FreeSize(t[pos].size, t[pos].list[1..])], free - {t[pos].list[0]})
  {
    var list := t[pos].list;
    var b, r := list[0], t[pos := FreeSize(t[pos].size, list[1..])];
    assert b in t[pos].list && Distinct(list);
    assert forall k :: 0 <= k < |list[1..]| ==> list[1..][k] == list[k + 1];
    forall c | c in free - {b} ensures Listed(r, c) {
      var i :| 0 <= i < |t| && c in t[i].list;
      assert list == [b] + list[1..];
      assert c in r[i].list;
    }
    forall i, c | 0 <= i < |r| && c in r[i].list ensures c in free && c != b && c.size == r[i].size {
      assert c in t[i].list;
    }
  }

  lemma PushedOk(t: seq<FreeSize>, free: set<Block>, pos: nat, b: Block)
    requires TableOk(t, free) && pos < |t| && b.size == t[pos].size && b !in free
    ensures TableOk(t[pos := FreeSize(t[pos].size, [b] + t[pos].list)], free + {b})
  {
    var r := t[pos := FreeSize(t[pos].size, [b] + t[pos].list)];
    assert Distinct(t[pos].list) && b !in t[pos].list;
    assert forall k :: 0 < k < |r[pos].list| ==> r[pos].list[k] == t[pos].list[k - 1];
    assert b in r[pos].list;
    forall c | c in free + {b} ensures Listed(r, c) {
      if c != b {
        var i :| 0 <= i < |t| && c in t[i].list;
        assert c in r[i].list;
      }
    }
  }

  class MixedGroup {
    const frees: array<FreeSize>
    var numFree: nat
    var pages: seq<Page>
    // All blocks that were ever carved, and those that are in use.
    ghost var blocks: set<Block>
    ghost var live: set<Block>

    ghost function Table(): seq<FreeSize>
      reads this, frees
      requires numFree <= frees.Length
    {
      frees[..numFree]
    }

    ghost predicate PagesOk()
      reads this
    {
      && pages != [] && pages[|pages| - 1].size >= 256
      && (forall p :: 0 <= p < |pages| ==> PAGE_HEADER <= pages[p].ptr <= pages[p].size)
    }

    ghost predicate BlocksOk()
      reads this
    {
      && live <= blocks
      && (forall b :: b in blocks ==> Inside(b, pages) && b.size >= MIN_SIZE_OBJ)
      && (forall b, c :: b in blocks && c in blocks && b != c ==> Apart(b, c))
    }

    ghost predicate ListsOk()
      reads this, frees
    {
      frees.Length == ALLOCATOR_FREE_SIZE && numFree <= ALLOCATOR_FREE_SIZE && TableOk(Table(), blocks - live)
    }

    ghost predicate Valid()
      reads this, frees
    {
      PagesOk() && BlocksOk() && ListsOk()
    }

    // All blocks, and so all entries of the table, have small sizes.
    ghost predicate Small()
      reads this, frees
      requires numFree <= frees.Length
    {
      SmallSizes(Table()) && forall b :: b in blocks ==> SmallSize(b.size)
    }

    constructor (factor: nat)
      requires factor > 0
      ensures Valid() && Small() && fresh(frees) && live == {} && blocks == {} && numFree == 0
    {
      frees := new FreeSize[ALLOCATOR_FREE_SIZE](_ => FreeSize(0, []));
      numFree, blocks, live := 0, {}, {};
      var size := PageSize(256 * factor, 0);
      pages := [Page(PAGE_HEADER, size)];
    }

    // The binary search of get_free_size: the entry of the size, or the place where it belongs.
    method Search(size: nat) returns (found: bool, pos: nat)
      requires numFree <= frees.Length && Sorted(Table())
      ensures found ==> pos < numFree && frees[pos].size == size
      ensures !found ==> Belongs(Table(), size, pos)
    {
      var left, right, middle := 0, numFree - 1, 0;
      while left <= right
        invariant 0 <= left <= right + 1 <= numFree && (left > right ==> numFree == 0 && middle == 0)
        invariant forall i :: 0 <= i < left ==> frees[i].size < size
        invariant forall i :: right < i < numFree ==> size < frees[i].size
        decreases right - left
      {
        middle := left + (right - left) / 2;
        if frees[middle].size == size {
          return true, middle;
        } else if left == right {
          break;
        } else if frees[middle].size < size {
          left := middle + 1;
        } else {
          right := middle;
        }
      }
      if middle < numFree && size > frees[middle].size {
        middle := middle + 1;
      }
      assert forall i :: 0 <= i < numFree ==> Table()[i] == frees[i];
      return false, middle;
    }

    // The memmove of get_free_size and the new entry
    method MakeEntry(size: nat, pos: nat)
      requires numFree < frees.Length && Belongs(Table(), size, pos) && Sorted(Table())
      modifies this`numFree, frees
      ensures numFree == old(numFree) + 1 && Sorted(Table())
      ensures Table() == Inserted(old(Table()), size, pos)
    {
      ghost var r := Inserted(Table(), size, pos);
      InsertSorted(Table(), size, pos);
      assert forall i :: 0 <= i < pos ==> frees[i] == r[i];
      assert forall i :: pos <= i < numFree ==> frees[i] == r[i + 1];
      forall i | pos < i <= numFree {
        frees[i] := frees[i - 1];
      }
      frees[pos] := FreeSize(size, []);
      numFree := numFree + 1;
      assert forall i :: 0 <= i < numFree ==> frees[i] == r[i];
      assert Table() == r;
    }

    // allocate: from the list of the size, or else from the front of the last page.
    method Allocate(request: nat) returns (b: Block)
      requires Valid()
      modifies this, frees
      ensures Valid() && b.size == AtLeastMin(request)
      ensures b !in old(live) && live == old(live) + {b}
      ensures numFree == old(numFree) && Sizes(Table()) == Sizes(old(Table()))
      // A block of the size that is free is used again, the last one freed first.
      ensures HasFree(old(Table()), b.size) ==> blocks == old(blocks) && pages == old(pages) && IsHead(old(Table()), b)
      ensures !HasFree(old(Table()), b.size) ==> b !in old(blocks) && blocks == old(blocks) + {b}
      ensures forall c :: c in old(live) ==> Apart(b, c)
      ensures old(Small()) && SmallSize(b.size) ==> Small()
    {
      var size := AtLeastMin(request);
      var found, pos := Search(size);
      ghost var t := Table();
      if found && frees[pos].list != [] {
        assert t[pos] == frees[pos];
        b := TakeFree(pos);
      } else {
        b := Carve(size);
        assert Table() == t;
      }
    }

    // The head of a free list
    method TakeFree(pos: nat) returns (b: Block)
      requires Valid() && pos < numFree && frees[pos].list != []
      modifies this`live, frees
      ensures Valid() && b.size == old(frees[pos].size) && b == old(frees[pos].list[0])
      ensures Sizes(Table()) == Sizes(old(Table()))
      ensures b !in old(live) && live == old(live) + {b}
      ensures old(Small()) ==> Small()
    {
      ghost var t, free := Table(), blocks - live;
      PoppedOk(t, free, pos);
      b := frees[pos].list[0];
      frees[pos] := FreeSize(frees[pos].size, frees[pos].list[1..]);
      live := live + {b};
      assert Table() == t[pos := frees[pos]] && blocks - live == free - {b};
      SizesKept(t, pos, frees[pos]);
    }

    // The front of the last page, or of a new one that is at least twice as large
    method Carve(size: nat) returns (b: Block)
      requires Valid() && size >= MIN_SIZE_OBJ
      modifies this`pages, this`blocks, this`live
      ensures Valid() && b.size == size && b !in old(blocks)
      ensures blocks == old(blocks) + {b} && live == old(live) + {b}
    {
      var last := |pages| - 1;
      if pages[last].ptr + size > pages[last].size {
        var n := PageSize(pages[last].size * 2, size);
        pages := pages + [Page(PAGE_HEADER, n)];
        last := last + 1;
      }
      ghost var free := blocks - live;
      b := Block(last, pages[last].ptr, size);
      pages := pages[last := Page(pages[last].ptr + size, pages[last].size)];
      blocks := blocks + {b};
      live := live + {b};
      assert blocks - live == free;
    }

    // deallocate: to the list of the size, which is made if needed.  The source aborts when the table
    // is full; a group with small sizes never gets there.
    method Deallocate(b: Block) returns (ok: bool)
      requires Valid() && b in live
      modifies this, frees
      ensures Valid() && blocks == old(blocks) && pages == old(pages)
      ensures ok <==> b.size in Sizes(old(Table())) || old(numFree) < ALLOCATOR_FREE_SIZE
      ensures ok ==> live == old(live) - {b} && IsHead(Table(), b) && Sizes(Table()) == Sizes(old(Table())) + {b.size}
      ensures ok ==> numFree == old(numFree) + if b.size in Sizes(old(Table())) then 0 else 1
      ensures !ok ==> live == old(live) && numFree == old(numFree) && Table() == old(Table())
      ensures old(Small()) ==> ok && Small()
    {
      var found, pos := Search(b.size);
      assert found ==> Table()[pos].size == b.size;
      ok := found || numFree < ALLOCATOR_FREE_SIZE;
      if !found && Small() {
        SmallNeverOverflows(Table(), b.size, pos);
      }
      if ok {
        if !found {
          NewSize(b.size, pos);
        }
        PutFree(pos, b);
      }
    }

    method NewSize(size: nat, pos: nat)
      requires Valid() && numFree < ALLOCATOR_FREE_SIZE && Belongs(Table(), size, pos)
      modifies this`numFree, frees
      ensures Valid() && pos < numFree && frees[pos].size == size
      ensures numFree == old(numFree) + 1 && Sizes(Table()) == Sizes(old(Table())) + {size}
      ensures old(Small()) && SmallSize(size) ==> Small()
    {
      InsertedOk(Table(), blocks - live, size, pos);
      SizesInserted(Table(), size, pos);
      MakeEntry(size, pos);
      assert Table()[pos] == frees[pos];
    }

    method PutFree(pos: nat, b: Block)
      requires Valid() && pos < numFree && b in live && frees[pos].size == b.size
      modifies this`live, frees
      ensures Valid() && live == old(live) - {b} && IsHead(Table(), b) && Sizes(Table()) == Sizes(old(Table()))
      ensures old(Small()) ==> Small()
    {
      ghost var t, free := Table(), blocks - live;
      PushedOk(t, free, pos, b);
      frees[pos] := FreeSize(frees[pos].size, [b] + frees[pos].list);
      live := live - {b};
      assert Table() == t[pos := frees[pos]] && blocks - live == free + {b};
      SizesKept(t, pos, frees[pos]);
      assert Table()[pos].list[0] == b;
    }
  }

  // ------------------------------------------------------------------ the small group of the pool

  // allocate of the pool, for requests that its small group serves.
  method AllocateSmall(small: MixedGroup, request: nat) returns (b: Block)
    requires small.Valid() && small.Small() && request <= 128
    modifies small, small.frees
    ensures small.Valid() && small.Small() && Rounded(b.size, request, MIN_SIZE_OBJ)
    ensures b !in old(small.live) && small.live == old(small.live) + {b}
    ensures forall c :: c in old(small.live) ==> Apart(b, c)
  {
    var size := MakeSize(request, MIN_SIZE_OBJ);
    b := small.Allocate(size);
  }

  /** deallocate of the pool, for blocks of its small group: the table of sizes never overflows. */
  method DeallocateSmall(small: MixedGroup, b: Block, request: nat)
    requires small.Valid() && small.Small() && b in small.live && Rounded(b.size, request, MIN_SIZE_OBJ)
    modifies small, small.frees
    ensures small.Valid() && small.Small() && small.live == old(small.live) - {b}
    ensures IsHead(small.Table(), b)
  {
    var size := MakeSize(request, MIN_SIZE_OBJ);
    assert size == b.size;
    var ok := small.Deallocate(b);
  }

  // ------------------------------------------------------------------ the medium group of the pool

  // The sizes that the pool passes to its medium group.
  predicate MediumSize(size: nat) {
    size % 4 == 0 && 128 < size <= 1024
  }

  /** The medium group has more sizes than its table has room for: after 32 blocks of different sizes were
      taken and given back, giving back one of another size fails. */
  method MediumTableOverflows() returns (medium: MixedGroup, b: Block, ok: bool)
    ensures fresh(medium) && medium.Valid() && b in medium.live && MediumSize(b.size)
    ensures forall s :: s in Sizes(medium.Table()) ==> MediumSize(s)
    ensures !ok
  {
    medium := new MixedGroup(8);
    for k := 0 to ALLOCATOR_FREE_SIZE
      invariant fresh(medium) && fresh(medium.frees) && medium.Valid() && medium.numFree == k
      invariant forall s :: s in Sizes(medium.Table()) ==> MediumSize(s) && s < 132 + 4 * k
    {
      var size := MakeSize(132 + 4 * k, MIN_SIZE_OBJ);
      b := medium.Allocate(size);
      ok := medium.Deallocate(b);
    }
    var size := MakeSize(132 + 4 * ALLOCATOR_FREE_SIZE, MIN_SIZE_OBJ);
    b := medium.Allocate(size);
    ok := medium.Deallocate(b);
  }
}
