/**
  The push-safe linear queue: many threads push or splice chains of nodes, one consumer pops.

  Nodes are numbered and never freed; node 0 is the first sentinel.  A node stands for its item.  The
  chain of all nodes that were ever linked, the segments in the order of linking and the items popped
  are kept as history.
 */
module LinearQueues {

  // Between the loop's loads and tests; Linked: the segment is in the chain, the tail not yet moved.
  datatype Phase = Idle | Start | HaveTail | HaveNext | Checked | Linked

  // seg: the nodes to push, first to last.
  datatype Proc = Proc(phase: Phase, seg: seq<nat>, last: nat, next: int)

  const NULL: int := -1

  datatype State = State(next: map<nat, nat>, head: nat, tail: nat, procs: seq<Proc>,
                         used: set<nat>, chain: seq<nat>, segments: seq<seq<nat>>, popped: seq<nat>)

  datatype Action =
    | Begin(i: nat, seg: seq<nat>)
    | LoadTail(i: nat)
    | LoadNext(i: nat)
    | Check(i: nat)
    | Link(i: nat)
    | Help(i: nat)
    | Finish(i: nat)
    | Pop

  function Next(s: State, n: nat): (r: int)
    ensures r == NULL || r >= 0
  {
    if n in s.next then s.next[n] else NULL
  }

  predicate Fresh(s: State, seg: seq<nat>) {
    && seg != []
    && (forall x :: x in seg ==> x !in s.used)
    && (forall j, k :: 0 <= j < k < |seg| ==> seg[j] != seg[k])
  }

  predicate Enabled(s: State, a: Action) {
    match a
    case Begin(i, seg) => i < |s.procs| && s.procs[i].phase.Idle? && Fresh(s, seg)
    case LoadTail(i) => i < |s.procs| && s.procs[i].phase.Start?
    case LoadNext(i) => i < |s.procs| && s.procs[i].phase.HaveTail?
    case Check(i) => i < |s.procs| && s.procs[i].phase.HaveNext?
    case Link(i) => i < |s.procs| && s.procs[i].phase.Checked? && s.procs[i].next == NULL
    case Help(i) => i < |s.procs| && s.procs[i].phase.Checked? && s.procs[i].next >= 0
    case Finish(i) => i < |s.procs| && s.procs[i].phase.Linked?
    case Pop => s.head != s.tail
  }

  // The links inside a segment, made before it is pushed.
  function Chained(next: map<nat, nat>, seg: seq<nat>): map<nat, nat> {
    if |seg| < 2 then next else Chained(next, seg[1..])[seg[0] := seg[1]]
  }

  function Elems(seg: seq<nat>): set<nat> {
    set x | x in seg
  }

  function Set(s: State, i: nat, p: Proc): State
    requires i < |s.procs|
  {
    s.(procs := s.procs[i := p])
  }

  function Apply(s: State, a: Action): State
    requires Enabled(s, a)
  {
    match a
    case Begin(i, seg) =>
      Set(s, i, Proc(Start, seg, 0, NULL)).(next := Chained(s.next, seg), used := s.used + Elems(seg))
    case LoadTail(i) => Set(s, i, s.procs[i].(phase := HaveTail, last := s.tail))
    case LoadNext(i) => Set(s, i, s.procs[i].(phase := HaveNext, next := Next(s, s.procs[i].last)))
    case Check(i) => Set(s, i, s.procs[i].(phase := if s.procs[i].last == s.tail then Checked else Start))
    case Link(i) =>
      var p := s.procs[i];
      if Next(s, p.last) == NULL && p.seg != [] then
        Set(s, i, p.(phase := Linked)).(next := s.next[p.last := p.seg[0]], chain := s.chain + p.seg, segments := s.segments + [p.seg])
      else
        Set(s, i, p.(phase := Start))
    case Help(i) =>
      var p := s.procs[i];
      var r := Set(s, i, p.(phase := Start));
      if s.tail == p.last then r.(tail := p.next) else r
    case Finish(i) =>
      var p := s.procs[i];
      var r := Set(s, i, p.(phase := Idle));
      if s.tail == p.last && p.seg != [] then r.(tail := p.seg[|p.seg| - 1]) else r
    case Pop =>
      // A head without a next would be dereferenced; HeadHasNext rules it out.
      var n := Next(s, s.head);
      if n == NULL then s else s.(head := n, popped := s.popped + [n])
  }

  function Init(n: nat): State {
    State(map[], 0, 0, seq(n, _ => Proc(Idle, [], 0, NULL)), {0}, [0], [], [])
  }

  // ------------------------------------------------------------------ the invariant

  predicate Distinct(c: seq<nat>) {
    forall j, k :: 0 <= j < k < |c| ==> c[j] != c[k]
  }

  function Index(c: seq<nat>, x: nat): (k: nat)
    ensures k <= |c| && (x in c ==> k < |c| && c[k] == x)
  {
    if c == [] || c[0] == x then 0 else 1 + Index(c[1..], x)
  }

  lemma IndexIs(c: seq<nat>, k: nat)
    requires Distinct(c) && k < |c|
    ensures Index(c, c[k]) == k
  {}

  // The links lead from each node to the one behind it, and nowhere from the last.
  predicate LinkAt(next: map<nat, nat>, c: seq<nat>, k: nat)
    requires k < |c|
  {
    if k + 1 < |c| then c[k] in next && next[c[k]] == c[k + 1] else c[k] !in next
  }

  predicate Links(next: map<nat, nat>, c: seq<nat>) {
    forall k :: 0 <= k < |c| ==> LinkAt(next, c, k)
  }

  predicate Within(c: seq<nat>, used: set<nat>) {
    forall x :: x in c ==> x in used
  }

  predicate Apart(a: seq<nat>, b: seq<nat>) {
    forall x :: x in a ==> x !in b
  }

  // The chain, as the links of the nodes give it.
  ghost predicate ChainOk(s: State) {
    && s.chain != [] && Distinct(s.chain) && s.next.Keys <= s.used
    && Within(s.chain, s.used) && Links(s.next, s.chain)
  }

  // Head and tail are in the chain, in this order; popped is what the head has passed.
  ghost predicate EndsOk(s: State) {
    && s.head in s.chain && s.tail in s.chain
    && Index(s.chain, s.head) <= Index(s.chain, s.tail)
    && Index(s.chain, s.head) < |s.chain|
    && s.popped == s.chain[1..Index(s.chain, s.head) + 1]
  }

  predicate Active(p: Proc) {
    !p.phase.Idle? && !p.phase.Linked?
  }

  // A segment that is not linked yet is its pusher's own.
  ghost predicate OwnOk(s: State, p: Proc) {
    Active(p) ==>
      && p.seg != [] && Distinct(p.seg)
      && Within(p.seg, s.used) && Apart(p.seg, s.chain) && Links(s.next, p.seg)
  }

  // What was loaded is in the chain, no later than the tail; a next that was seen is the next.
  ghost predicate SeenOk(s: State, p: Proc) {
    && (p.phase.HaveTail? || p.phase.HaveNext? || p.phase.Checked? || p.phase.Linked? ==>
          p.last in s.chain && Index(s.chain, p.last) <= Index(s.chain, s.tail))
    && (p.phase.HaveNext? || p.phase.Checked? ==> p.next == NULL || (p.next >= 0 && p.next == Next(s, p.last)))
    // Nothing can be linked behind a segment while the tail is still before it.
    && (p.phase.Linked? && p.last == s.tail ==> p.seg != [] && s.chain[Index(s.chain, p.last) + 1..] == p.seg)
  }

  ghost predicate ProcsOk(s: State) {
    && (forall i :: 0 <= i < |s.procs| ==> OwnOk(s, s.procs[i]) && SeenOk(s, s.procs[i]))
    && (forall i, j :: 0 <= i < |s.procs| && 0 <= j < |s.procs| && i != j && Active(s.procs[i]) && Active(s.procs[j]) ==>
          Apart(s.procs[i].seg, s.procs[j].seg))
  }

  // A tail that lags behind has somebody who will move it.
  ghost predicate TailOk(s: State) {
    s.chain != [] && (s.tail == s.chain[|s.chain| - 1]
    || exists i :: 0 <= i < |s.procs| && (Active(s.procs[i]) || (s.procs[i].phase.Linked? && s.procs[i].last == s.tail)))
  }

  function Joined(segs: seq<seq<nat>>): seq<nat> {
    if segs == [] then [] else Joined(segs[..|segs| - 1]) + segs[|segs| - 1]
  }

  ghost predicate Inv(s: State) {
    ChainOk(s) && EndsOk(s) && ProcsOk(s) && TailOk(s) && s.chain[1..] == Joined(s.segments)
  }

  lemma InitInv(n: nat)
    ensures Inv(Init(n))
  {}

  // ------------------------------------------------------------------ steps of one thread

  // One pusher changes what it knows, or stops.
  lemma ProcsSet(s: State, i: nat, p: Proc)
    requires ProcsOk(s) && i < |s.procs| && OwnOk(s, p) && SeenOk(s, p)
    requires Active(p) ==> Active(s.procs[i]) && p.seg == s.procs[i].seg
    ensures ProcsOk(Set(s, i, p))
  {
    forall j | 0 <= j < |s.procs| ensures OwnOk(Set(s, i, p), s.procs[j]) && SeenOk(Set(s, i, p), s.procs[j]) {
      SameShared(s, Set(s, i, p), s.procs[j]);
    }
    SameShared(s, Set(s, i, p), p);
  }

  lemma SameShared(s: State, r: State, p: Proc)
    requires OwnOk(s, p) && SeenOk(s, p)
    requires r.next == s.next && r.chain == s.chain && r.used == s.used && r.tail == s.tail
    ensures OwnOk(r, p) && SeenOk(r, p)
  {}

  // A step that changes only what one pusher knows.
  lemma LocalStep(s: State, i: nat, p: Proc)
    requires Inv(s) && i < |s.procs| && OwnOk(s, p) && SeenOk(s, p)
    requires Active(p) && Active(s.procs[i]) && p.seg == s.procs[i].seg
    ensures Inv(Set(s, i, p))
  {
    ProcsSet(s, i, p);
    assert Active(Set(s, i, p).procs[i]);
  }

  lemma LoadTailStep(s: State, i: nat)
    requires Inv(s) && Enabled(s, LoadTail(i))
    ensures Inv(Apply(s, LoadTail(i)))
  {
    assert OwnOk(s, s.procs[i]);
    LocalStep(s, i, s.procs[i].(phase := HaveTail, last := s.tail));
  }

  lemma LoadNextStep(s: State, i: nat)
    requires Inv(s) && Enabled(s, LoadNext(i))
    ensures Inv(Apply(s, LoadNext(i)))
  {
    assert OwnOk(s, s.procs[i]) && SeenOk(s, s.procs[i]);
    LocalStep(s, i, s.procs[i].(phase := HaveNext, next := Next(s, s.procs[i].last)));
  }

  lemma CheckStep(s: State, i: nat)
    requires Inv(s) && Enabled(s, Check(i))
    ensures Inv(Apply(s, Check(i)))
  {
    assert OwnOk(s, s.procs[i]) && SeenOk(s, s.procs[i]);
    LocalStep(s, i, s.procs[i].(phase := if s.procs[i].last == s.tail then Checked else Start));
  }

  // ------------------------------------------------------------------ moving the tail

  // The tail moves forward in the chain; nobody has a segment behind the new tail.
  lemma TailMoves(s: State, i: nat, p: Proc, k: nat)
    requires Inv(s) && i < |s.procs| && p.phase in {Start, Idle}
             && (Active(p) ==> OwnOk(s, p) && p.seg == s.procs[i].seg && Active(s.procs[i]))
    requires Index(s.chain, s.tail) < k < |s.chain| && (Active(p) || k == |s.chain| - 1)
    ensures Inv(Set(s, i, p).(tail := s.chain[k]))
  {
    var r := Set(s, i, p).(tail := s.chain[k]);
    IndexIs(s.chain, k);
    forall j | 0 <= j < |r.procs| ensures OwnOk(r, r.procs[j]) && SeenOk(r, r.procs[j]) {
      TailMovesProc(s, r, k, s.procs[j]);
    }
    assert ProcsOk(r);
    assert Active(p) ==> Active(r.procs[i]);
  }

  lemma TailMovesProc(s: State, r: State, k: nat, p: Proc)
    requires OwnOk(s, p) && SeenOk(s, p) && s.tail in s.chain && Index(s.chain, s.tail) < k < |s.chain|
    requires r.next == s.next && r.chain == s.chain && r.used == s.used && r.tail == s.chain[k] && Index(s.chain, r.tail) == k
    ensures OwnOk(r, p) && SeenOk(r, p)
  {}

  lemma HelpStep(s: State, i: nat)
    requires Inv(s) && Enabled(s, Help(i))
    ensures Inv(Apply(s, Help(i)))
  {
    var p := s.procs[i];
    assert OwnOk(s, p) && SeenOk(s, p);
    var k := Index(s.chain, s.tail);
    if s.tail == p.last {
      assert LinkAt(s.next, s.chain, k);
      TailMoves(s, i, p.(phase := Start), k + 1);
    } else {
      LocalStep(s, i, p.(phase := Start));
    }
  }

  lemma FinishStep(s: State, i: nat)
    requires Inv(s) && Enabled(s, Finish(i))
    ensures Inv(Apply(s, Finish(i)))
  {
    if s.tail == s.procs[i].last {
      FinishInTime(s, i);
    } else {
      FinishLate(s, i);
    }
  }

  lemma FinishInTime(s: State, i: nat)
    requires Inv(s) && Enabled(s, Finish(i)) && s.tail == s.procs[i].last
    ensures Inv(Apply(s, Finish(i)))
  {
    var p := s.procs[i];
    SegmentIsRest(s, i);
    TailMoves(s, i, p.(phase := Idle), |s.chain| - 1);
  }

  // With the tail still before it, a linked segment is the rest of the chain.
  lemma SegmentIsRest(s: State, i: nat)
    requires Inv(s) && Enabled(s, Finish(i)) && s.tail == s.procs[i].last
    ensures s.procs[i].seg != [] && Index(s.chain, s.tail) < |s.chain| - 1
    ensures s.procs[i].seg[|s.procs[i].seg| - 1] == s.chain[|s.chain| - 1]
  {
    var p := s.procs[i];
    assert SeenOk(s, p);
    var k := Index(s.chain, s.tail);
    assert s.chain[k + 1..] == p.seg && |s.chain| == k + 1 + |p.seg|;
  }

  // Somebody else has moved the tail already.
  lemma FinishLate(s: State, i: nat)
    requires Inv(s) && Enabled(s, Finish(i)) && s.tail != s.procs[i].last
    ensures Inv(Set(s, i, s.procs[i].(phase := Idle)))
  {
    ProcsSet(s, i, s.procs[i].(phase := Idle));
    var r := Set(s, i, s.procs[i].(phase := Idle));
    if s.tail != s.chain[|s.chain| - 1] {
      var j :| 0 <= j < |s.procs| && (Active(s.procs[j]) || (s.procs[j].phase.Linked? && s.procs[j].last == s.tail));
      assert r.procs[j] == s.procs[j];
    }
  }

  // ------------------------------------------------------------------ linking a segment

  lemma {:induction false} IndexAppend(c: seq<nat>, d: seq<nat>, x: nat)
    requires x in c
    ensures Index(c + d, x) == Index(c, x)
  {
    if c[0] != x {
      assert (c + d)[1..] == c[1..] + d;
      IndexAppend(c[1..], d, x);
    }
  }

  // Only the end of the chain has no next, and only with the tail there can a segment be linked.
  lemma LinkAtEnd(s: State, i: nat)
    requires Inv(s) && Enabled(s, Link(i)) && Next(s, s.procs[i].last) == NULL
    ensures s.procs[i].last == s.tail == s.chain[|s.chain| - 1] && Index(s.chain, s.tail) == |s.chain| - 1
    ensures OwnOk(s, s.procs[i])
  {
    var p := s.procs[i];
    assert SeenOk(s, p) && OwnOk(s, p);
    assert LinkAt(s.next, s.chain, Index(s.chain, p.last));
    assert Index(s.chain, s.tail) < |s.chain|;
  }

  lemma LinkChain(s: State, i: nat)
    requires Inv(s) && Enabled(s, Link(i)) && Next(s, s.procs[i].last) == NULL
    ensures ChainOk(Apply(s, Link(i)))
  {
    LinkAtEnd(s, i);
    var p, r := s.procs[i], Apply(s, Link(i));
    LinksJoin(s.next, s.chain, p.seg);
    DistinctAppend(s.chain, p.seg);
  }

  // The last node of one chain is linked to the first of another.
  lemma LinksJoin(next: map<nat, nat>, c: seq<nat>, d: seq<nat>)
    requires c != [] && d != [] && Distinct(c) && Apart(d, c) && Links(next, c) && Links(next, d)
    ensures Links(next[c[|c| - 1] := d[0]], c + d)
  {
    var r, e := next[c[|c| - 1] := d[0]], c + d;
    forall k | 0 <= k < |e| ensures LinkAt(r, e, k) {
      if k < |c| {
        assert LinkAt(next, c, k);
      } else {
        assert LinkAt(next, d, k - |c|) && d[k - |c|] in d;
      }
    }
  }

  lemma DistinctAppend(a: seq<nat>, b: seq<nat>)
    requires Distinct(a) && Distinct(b) && Apart(b, a)
    ensures Distinct(a + b)
  {
    forall j, k | 0 <= j < k < |a + b| ensures (a + b)[j] != (a + b)[k] {
      assert (a + b)[j] == if j < |a| then a[j] else b[j - |a|];
      assert (a + b)[k] == if k < |a| then a[k] else b[k - |a|];
      assert k >= |a| ==> b[k - |a|] in b;
    }
  }

  lemma LinkProc(s: State, i: nat, j: nat)
    requires Inv(s) && Enabled(s, Link(i)) && Next(s, s.procs[i].last) == NULL && j < |s.procs|
    ensures OwnOk(Apply(s, Link(i)), Apply(s, Link(i)).procs[j]) && SeenOk(Apply(s, Link(i)), Apply(s, Link(i)).procs[j])
  {
    LinkAtEnd(s, i);
    var p, q, r := s.procs[i], s.procs[j], Apply(s, Link(i));
    assert OwnOk(s, q) && SeenOk(s, q);
    IndexAppend(s.chain, p.seg, s.tail);
    if q.last in s.chain {
      IndexAppend(s.chain, p.seg, q.last);
    }
    if j != i && Active(q) {
      forall k | 0 <= k < |q.seg| ensures LinkAt(r.next, q.seg, k) {
        assert LinkAt(s.next, q.seg, k) && q.seg[k] in q.seg;
      }
    }
  }

  lemma LinkProcs(s: State, i: nat)
    requires Inv(s) && Enabled(s, Link(i)) && Next(s, s.procs[i].last) == NULL
    ensures ProcsOk(Apply(s, Link(i)))
  {
    var r := Apply(s, Link(i));
    forall j | 0 <= j < |r.procs| ensures OwnOk(r, r.procs[j]) && SeenOk(r, r.procs[j]) {
      LinkProc(s, i, j);
    }
  }

  lemma LinkFails(s: State, i: nat)
    requires Inv(s) && Enabled(s, Link(i)) && Next(s, s.procs[i].last) != NULL
    ensures Inv(Apply(s, Link(i)))
  {
    assert OwnOk(s, s.procs[i]) && SeenOk(s, s.procs[i]);
    LocalStep(s, i, s.procs[i].(phase := Start));
  }

  lemma LinkStep(s: State, i: nat)
    requires Inv(s) && Enabled(s, Link(i))
    ensures Inv(Apply(s, Link(i)))
  {
    if Next(s, s.procs[i].last) == NULL {
      LinkChain(s, i);
      LinkEnds(s, i);
      LinkProcs(s, i);
    } else {
      LinkFails(s, i);
    }
  }

  lemma LinkEnds(s: State, i: nat)
    requires Inv(s) && Enabled(s, Link(i)) && Next(s, s.procs[i].last) == NULL
    ensures var r := Apply(s, Link(i)); EndsOk(r) && TailOk(r) && r.chain[1..] == Joined(r.segments)
  {
    LinkAtEnd(s, i);
    var p, r := s.procs[i], Apply(s, Link(i));
    IndexAppend(s.chain, p.seg, s.tail);
    IndexAppend(s.chain, p.seg, s.head);
    assert r.procs[i].phase.Linked? && r.procs[i].last == r.tail;
    PopPrefix(s.chain, p.seg, Index(s.chain, s.head));
    JoinedAppend(s.segments, p.seg);
  }

  lemma JoinedAppend(segs: seq<seq<nat>>, seg: seq<nat>)
    ensures Joined(segs + [seg]) == Joined(segs) + seg
  {
    assert (segs + [seg])[..|segs|] == segs;
  }

  lemma PopPrefix(c: seq<nat>, d: seq<nat>, h: nat)
    requires h < |c|
    ensures (c + d)[1..] == c[1..] + d && (c + d)[1..h + 1] == c[1..h + 1]
  {}

  // ------------------------------------------------------------------ new segments

  lemma {:induction false} ChainedOk(next: map<nat, nat>, seg: seq<nat>)
    requires Distinct(seg) && forall x :: x in seg ==> x !in next
    ensures var r := Chained(next, seg);
            && Links(r, seg)
            && (forall x :: x !in seg ==> (x in r <==> x in next) && (x in r ==> r[x] == next[x]))
  {
    if |seg| >= 2 {
      ChainedOk(next, seg[1..]);
      var r := Chained(next, seg);
      forall k | 0 <= k < |seg| ensures LinkAt(r, seg, k) {
        assert k > 0 ==> LinkAt(Chained(next, seg[1..]), seg[1..], k - 1);
      }
    }
  }

  // Making the links of a new segment touches no other node.
  lemma Untouched(next: map<nat, nat>, seg: seq<nat>, c: seq<nat>)
    requires Distinct(seg) && (forall x :: x in seg ==> x !in next) && Apart(c, seg) && Links(next, c)
    ensures Links(Chained(next, seg), c)
  {
    ChainedOk(next, seg);
    forall k | 0 <= k < |c| ensures LinkAt(Chained(next, seg), c, k) {
      assert LinkAt(next, c, k) && c[k] in c;
    }
  }

  lemma BeginProc(s: State, i: nat, seg: seq<nat>, j: nat)
    requires Inv(s) && Enabled(s, Begin(i, seg)) && j < |s.procs|
    ensures var r := Apply(s, Begin(i, seg)); OwnOk(r, r.procs[j]) && SeenOk(r, r.procs[j])
  {
    assert OwnOk(s, s.procs[j]) && SeenOk(s, s.procs[j]);
    ChainedOk(s.next, seg);
    if j != i && Active(s.procs[j]) {
      Untouched(s.next, seg, s.procs[j].seg);
    }
  }

  lemma BeginStep(s: State, i: nat, seg: seq<nat>)
    requires Inv(s) && Enabled(s, Begin(i, seg))
    ensures Inv(Apply(s, Begin(i, seg)))
  {
    var r := Apply(s, Begin(i, seg));
    ChainedOk(s.next, seg);
    Untouched(s.next, seg, s.chain);
    forall j | 0 <= j < |r.procs| ensures OwnOk(r, r.procs[j]) && SeenOk(r, r.procs[j]) {
      BeginProc(s, i, seg, j);
    }
    assert Active(r.procs[i]);
    forall j | 0 <= j < |s.procs| && Active(s.procs[j]) ensures Apart(s.procs[j].seg, seg) && Apart(seg, s.procs[j].seg) {
      assert OwnOk(s, s.procs[j]);
    }
  }

  // ------------------------------------------------------------------ the consumer

  /** The consumer of a queue that is not empty finds a next node behind the head. */
  lemma HeadHasNext(s: State)
    requires Inv(s) && s.head != s.tail
    ensures s.head in s.next && s.next[s.head] == s.chain[Index(s.chain, s.head) + 1]
    ensures Apply(s, Pop) == s.(head := s.next[s.head], popped := s.popped + [s.next[s.head]])
  {
    assert LinkAt(s.next, s.chain, Index(s.chain, s.head));
  }

  lemma PopStep(s: State)
    requires Inv(s) && Enabled(s, Pop)
    ensures Inv(Apply(s, Pop))
  {
    var r := Apply(s, Pop);
    var h := Index(s.chain, s.head);
    HeadHasNext(s);
    IndexIs(s.chain, h + 1);
    assert s.chain[1..h + 2] == s.chain[1..h + 1] + [s.chain[h + 1]];
    forall j | 0 <= j < |r.procs| ensures OwnOk(r, r.procs[j]) && SeenOk(r, r.procs[j]) {
      SameShared(s, r, s.procs[j]);
    }
  }

  /** Every step keeps the invariant. */
  lemma StepKeepsInv(s: State, a: Action)
    requires Inv(s) && Enabled(s, a)
    ensures Inv(Apply(s, a))
  {
    match a
    case Begin(i, seg) => BeginStep(s, i, seg);
    case LoadTail(i) => LoadTailStep(s, i);
    case LoadNext(i) => LoadNextStep(s, i);
    case Check(i) => CheckStep(s, i);
    case Link(i) => LinkStep(s, i);
    case Help(i) => HelpStep(s, i);
    case Finish(i) => FinishStep(s, i);
    case Pop => PopStep(s);
  }

  // ------------------------------------------------------------------ runs

  ghost predicate IsRun(n: nat, run: seq<State>, acts: seq<Action>) {
    && |run| == |acts| + 1 && run[0] == Init(n)
    && (forall k :: 0 <= k < |acts| ==> Enabled(run[k], acts[k]) && run[k + 1] == Apply(run[k], acts[k]))
  }

  lemma {:induction false} RunInv(n: nat, run: seq<State>, acts: seq<Action>, k: nat)
    requires IsRun(n, run, acts) && k < |run|
    ensures Inv(run[k])
  {
    if k == 0 {
      InitInv(n);
    } else {
      RunInv(n, run, acts, k - 1);
      StepKeepsInv(run[k - 1], acts[k - 1]);
    }
  }

  /** What was popped is a prefix of the segments in the order in which they were linked; no item is
      popped twice, and the links from the head lead through exactly those still to be popped. */
  lemma FirstInFirstOut(n: nat, run: seq<State>, acts: seq<Action>, k: nat)
    requires IsRun(n, run, acts) && k < |run|
    ensures var s := run[k]; var h := Index(s.chain, s.head);
            && h < |s.chain| && s.popped <= Joined(s.segments) && Distinct(s.popped)
            && Joined(s.segments) == s.popped + s.chain[h + 1..]
            && Links(s.next, s.chain) && s.chain[h] == s.head
  {
    RunInv(n, run, acts, k);
    var s := run[k];
    var h := Index(s.chain, s.head);
    assert s.chain[1..] == s.chain[1..h + 1] + s.chain[h + 1..];
  }

  /** The head never passes the tail, and when nobody is pushing, an empty queue has nothing left. */
  lemma EmptyMeansEmpty(n: nat, run: seq<State>, acts: seq<Action>, k: nat)
    requires IsRun(n, run, acts) && k < |run|
    ensures Index(run[k].chain, run[k].head) <= Index(run[k].chain, run[k].tail)
    ensures (forall i :: 0 <= i < |run[k].procs| ==> run[k].procs[i].phase.Idle?) ==>
              (run[k].head == run[k].tail <==> run[k].popped == Joined(run[k].segments))
  {
    RunInv(n, run, acts, k);
    var s := run[k];
    IndexIs(s.chain, |s.chain| - 1);
    assert |s.popped| == Index(s.chain, s.head) && |s.chain[1..]| == |s.chain| - 1;
  }

  /** An item whose segment is linked but which the tail has not passed has a pusher at work. */
  lemma LaggingTail(n: nat, run: seq<State>, acts: seq<Action>, k: nat) returns (i: nat)
    requires IsRun(n, run, acts) && k < |run| && run[k].tail in run[k].next
    ensures i < |run[k].procs| && !run[k].procs[i].phase.Idle?
  {
    RunInv(n, run, acts, k);
    var s := run[k];
    assert LinkAt(s.next, s.chain, |s.chain| - 1);
    i :| 0 <= i < |s.procs| && (Active(s.procs[i]) || (s.procs[i].phase.Linked? && s.procs[i].last == s.tail));
  }
}
