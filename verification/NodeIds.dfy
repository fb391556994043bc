/**
  Node ids: each thread draws ranges of ids from the database, keeps the nodes it made in a list, and
  reuses the ids of up to 32 deleted ones.

  A thread may delete a node of another, which then stays in the list of its creator, marked, until
  the creator cleans up.
 */
module NodeIds {

  const MAX_FREED: nat := 32

  // A node in the list of its creator; dead once another thread deleted it.
  datatype Node = Node(id: nat, dead: bool)

  // The ids of one thread: an unused range, nodes made, ids freed.
  datatype Pool = Pool(next: nat, end: nat, made: seq<Node>, freed: seq<nat>, deletedByOthers: nat, nextAllocation: nat)

  // base: the largest id of the initial nodes.  dropped: ids that will never be used again.
  datatype State = State(base: nat, maxId: nat, pools: seq<Pool>, dropped: seq<nat>)

  // ------------------------------------------------------------------ steps of one thread

  // remove_node_from_allocated: the id is kept for reuse while there is room.
  function Release(p: Pool, i: nat): (Pool, seq<nat>)
    requires i < |p.made|
  {
    var rest := p.made[..i] + p.made[i + 1..];
    if |p.freed| == MAX_FREED then (p.(made := rest), [p.made[i].id])
    else (p.(made := rest, freed := [p.made[i].id] + p.freed), [])
  }

  // free_destroyed_nodes, from a position in the list on.  The count of nodes deleted by others is
  // left as it is, as in the source.
  function Sweep(p: Pool, i: nat): (Pool, seq<nat>)
    requires i <= |p.made|
    decreases |p.made| - i
  {
    if i == |p.made| then (p, [])
    else if p.made[i].dead then
      var (q, d) := Release(p, i);
      var (r, e) := Sweep(q, i);
      (r, d + e)
    else
      Sweep(p, i + 1)
  }

  predicate NeedsSweep(p: Pool) {
    |p.made| > 0 && p.deletedByOthers > 0 && p.deletedByOthers > |p.made| / 2
  }

  // allocate_more_ids, under the lock of the database
  function Refill(s: State, t: nat, size: nat): State
    requires t < |s.pools|
  {
    var p := s.pools[t];
    s.(maxId := s.maxId + size, pools := s.pools[t := p.(next := s.maxId + 1, end := s.maxId + 1 + size, nextAllocation := size)])
  }

  // The sweep create_node starts with
  function Swept(s: State, t: nat): State
    requires t < |s.pools|
  {
    if NeedsSweep(s.pools[t]) then
      var (p, d) := Sweep(s.pools[t], 0);
      s.(pools := s.pools[t := p], dropped := s.dropped + d)
    else s
  }

  // create_node: an id that was freed, or the next of the range.
  function Create(s: State, t: nat): (State, nat)
    requires t < |s.pools|
  {
    Take(Swept(s, t), t)
  }

  function Take(s: State, t: nat): (State, nat)
    requires t < |s.pools|
  {
    var p := s.pools[t];
    if p.freed != [] then
      (s.(pools := s.pools[t := p.(freed := p.freed[1..], made := [Node(p.freed[0], false)] + p.made)]), p.freed[0])
    else
      var s1 := if p.next == p.end then Refill(s, t, p.nextAllocation * 4) else s;
      var q := s1.pools[t];
      (s1.(pools := s1.pools[t := q.(next := q.next + 1, made := [Node(q.next, false)] + q.made)]), q.next)
  }

  // delete_node of the i-th node of thread t, by its creator or by another thread
  function Delete(s: State, t: nat, i: nat, own: bool): State
    requires t < |s.pools| && i < |s.pools[t].made|
  {
    var p := s.pools[t];
    if own then
      var (q, d) := Release(p, i);
      s.(pools := s.pools[t := q], dropped := s.dropped + d)
    else
      var q := p.(made := p.made[i := p.made[i].(dead := true)], deletedByOthers := p.deletedByOthers + 1);
      s.(pools := s.pools[t := q])
  }

  // ------------------------------------------------------------------ where an id is

  function Times(xs: seq<nat>, id: nat): nat {
    if xs == [] then 0 else (if xs[0] == id then 1 else 0) + Times(xs[1..], id)
  }

  function Ids(ns: seq<Node>): (r: seq<nat>)
    ensures |r| == |ns| && forall i :: 0 <= i < |r| ==> r[i] == ns[i].id
  {
    seq(|ns|, i requires 0 <= i < |ns| => ns[i].id)
  }

  function Held(p: Pool, id: nat): nat {
    (if p.next <= id < p.end then 1 else 0) + Times(Ids(p.made), id) + Times(p.freed, id)
  }

  function HeldByAll(ps: seq<Pool>, id: nat): nat {
    if ps == [] then 0 else Held(ps[0], id) + HeldByAll(ps[1..], id)
  }

  function Places(s: State, id: nat): nat {
    HeldByAll(s.pools, id) + Times(s.dropped, id)
  }

  // Every id that was handed out is in exactly one place, and no other id is anywhere.
  ghost predicate Inv(s: State) {
    && s.base <= s.maxId
    && (forall id: nat :: Places(s, id) == if s.base < id <= s.maxId then 1 else 0)
    && (forall t :: 0 <= t < |s.pools| ==>
         s.pools[t].nextAllocation > 0 && s.pools[t].next <= s.pools[t].end && |s.pools[t].freed| <= MAX_FREED)
  }

  lemma {:induction false} TimesAppend(a: seq<nat>, b: seq<nat>, id: nat)
    ensures Times(a + b, id) == Times(a, id) + Times(b, id)
  {
    if a == [] {
      assert a + b == b;
    } else {
      assert (a + b)[1..] == a[1..] + b;
      TimesAppend(a[1..], b, id);
    }
  }

  lemma TimesCut(xs: seq<nat>, i: nat, id: nat)
    requires i < |xs|
    ensures Times(xs, id) == Times(xs[..i] + xs[i + 1..], id) + if xs[i] == id then 1 else 0
  {
    assert xs == xs[..i] + ([xs[i]] + xs[i + 1..]);
    TimesAppend(xs[..i], [xs[i]] + xs[i + 1..], id);
    TimesAppend(xs[..i], xs[i + 1..], id);
    assert ([xs[i]] + xs[i + 1..])[1..] == xs[i + 1..];
  }

  lemma TimesFront(x: nat, xs: seq<nat>, id: nat)
    ensures Times([x] + xs, id) == Times(xs, id) + if x == id then 1 else 0
  {}

  lemma {:induction false} HeldSet(ps: seq<Pool>, t: nat, p: Pool, id: nat)
    requires t < |ps|
    ensures HeldByAll(ps[t := p], id) == HeldByAll(ps, id) - Held(ps[t], id) + Held(p, id)
    ensures HeldByAll(ps, id) >= Held(ps[t], id)
  {
    if t == 0 {
      assert ps[0 := p][1..] == ps[1..];
    } else {
      HeldSet(ps[1..], t - 1, p, id);
      assert ps[t := p][1..] == ps[1..][t - 1 := p];
    }
  }

  /** Releasing a node moves its id to the freed list or drops it. */
  lemma ReleaseKeeps(p: Pool, i: nat, id: nat)
    requires i < |p.made|
    ensures var (q, d) := Release(p, i); Held(q, id) + Times(d, id) == Held(p, id)
  {
    var x := p.made[i].id;
    var rest := p.made[..i] + p.made[i + 1..];
    assert Ids(rest) == Ids(p.made)[..i] + Ids(p.made)[i + 1..];
    TimesCut(Ids(p.made), i, id);
    TimesFront(x, p.freed, id);
    TimesFront(x, [], id);
    assert [x] + [] == [x];
  }

  lemma {:induction false} SweepKeeps(p: Pool, i: nat, id: nat)
    requires i <= |p.made|
    ensures var (q, d) := Sweep(p, i);
            && Held(q, id) + Times(d, id) == Held(p, id)
            && q.next == p.next && q.end == p.end && q.nextAllocation == p.nextAllocation
            && (|p.freed| <= MAX_FREED ==> |q.freed| <= MAX_FREED)
    decreases |p.made| - i
  {
    if i < |p.made| {
      if p.made[i].dead {
        var (q, d) := Release(p, i);
        var (_, e) := Sweep(q, i);
        ReleaseKeeps(p, i, id);
        SweepKeeps(q, i, id);
        TimesAppend(d, e, id);
      } else {
        SweepKeeps(p, i + 1, id);
      }
    }
  }

  // Another pool for one thread, with some ids dropped, holding the same ids otherwise
  lemma PoolStep(s: State, t: nat, p: Pool, d: seq<nat>)
    requires Inv(s) && t < |s.pools|
    requires forall id: nat :: Held(p, id) + Times(d, id) == Held(s.pools[t], id)
    requires p.nextAllocation > 0 && p.next <= p.end && |p.freed| <= MAX_FREED
    ensures Inv(s.(pools := s.pools[t := p], dropped := s.dropped + d))
  {
    var r := s.(pools := s.pools[t := p], dropped := s.dropped + d);
    forall id: nat ensures Places(r, id) == Places(s, id) {
      HeldSet(s.pools, t, p, id);
      TimesAppend(s.dropped, d, id);
    }
  }

  /** Deleting a node, by its creator or by another thread, keeps every id in exactly one place. */
  lemma DeleteKeepsInv(s: State, t: nat, i: nat, own: bool)
    requires Inv(s) && t < |s.pools| && i < |s.pools[t].made|
    ensures Inv(Delete(s, t, i, own))
  {
    var p := s.pools[t];
    if own {
      var (q, d) := Release(p, i);
      forall id: nat ensures Held(q, id) + Times(d, id) == Held(p, id) {
        ReleaseKeeps(p, i, id);
      }
      PoolStep(s, t, q, d);
    } else {
      var q := p.(made := p.made[i := p.made[i].(dead := true)], deletedByOthers := p.deletedByOthers + 1);
      assert Ids(q.made) == Ids(p.made);
      PoolStep(s, t, q, []);
      assert s.dropped + [] == s.dropped;
    }
  }

  lemma RefillKeepsInv(s: State, t: nat, size: nat)
    requires Inv(s) && t < |s.pools| && s.pools[t].next == s.pools[t].end && size > 0
    ensures Inv(Refill(s, t, size))
  {
    var r := Refill(s, t, size);
    forall id: nat ensures Places(r, id) == if r.base < id <= r.maxId then 1 else 0 {
      HeldSet(s.pools, t, r.pools[t], id);
      assert Places(s, id) == if s.base < id <= s.maxId then 1 else 0;
    }
  }

  lemma TakeFreed(s: State, t: nat)
    requires Inv(s) && t < |s.pools| && s.pools[t].freed != []
    ensures var p := s.pools[t];
            Inv(s.(pools := s.pools[t := p.(freed := p.freed[1..], made := [Node(p.freed[0], false)] + p.made)]))
  {
    var p := s.pools[t];
    var q := p.(freed := p.freed[1..], made := [Node(p.freed[0], false)] + p.made);
    assert Ids(q.made) == [p.freed[0]] + Ids(p.made);
    forall id: nat ensures Held(q, id) == Held(p, id) && Times([], id) == 0 {
      TimesFront(p.freed[0], Ids(p.made), id);
    }
    PoolStep(s, t, q, []);
    assert s.dropped + [] == s.dropped;
  }

  lemma TakeNext(s: State, t: nat)
    requires Inv(s) && t < |s.pools| && s.pools[t].next < s.pools[t].end
    ensures var p := s.pools[t];
            Inv(s.(pools := s.pools[t := p.(next := p.next + 1, made := [Node(p.next, false)] + p.made)]))
  {
    var p := s.pools[t];
    var q := p.(next := p.next + 1, made := [Node(p.next, false)] + p.made);
    assert Ids(q.made) == [p.next] + Ids(p.made);
    forall id: nat ensures Held(q, id) == Held(p, id) && Times([], id) == 0 {
      TimesFront(p.next, Ids(p.made), id);
    }
    PoolStep(s, t, q, []);
    assert s.dropped + [] == s.dropped;
  }

  lemma SweptKeepsInv(s: State, t: nat)
    requires Inv(s) && t < |s.pools|
    ensures Inv(Swept(s, t)) && |Swept(s, t).pools| == |s.pools|
  {
    if NeedsSweep(s.pools[t]) {
      var (p, d) := Sweep(s.pools[t], 0);
      forall id: nat ensures Held(p, id) + Times(d, id) == Held(s.pools[t], id) {
        SweepKeeps(s.pools[t], 0, id);
      }
      SweepKeeps(s.pools[t], 0, 0);
      PoolStep(s, t, p, d);
    }
  }

  lemma TakeKeepsInv(s: State, t: nat)
    requires Inv(s) && t < |s.pools|
    ensures Inv(Take(s, t).0)
  {
    var p := s.pools[t];
    if p.freed != [] {
      TakeFreed(s, t);
    } else if p.next == p.end {
      RefillKeepsInv(s, t, p.nextAllocation * 4);
      TakeNext(Refill(s, t, p.nextAllocation * 4), t);
    } else {
      TakeNext(s, t);
    }
  }

  /** Creating a node keeps every id in exactly one place, whatever it reuses, sweeps or draws. */
  lemma CreateKeepsInv(s: State, t: nat)
    requires Inv(s) && t < |s.pools|
    ensures Inv(Create(s, t).0)
  {
    SweptKeepsInv(s, t);
    TakeKeepsInv(Swept(s, t), t);
  }

  // The id that create_node returns is that of the node it puts in front of the list.
  lemma CreatedInFront(s: State, t: nat)
    requires t < |s.pools|
    ensures var (r, id) := Create(s, t); t < |r.pools| && r.pools[t].made != [] && r.pools[t].made[0] == Node(id, false)
  {}

  // ------------------------------------------------------------------ runs

  const ALLOCATED_IDS: nat := 16 * 1024

  // A thread starts, makes a node, or a node is deleted.
  datatype Op = NewThread | MakeNode(t: nat) | DeleteNode(t: nat, i: nat, own: bool)

  predicate Enabled(s: State, op: Op) {
    match op
    case NewThread => true
    case MakeNode(t) => t < |s.pools|
    case DeleteNode(t, i, _) => t < |s.pools| && i < |s.pools[t].made|
  }

  function Apply(s: State, op: Op): State
    requires Enabled(s, op)
  {
    match op
    case NewThread => Refill(s.(pools := s.pools + [Pool(0, 0, [], [], 0, ALLOCATED_IDS)]), |s.pools|, ALLOCATED_IDS)
    case MakeNode(t) => Create(s, t).0
    case DeleteNode(t, i, own) => Delete(s, t, i, own)
  }

  lemma {:induction false} HeldAppend(a: seq<Pool>, b: seq<Pool>, id: nat)
    ensures HeldByAll(a + b, id) == HeldByAll(a, id) + HeldByAll(b, id)
  {
    if a == [] {
      assert a + b == b;
    } else {
      assert (a + b)[1..] == a[1..] + b;
      HeldAppend(a[1..], b, id);
    }
  }

  lemma NewThreadKeepsInv(s: State)
    requires Inv(s)
    ensures Inv(Apply(s, NewThread))
  {
    var p := Pool(0, 0, [], [], 0, ALLOCATED_IDS);
    var r := s.(pools := s.pools + [p]);
    forall id: nat ensures Places(r, id) == Places(s, id) {
      HeldAppend(s.pools, [p], id);
      assert [p][1..] == [];
    }
    RefillKeepsInv(r, |s.pools|, ALLOCATED_IDS);
  }

  ghost predicate IsRun(base: nat, run: seq<State>, ops: seq<Op>) {
    && |run| == |ops| + 1 && run[0] == State(base, base, [], [])
    && (forall k :: 0 <= k < |ops| ==> Enabled(run[k], ops[k]) && run[k + 1] == Apply(run[k], ops[k]))
  }

  /** In every run, every id ever handed out is in exactly one place: an unused range, a list of nodes,
      a freed list, or dropped. */
  lemma {:induction false} OnePlaceInEveryRun(base: nat, run: seq<State>, ops: seq<Op>, k: nat)
    requires IsRun(base, run, ops) && k < |run|
    ensures Inv(run[k])
  {
    if k > 0 {
      OnePlaceInEveryRun(base, run, ops, k - 1);
      match ops[k - 1]
      case NewThread => NewThreadKeepsInv(run[k - 1]);
      case MakeNode(t) => CreateKeepsInv(run[k - 1], t);
      case DeleteNode(t, i, own) => DeleteKeepsInv(run[k - 1], t, i, own);
    }
  }

  // ------------------------------------------------------------------ what it is for

  lemma TimesOfTwo(xs: seq<nat>, i: nat, j: nat)
    requires i < j < |xs| && xs[i] == xs[j]
    ensures Times(xs, xs[i]) >= 2
  {
    TimesCut(xs, j, xs[i]);
    var rest := xs[..j] + xs[j + 1..];
    assert rest[i] == xs[i];
    TimesCut(rest, i, xs[i]);
  }

  lemma {:induction false} HeldByTwo(ps: seq<Pool>, t: nat, u: nat, id: nat)
    requires t < u < |ps|
    ensures HeldByAll(ps, id) >= Held(ps[t], id) + Held(ps[u], id)
  {
    if t == 0 {
      HeldSet(ps[1..], u - 1, ps[u], id);
    } else {
      HeldByTwo(ps[1..], t - 1, u - 1, id);
    }
  }

  /** No two nodes that exist share an id, whoever made them, and none has the id of an initial node. */
  lemma IdsAreUnique(s: State, t: nat, i: nat, u: nat, j: nat)
    requires Inv(s) && t < |s.pools| && u < |s.pools| && i < |s.pools[t].made| && j < |s.pools[u].made|
    ensures s.base < s.pools[t].made[i].id <= s.maxId
    ensures s.pools[t].made[i].id == s.pools[u].made[j].id ==> t == u && i == j
  {
    var xs, ys := Ids(s.pools[t].made), Ids(s.pools[u].made);
    TimesCut(xs, i, xs[i]);
    TimesCut(ys, j, ys[j]);
    HeldSet(s.pools, t, s.pools[t], xs[i]);
    assert Places(s, xs[i]) == if s.base < xs[i] <= s.maxId then 1 else 0;
    if xs[i] == ys[j] {
      if t < u {
        HeldByTwo(s.pools, t, u, xs[i]);
      } else if u < t {
        HeldByTwo(s.pools, u, t, xs[i]);
      } else if i < j {
        TimesOfTwo(xs, i, j);
      } else if j < i {
        TimesOfTwo(xs, j, i);
      }
    }
  }

  /** The id of a new node is the id of no other node. */
  lemma CreatedIsUnique(s: State, t: nat, u: nat, j: nat)
    requires Inv(s) && t < |s.pools|
    ensures var (r, id) := Create(s, t);
            && t < |r.pools| && r.pools[t].made != [] && r.pools[t].made[0] == Node(id, false)
            && (u < |r.pools| && j < |r.pools[u].made| && (u != t || j > 0) ==> r.pools[u].made[j].id != id)
  {
    var (r, id) := Create(s, t);
    CreateKeepsInv(s, t);
    CreatedInFront(s, t);
    if u < |r.pools| && j < |r.pools[u].made| {
      IdsAreUnique(r, u, j, t, 0);
    }
  }
}
