/**
  Node placement: whatever the interleaving of sends, pops, steals and coordination calls, a node
  is in at most one queue and its tag says which one.
 */
module SchedulerPlacement {
  import opened SchedulerModel

  // The queues hold exactly the nodes whose tag names them, each once, in the queue of the owner.
  ghost predicate QueuesMatchTags(s: State) {
    forall t: nat, k, n: nat :: s.members[Entry(t, k, n)] ==
      if n < |s.nodes| && s.nodes[n].owner == t && s.nodes[n].tag == InQueue(k) then 1 else 0
  }

  ghost predicate Bounds(s: State) {
    forall n :: 0 <= n < |s.nodes| ==>
      && s.nodes[n].owner < |s.threads|
      && (s.nodes[n].pinned.Some? ==> s.nodes[n].pinned.value < |s.threads|)
  }

  predicate Loots(pc: PC, n: nat) { pc.Adopt? && n in pc.loot }

  predicate Moves(pc: PC, n: nat, r: Reason) {
    pc.Coord? && pc.node == n && pc.phase.Put? && r == ReasonOf(pc.op)
  }

  predicate Locks(pc: PC, n: nat) { pc.Coord? && pc.node == n }

  // Tags that name no queue name the thread that holds the node, and locks name their holder.
  ghost predicate NodeHeld(s: State, n: nat)
    requires n < |s.nodes|
  {
    var nd := s.nodes[n];
    && (nd.tag.Working? ==> nd.tag.who < |s.threads| && nd.owner == nd.tag.who && s.threads[nd.tag.who].cur == Some(n))
    && (nd.tag.Stealing? ==> nd.tag.who < |s.threads| && Loots(s.threads[nd.tag.who].pc, n))
    && (nd.tag.Changing? ==> nd.tag.who < |s.threads| && Moves(s.threads[nd.tag.who].pc, n, nd.tag.reason))
    && (nd.lock.Some? ==> nd.lock.value < |s.threads| && Locks(s.threads[nd.lock.value].pc, n))
  }

  ghost predicate NodesHeld(s: State) {
    forall n :: 0 <= n < |s.nodes| ==> NodeHeld(s, n)
  }

  // The node left its queue while a coordination call had seen it there.
  predicate Escaped(nd: Node) { nd.tag.Stealing? || nd.tag.Working? }

  ghost predicate CoordFine(s: State, t: nat, pc: PC)
    requires pc.Coord?
  {
    && pc.node < |s.nodes|
    && var nd := s.nodes[pc.node];
    && nd.lock == Some(t)
    && (pc.op.SetOwner? ==> pc.op.to < |s.threads| && pc.op.to != nd.owner && nd.pinned == Some(pc.op.to))
    && match pc.phase
       case Look(tries) => tries <= 1 && (tries == 1 ==> pc.op.SetOwner? && Escaped(nd))
       case Take(k, tries) =>
         && tries == 0 && pc.from == k && Target(pc.op, k).Some?
         && (OwnQueues(pc.op) ==> nd.tag == InQueue(k) || Escaped(nd))
       case Put =>
         && nd.tag == Changing(t, ReasonOf(pc.op)) && Target(pc.op, pc.from).Some?
         && (OwnQueues(pc.op) ==> nd.owner == t)
       case Ring => nd.owner != t && !OwnQueues(pc.op)
  }

  ghost predicate ThreadFine(s: State, t: nat, th: Thread) {
    && (th.cur.Some? ==>
         && th.cur.value < |s.nodes| && s.nodes[th.cur.value].tag == Working(t)
         && (th.pc == Run || th.pc == Next || th.pc.Coord?))
    && (th.pc == Run || th.pc.Coord? ==> th.cur.Some?)
    && (th.pc.Coord? ==> CoordFine(s, t, th.pc) && th.cur != Some(th.pc.node))
    && (th.pc.Adopt? ==> forall n | n in th.pc.loot :: n < |s.nodes| && s.nodes[n].tag == Stealing(t))
  }

  ghost predicate ThreadsFine(s: State) {
    forall t :: 0 <= t < |s.threads| ==> ThreadFine(s, t, s.threads[t])
  }

  ghost predicate Placed(s: State) {
    && Bounds(s)
    && QueuesMatchTags(s)
    && NodesHeld(s)
    && ThreadsFine(s)
  }

  // Thread t keeps every hold it had, except possibly the one on node `but`.
  ghost predicate KeepsHolds(th: Thread, th': Thread, but: int) {
    && (th.cur.Some? && th.cur.value != but ==> th'.cur == th.cur)
    && (th.pc.Adopt? ==> forall m: nat | m in th.pc.loot && m != but :: Loots(th'.pc, m))
    && (th.pc.Coord? && th.pc.node != but ==> th'.pc == th.pc)
  }

  ghost predicate SameHolds(s: State, s': State, t: nat) {
    && t < |s.threads| == |s'.threads|
    && forall x :: 0 <= x < |s.threads| && x != t ==>
         s'.threads[x].pc == s.threads[x].pc && s'.threads[x].cur == s.threads[x].cur
  }

  // Steps that touch no node.
  lemma KeepThreadStep(s: State, s': State, t: nat)
    requires Placed(s) && SameHolds(s, s', t)
    requires s'.nodes == s.nodes && s'.members == s.members
    requires KeepsHolds(s.threads[t], s'.threads[t], -1) && ThreadFine(s', t, s'.threads[t])
    ensures Placed(s')
  {
    forall n | 0 <= n < |s.nodes| ensures NodeHeld(s', n) {
      assert NodeHeld(s, n);
    }
    forall x | 0 <= x < |s.threads| ensures ThreadFine(s', x, s'.threads[x]) {
      assert ThreadFine(s, x, s.threads[x]);
    }
  }

  // The queue entry a node accounts for.
  function Slot(nd: Node, n: nat): multiset<Entry> {
    if nd.tag.InQueue? then multiset{Entry(nd.owner, nd.tag.kind, n)} else multiset{}
  }

  lemma QueuesAfter(s: State, s': State, n: nat)
    requires QueuesMatchTags(s)
    requires n < |s.nodes| == |s'.nodes| && s'.nodes == s.nodes[n := s'.nodes[n]]
    requires s'.members == s.members - Slot(s.nodes[n], n) + Slot(s'.nodes[n], n)
    ensures QueuesMatchTags(s')
  {}

  // What may happen to a node that another thread has locked: its owner takes it from its queue.
  predicate HeldElsewhereOk(nd: Node, nd': Node) {
    && nd'.lock == nd.lock && nd'.owner == nd.owner && nd'.pinned == nd.pinned
    && (nd'.tag == nd.tag || nd'.tag.Working?)
    && !nd.tag.Idle? && !nd.tag.Stealing? && !nd.tag.Changing?
  }

  // What a step that touches one node must satisfy: the node is not held by another thread, or
  // the other thread does not depend on what changed.
  ghost predicate NodeStepOk(s: State, s': State, t: nat, n: nat) {
    && SameHolds(s, s', t)
    && n < |s.nodes| == |s'.nodes| && s'.nodes == s.nodes[n := s'.nodes[n]]
    && s'.members == s.members - Slot(s.nodes[n], n) + Slot(s'.nodes[n], n)
    && s'.nodes[n].owner < |s.threads|
    && (s'.nodes[n].pinned.Some? ==> s'.nodes[n].pinned.value < |s.threads|)
    && KeepsHolds(s.threads[t], s'.threads[t], n) && ThreadFine(s', t, s'.threads[t])
    && NodeHeld(s', n)
    && (|| s'.nodes[n].tag == s.nodes[n].tag || s.nodes[n].tag.Idle?
        || (s.nodes[n].tag.InQueue? && (s.nodes[n].owner == t || s.nodes[n].lock == Some(t)))
        || (!s.nodes[n].tag.InQueue? && s.nodes[n].tag.who == t))
    && (|| s.nodes[n].lock.None? || s.nodes[n].lock == Some(t)
        || HeldElsewhereOk(s.nodes[n], s'.nodes[n]))
  }

  lemma KeepNodeStep(s: State, s': State, t: nat, n: nat)
    requires Placed(s) && NodeStepOk(s, s', t, n)
    ensures Placed(s')
  {
    QueuesAfter(s, s', n);
    forall m | 0 <= m < |s.nodes| ensures NodeHeld(s', m) {
      assert NodeHeld(s, m);
    }
    assert NodeHeld(s, n);
    forall x | 0 <= x < |s.threads| ensures ThreadFine(s', x, s'.threads[x]) {
      assert ThreadFine(s, x, s.threads[x]);
    }
  }

  // Everything a one-node step needs to know about its thread and its node.
  ghost predicate Local(s: State, t: nat, n: nat) {
    && t < |s.threads| && n < |s.nodes|
    && ThreadFine(s, t, s.threads[t])
    && NodeHeld(s, n)
    && s.members - Slot(s.nodes[n], n) + Slot(s.nodes[n], n) == s.members
    && s.nodes[n].owner < |s.threads|
    && (s.nodes[n].pinned.Some? ==> s.nodes[n].pinned.value < |s.threads|)
    && (s.nodes[n].tag.Changing? ==> s.nodes[n].lock == Some(s.nodes[n].tag.who))
  }

  lemma PlacedIsLocal(s: State, t: nat, n: nat)
    requires Placed(s) && t < |s.threads| && n < |s.nodes|
    ensures Local(s, t, n)
  {}

  lemma ThreadOnlyFrame(s: State, t: nat, a: Action)
    requires Enabled(s, t, a) && (MovesOn(a) || SwapsOwnState(a))
    ensures MayMove(s, t, s.threads[t], a)
    ensures Apply(s, t, a) == SetThread(s, t, Moved(s, t, s.threads[t], a))
  {}

  ghost predicate HoldsKept(s: State, s': State, t: nat) {
    && SameHolds(s, s', t) && s'.nodes == s.nodes && s'.members == s.members
    && KeepsHolds(s.threads[t], s'.threads[t], -1) && ThreadFine(s', t, s'.threads[t])
  }

  lemma MovedKeepsHolds(s: State, t: nat, a: Action)
    requires t < |s.threads| && MayMove(s, t, s.threads[t], a) && ThreadFine(s, t, s.threads[t])
    ensures HoldsKept(s, SetThread(s, t, Moved(s, t, s.threads[t], a)), t)
  {}

  lemma WakingKeepsHolds(s: State, t: nat, a: Action)
    requires Enabled(s, t, a) && (a.WakeOne? || a.Pay?) && ThreadFine(s, t, s.threads[t])
    ensures HoldsKept(s, Apply(s, t, a), t)
  {}

  lemma ThreadOnlyKeeps(s: State, t: nat, a: Action)
    requires Placed(s) && Enabled(s, t, a) && (MovesOn(a) || SwapsOwnState(a) || a.WakeOne? || a.Pay?)
    ensures Placed(Apply(s, t, a))
  {
    assert ThreadFine(s, t, s.threads[t]);
    if a.WakeOne? || a.Pay? {
      WakingKeepsHolds(s, t, a);
    } else {
      ThreadOnlyFrame(s, t, a);
      MovedKeepsHolds(s, t, a);
    }
    KeepThreadStep(s, Apply(s, t, a), t);
  }

  lemma SendIdleKeeps(s: State, t: nat, to: nat)
    requires Placed(s) && Local(s, t, to) && s.threads[t].pc == Run && s.nodes[to].lock.None?
    requires s.nodes[to].tag == Idle
    ensures Placed(SendWork(s, t, to))
  {
    var nd, s' := s.nodes[to], SendWork(s, t, to);
    var nd' := nd.(unprocessed := true, tag := InQueue(Destination(nd)));
    assert s'.nodes == s.nodes[to := nd'];
    assert s'.threads == s.threads[t := s'.threads[t]];
    assert s'.threads[t].pc == Run && s'.threads[t].cur == s.threads[t].cur;
    KeepNodeStep(s, s', t, to);
  }

  lemma SendKeeps(s: State, t: nat, to: nat)
    requires Placed(s) && Local(s, t, to) && s.threads[t].pc == Run && s.nodes[to].lock.None?
    ensures Placed(SendWork(s, t, to))
  {
    if s.nodes[to].tag == Idle {
      SendIdleKeeps(s, t, to);
    } else {
      KeepNodeStep(s, SendWork(s, t, to), t, to);
    }
  }

  lemma ReleaseMoves(s: State, t: nat, c: nat, has: bool)
    requires Placed(s) && Local(s, t, c) && s.threads[t].pc == Next && s.threads[t].cur == Some(c) && s.nodes[c].lock.None?
    requires s.nodes[c].pinned.Some? && s.nodes[c].pinned.value != s.nodes[c].owner
    ensures Placed(Release(s, t, has))
  {
    var nd := s.nodes[c].(owner := s.nodes[c].pinned.value, hasPriority := has);
    var s' := Release(s, t, has);
    assert s'.nodes == s.nodes[c := nd.(tag := InQueue(Destination(nd)))];
    KeepNodeStep(s, s', t, c);
  }

  lemma ReleaseStays(s: State, t: nat, c: nat, has: bool)
    requires Placed(s) && Local(s, t, c) && s.threads[t].pc == Next && s.threads[t].cur == Some(c) && s.nodes[c].lock.None?
    requires s.nodes[c].pinned.Some? ==> s.nodes[c].pinned.value == s.nodes[c].owner
    ensures Placed(Release(s, t, has))
  {
    KeepNodeStep(s, Release(s, t, has), t, c);
  }

  // A coordination call that stays in progress on node n.
  lemma KeepGoingOn(s: State, s': State, t: nat, n: nat, pc: PC, nd: Node)
    requires Placed(s) && Local(s, t, n) && s.threads[t].cur.Some? && s.threads[t].cur != Some(n)
    requires s.threads[t].pc == Run || Locks(s.threads[t].pc, n)
    requires s.nodes[n].lock == Some(t) || s.nodes[n].lock.None?
    requires s'.threads == s.threads[t := s.threads[t].(pc := pc)]
    requires s'.nodes == s.nodes[n := nd]
    requires s'.members == s.members - Slot(s.nodes[n], n) + Slot(nd, n)
    requires Locks(pc, n) && CoordFine(s', t, pc)
    requires nd.owner == s.nodes[n].owner && (nd.pinned.Some? ==> nd.pinned.value < |s.threads|)
    requires || (nd.tag == s.nodes[n].tag && !nd.tag.Changing?)
             || (s.nodes[n].tag.InQueue? && s.nodes[n].lock == Some(t) && pc.phase.Put?)
             || (s.nodes[n].tag.Changing? && s.nodes[n].tag.who == t && nd.tag.InQueue?)
    ensures Placed(s')
  {
    assert s'.threads[t].pc == pc && s'.nodes[n] == nd;
    KeepNodeStep(s, s', t, n);
  }

  // Leaving a coordination call: the node is unlocked, with owner o and tag g.
  lemma KeepLeaving(s: State, s': State, t: nat, n: nat, o: nat, g: Tag)
    requires Placed(s) && Local(s, t, n) && Locks(s.threads[t].pc, n)
    requires SameHolds(s, s', t)
    requires s'.threads[t].pc == Run && s'.threads[t].cur == s.threads[t].cur
    requires s'.nodes == s.nodes[n := s.nodes[n].(lock := None, owner := o, tag := g)]
    requires s'.members == s.members - Slot(s.nodes[n], n) + Slot(s'.nodes[n], n)
    requires o < |s.threads| && !g.Changing? && (o == s.nodes[n].owner || !g.Working?)
    requires g == s.nodes[n].tag || (s.nodes[n].tag.Changing? && s.nodes[n].tag.who == t && g.InQueue?)
    ensures Placed(s')
  {
    assert s'.nodes[n] == s.nodes[n].(lock := None, owner := o, tag := g);
    assert s.nodes[n].lock == Some(t);
    KeepNodeStep(s, s', t, n);
  }

  lemma BeginKeeps(s: State, t: nat, n: nat, op: Op)
    requires Placed(s) && Local(s, t, n) && s.threads[t].pc == Run && s.nodes[n].lock.None? && s.threads[t].cur != Some(n)
    requires op.SetOwner? ==> op.to < |s.threads|
    requires !Redundant(s.nodes[n], op)
    ensures Placed(Begin(s, t, n, op))
  {
    var nd, s' := Prepare(s.nodes[n], t, op), Begin(s, t, n, op);
    assert nd.tag == s.nodes[n].tag && nd.owner == s.nodes[n].owner && nd.lock == s.nodes[n].lock;
    assert nd.pinned.Some? ==> nd.pinned.value < |s.threads|;
    var pc, nd' := Coord(n, op, NormalMoving, Look(0)), nd.(lock := Some(t));
    assert s'.threads == s.threads[t := s.threads[t].(pc := pc)] && s'.nodes == s.nodes[n := nd'];
    assert s'.nodes[n] == nd' && s'.members == s.members;
    assert CoordFine(s', t, pc);
    KeepGoingOn(s, s', t, n, pc, nd');
  }

  lemma BeginRedundantKeeps(s: State, t: nat, n: nat, op: Op)
    requires Placed(s) && Local(s, t, n) && s.threads[t].pc == Run && s.nodes[n].lock.None? && s.threads[t].cur != Some(n)
    requires op.SetOwner? && op.to < |s.threads| && Redundant(s.nodes[n], op)
    ensures Placed(Begin(s, t, n, op))
  {
    KeepNodeStep(s, Begin(s, t, n, op), t, n);
  }

  lemma LookLeaves(s: State, t: nat, n: nat)
    requires Placed(s) && Local(s, t, n) && Locks(s.threads[t].pc, n) && s.threads[t].pc.phase.Look?
    requires !Unlisted(s.threads[t].pc.op, s.nodes[n].tag, s.nodes[n].owner == t)
    requires s.nodes[n].tag.InQueue? ==> Target(s.threads[t].pc.op, s.nodes[n].tag.kind).None?
    ensures Placed(Look1(s, t))
  {
    var nd, op := s.nodes[n], s.threads[t].pc.op;
    var o := if op.SetOwner? && (nd.tag.Stealing? || nd.tag.Idle?) then op.to else nd.owner;
    LookLeft(s, t, n, o);
    KeepLeaving(s, Look1(s, t), t, n, o, nd.tag);
  }

  lemma LookLeft(s: State, t: nat, n: nat, o: nat)
    requires t < |s.threads| && n < |s.nodes| && Locks(s.threads[t].pc, n) && s.threads[t].pc.phase.Look?
    requires !Unlisted(s.threads[t].pc.op, s.nodes[n].tag, s.nodes[n].owner == t)
    requires s.nodes[n].tag.InQueue? ==> Target(s.threads[t].pc.op, s.nodes[n].tag.kind).None?
    requires o == if s.threads[t].pc.op.SetOwner? && (s.nodes[n].tag.Stealing? || s.nodes[n].tag.Idle?)
                  then s.threads[t].pc.op.to else s.nodes[n].owner
    ensures Look1(s, t) == s.(nodes := s.nodes[n := s.nodes[n].(lock := None, owner := o)],
                            threads := s.threads[t := s.threads[t].(pc := Run)])
  {}

  lemma LookKeeps(s: State, t: nat, n: nat)
    requires Placed(s) && Local(s, t, n) && Locks(s.threads[t].pc, n) && s.threads[t].pc.phase.Look?
    ensures Placed(Look1(s, t))
  {
    var nd, op, s' := s.nodes[n], s.threads[t].pc.op, Look1(s, t);
    if Unlisted(op, nd.tag, nd.owner == t) {
      KeepThreadStep(s, s', t);
    } else if nd.tag.InQueue? && Target(op, nd.tag.kind).Some? {
      var pc := Coord(n, op, nd.tag.kind, Take(nd.tag.kind, s.threads[t].pc.phase.tries));
      assert s' == s.(threads := s.threads[t := s.threads[t].(pc := pc)]);
      KeepGoingOn(s, s', t, n, pc, nd);
    } else {
      LookLeaves(s, t, n);
    }
  }

  /** A removal from the queues of the calling thread when the node is in a queue of another one. */
  predicate ForeignTake(s: State, t: nat, a: Action) {
    && a.TakeOut? && t < |s.threads| && s.threads[t].pc.Coord? && s.threads[t].pc.phase.Take?
    && s.threads[t].pc.node < |s.nodes|
    && OwnQueues(s.threads[t].pc.op)
    && s.nodes[s.threads[t].pc.node].owner != t
    && s.nodes[s.threads[t].pc.node].tag == InQueue(s.threads[t].pc.phase.from)
  }

  lemma TakeRemoves(s: State, t: nat, n: nat)
    requires Placed(s) && Local(s, t, n) && s.threads[t].pc.Coord? && s.threads[t].pc.phase.Take? && s.threads[t].pc.node == n
    requires s.nodes[n].tag == InQueue(s.threads[t].pc.phase.from)
    requires OwnQueues(s.threads[t].pc.op) ==> s.nodes[n].owner == t
    ensures Placed(Take1(s, t))
  {
    var nd, op, k, s' := s.nodes[n], s.threads[t].pc.op, s.threads[t].pc.phase.from, Take1(s, t);
    var pc, nd' := Coord(n, op, k, Put), nd.(tag := Changing(t, ReasonOf(op)));
    assert s'.threads == s.threads[t := s.threads[t].(pc := pc)] && s'.nodes == s.nodes[n := nd'];
    KeepGoingOn(s, s', t, n, pc, nd');
  }

  lemma TakeFails(s: State, t: nat, n: nat)
    requires Placed(s) && Local(s, t, n) && s.threads[t].pc.Coord? && s.threads[t].pc.phase.Take? && s.threads[t].pc.node == n
    requires s.nodes[n].tag != InQueue(s.threads[t].pc.phase.from)
    ensures Placed(Take1(s, t))
  {
    var nd, op, k, s' := s.nodes[n], s.threads[t].pc.op, s.threads[t].pc.phase.from, Take1(s, t);
    if op.SetOwner? {
      var pc := Coord(n, op, k, Look(s.threads[t].pc.phase.tries + 1));
      assert s' == s.(threads := s.threads[t := s.threads[t].(pc := pc)]);
      KeepGoingOn(s, s', t, n, pc, nd);
    } else {
      assert s' == s.(threads := s.threads[t := s.threads[t].(pc := Run)], nodes := s.nodes[n := nd.(lock := None)]);
      KeepLeaving(s, s', t, n, nd.owner, nd.tag);
    }
  }

  lemma TakeKeeps(s: State, t: nat, n: nat)
    requires Placed(s) && Local(s, t, n) && s.threads[t].pc.Coord? && s.threads[t].pc.phase.Take? && s.threads[t].pc.node == n
    requires !ForeignTake(s, t, TakeOut)
    ensures Placed(Take1(s, t))
  {
    if s.nodes[n].tag == InQueue(s.threads[t].pc.phase.from) {
      TakeRemoves(s, t, n);
    } else {
      TakeFails(s, t, n);
    }
  }

  lemma PutOwnerKeeps(s: State, t: nat, n: nat)
    requires Placed(s) && Local(s, t, n) && Locks(s.threads[t].pc, n) && s.threads[t].pc.phase.Put? && s.threads[t].pc.op.SetOwner?
    ensures Placed(PutAway(s, t))
  {
    var nd, to, s' := s.nodes[n], s.threads[t].pc.op.to, PutAway(s, t);
    var dst := InQueue(Destination(nd));
    assert s'.nodes == s.nodes[n := nd.(lock := None, owner := to, tag := dst)];
    assert s'.threads == s.threads[t := s'.threads[t]];
    assert s'.threads[t].pc == Run && s'.threads[t].cur == s.threads[t].cur;
    KeepLeaving(s, s', t, n, to, dst);
  }

  lemma PutKeeps(s: State, t: nat, n: nat)
    requires Placed(s) && Local(s, t, n) && Locks(s.threads[t].pc, n) && s.threads[t].pc.phase.Put? && !s.threads[t].pc.op.SetOwner?
    ensures Placed(PutOver(s, t))
  {
    var nd, s' := s.nodes[n], PutOver(s, t);
    var Coord(_, op, k, _) := s.threads[t].pc;
    var dst := InQueue(Target(op, k).GetOr(k));
    assert nd.tag == Changing(t, ReasonOf(op));
    if nd.owner != t {
      var pc, nd' := Coord(n, op, k, Ring), nd.(tag := dst);
      assert s'.threads == s.threads[t := s.threads[t].(pc := pc)] && s'.nodes == s.nodes[n := nd'];
      KeepGoingOn(s, s', t, n, pc, nd');
    } else {
      assert s'.nodes == s.nodes[n := nd.(lock := None, owner := nd.owner, tag := dst)];
      assert s'.threads == s.threads[t := s.threads[t].(pc := Run)];
      KeepLeaving(s, s', t, n, nd.owner, dst);
    }
  }

  lemma RingKeeps(s: State, t: nat, n: nat)
    requires Placed(s) && Local(s, t, n) && s.threads[t].pc.Coord? && s.threads[t].pc.phase.Ring? && s.threads[t].pc.node == n
    ensures Placed(Activate(Unlock(s, t), t, s.nodes[n].owner))
  {
    var nd := s.nodes[n];
    var s' := Activate(Unlock(s, t), t, nd.owner);
    assert s'.nodes == s.nodes[n := nd.(lock := None, owner := nd.owner, tag := nd.tag)] && s'.members == s.members;
    assert s'.threads[t].pc == Run && s'.threads[t].cur == s.threads[t].cur;
    KeepLeaving(s, s', t, n, nd.owner, nd.tag);
  }

  lemma AdoptMine(s: State, s': State, t: nat, n: nat, nd: Node)
    requires Placed(s) && Local(s, t, n) && Loots(s.threads[t].pc, n) && s.nodes[n].lock.None?
    requires nd.lock.None? && nd.tag.InQueue? && nd.owner < |s.threads| && (nd.pinned.Some? ==> nd.pinned.value < |s.threads|)
    requires s'.nodes == s.nodes[n := nd] && s'.members == s.members + Slot(nd, n)
    requires |s'.threads| == |s.threads| && s'.threads == s.threads[t := s'.threads[t]] && s'.threads[t].cur == s.threads[t].cur
    requires s'.threads[t].pc == Adopt(s.threads[t].pc.victim, s.threads[t].pc.loot - {n})
    ensures Placed(s')
  {
    assert s'.nodes[n] == nd && s.nodes[n].tag == Stealing(t);
    KeepNodeStep(s, s', t, n);
  }

  lemma AdoptKeeps(s: State, t: nat, n: nat)
    requires Placed(s) && Local(s, t, n) && Loots(s.threads[t].pc, n) && s.nodes[n].lock.None?
    ensures Placed(AdoptOne(s, t, n))
  {
    var th, nd, s' := s.threads[t], s.nodes[n], AdoptOne(s, t, n);
    assert nd.tag == Stealing(t);
    var nd' := if nd.pinned.Some? && nd.owner != th.pc.victim then nd
               else nd.(owner := t, pinned := if nd.pinned.Some? then Some(t) else None);
    AdoptMine(s, s', t, n, nd'.(tag := InQueue(Destination(nd'))));
  }

  // Actions that touch one node: those that set fields of a node the thread has to itself, those that may
  // move it to a queue, and those of a coordination call in progress.
  predicate SetsNode(a: Action) {
    a.ClearFacts? || a.MarkFacts? || a.ScheduleNext? || a.RetargetCurrent? || a.Pop?
  }

  predicate MovesNode(a: Action) {
    a.Send? || a.ReleaseCurrent? || a.BeginOp? || a.StealAdopt?
  }

  predicate CallsNode(a: Action) {
    a.LookState? || a.TakeOut? || a.PutBack? || a.RingOwner?
  }

  function NodeOf(th: Thread, a: Action): nat {
    match a
    case Send(to) => to
    case ScheduleNext(n) => n
    case Pop(_, n) => n
    case BeginOp(n, _) => n
    case StealAdopt(n) => n
    case _ => if th.pc.Coord? then th.pc.node else th.cur.GetOr(0)
  }

  lemma TouchedIsLocal(s: State, t: nat, a: Action)
    requires Placed(s) && Enabled(s, t, a) && (SetsNode(a) || MovesNode(a) || CallsNode(a))
    ensures Local(s, t, NodeOf(s.threads[t], a))
  {
    assert ThreadFine(s, t, s.threads[t]);
    PlacedIsLocal(s, t, NodeOf(s.threads[t], a));
  }

  // Flags of the node a thread runs, or where that node has to go.
  lemma FieldKeeps(s: State, t: nat, n: nat, nd: Node)
    requires Placed(s) && Local(s, t, n) && s.threads[t].pc == Run && s.threads[t].cur == Some(n)
    requires exists facts: bool, pinned: Option<nat> :: nd == s.nodes[n].(unprocessed := facts, pinned := pinned)
    requires nd.pinned == s.nodes[n].pinned || (s.nodes[n].lock.None? && nd.pinned.GetOr(t) < |s.threads|)
    ensures Placed(SetNode(s, n, nd))
  {
    assert SetNode(s, n, nd).nodes[n] == nd;
    KeepNodeStep(s, SetNode(s, n, nd), t, n);
  }

  lemma ScheduledKeeps(s: State, t: nat, a: Action, n: nat)
    requires Placed(s) && Enabled(s, t, a) && a == ScheduleNext(n) && Local(s, t, n)
    ensures Placed(Apply(s, t, a))
  {
    KeepNodeStep(s, Apply(s, t, a), t, n);
  }

  lemma PoppedKeeps(s: State, t: nat, a: Action, n: nat)
    requires Placed(s) && Enabled(s, t, a) && a.Pop? && a.node == n && Local(s, t, n)
    ensures Placed(Apply(s, t, a))
  {
    KeepNodeStep(s, Apply(s, t, a), t, n);
  }

  lemma SettingKeeps(s: State, t: nat, a: Action, n: nat)
    requires Placed(s) && Enabled(s, t, a) && SetsNode(a) && n == NodeOf(s.threads[t], a) && Local(s, t, n)
    ensures Placed(Apply(s, t, a))
  {
    var nd := s.nodes[n];
    match a
    case ClearFacts => FieldKeeps(s, t, n, nd.(unprocessed := false, pinned := nd.pinned));
    case MarkFacts => FieldKeeps(s, t, n, nd.(unprocessed := true, pinned := nd.pinned));
    case RetargetCurrent(pinned) => FieldKeeps(s, t, n, nd.(unprocessed := nd.unprocessed, pinned := pinned));
    case ScheduleNext(_) => ScheduledKeeps(s, t, a, n);
    case Pop(_, _) => PoppedKeeps(s, t, a, n);
  }

  lemma MovingKeeps(s: State, t: nat, a: Action, n: nat)
    requires Placed(s) && Enabled(s, t, a) && MovesNode(a) && n == NodeOf(s.threads[t], a) && Local(s, t, n)
    ensures Placed(Apply(s, t, a))
  {
    match a
    case Send(_) => SendKeeps(s, t, n);
    case ReleaseCurrent(has) =>
      if s.nodes[n].pinned.Some? && s.nodes[n].pinned.value != s.nodes[n].owner {
        ReleaseMoves(s, t, n, has);
      } else {
        ReleaseStays(s, t, n, has);
      }
    case BeginOp(_, op) =>
      if !Redundant(s.nodes[n], op) {
        BeginKeeps(s, t, n, op);
      } else if op.SetOwner? {
        BeginRedundantKeeps(s, t, n, op);
      }
    case StealAdopt(_) => AdoptKeeps(s, t, n);
  }

  lemma CallingKeeps(s: State, t: nat, a: Action, n: nat)
    requires Placed(s) && Enabled(s, t, a) && CallsNode(a) && n == NodeOf(s.threads[t], a) && Local(s, t, n)
    requires !ForeignTake(s, t, a)
    ensures Placed(Apply(s, t, a))
  {
    match a
    case LookState => LookKeeps(s, t, n);
    case TakeOut => TakeKeeps(s, t, n);
    case PutBack =>
      if s.threads[t].pc.op.SetOwner? {
        PutOwnerKeeps(s, t, n);
      } else {
        PutKeeps(s, t, n);
      }
    case RingOwner => RingKeeps(s, t, n);
  }

  lemma LootWasQueued(s: State, v: nat, k: Kind, loot: set<nat>)
    requires QueuesMatchTags(s)
    requires forall n | n in loot :: n < |s.nodes| && Entry(v, k, n) in s.members
    ensures forall n | n in loot :: s.nodes[n].owner == v && s.nodes[n].tag == InQueue(k)
  {}

  lemma RobKeepsQueues(s: State, t: nat, v: nat, k: Kind, loot: set<nat>)
    requires QueuesMatchTags(s) && t < |s.threads|
    requires forall n | n in loot :: n < |s.nodes| && Entry(v, k, n) in s.members
    ensures QueuesMatchTags(Rob(s, t, v, k, loot))
  {}

  // The loot is held by thread t now; everything else is where it was.
  ghost predicate Robbed(s: State, s': State, t: nat, k: Kind, loot: set<nat>) {
    && t < |s.threads| == |s'.threads| && s.threads[t].pc.Scan? && |s'.nodes| == |s.nodes|
    && s'.threads == s.threads[t := s'.threads[t]] && s'.threads[t].cur == s.threads[t].cur
    && s'.threads[t].pc.Adopt? && s'.threads[t].pc.loot == loot
    && (forall n :: 0 <= n < |s.nodes| && n !in loot ==> s'.nodes[n] == s.nodes[n])
    && (forall n | n in loot :: n < |s.nodes| && s.nodes[n].tag == InQueue(k) && s'.nodes[n] == s.nodes[n].(tag := Stealing(t)))
  }

  lemma RobIsRobbed(s: State, t: nat, v: nat, k: Kind, loot: set<nat>)
    requires QueuesMatchTags(s) && t < |s.threads| && s.threads[t].pc.Scan?
    requires forall n | n in loot :: n < |s.nodes| && Entry(v, k, n) in s.members
    ensures Robbed(s, Rob(s, t, v, k, loot), t, k, loot)
  {
    LootWasQueued(s, v, k, loot);
  }

  lemma RobbedNodeHeld(s: State, s': State, t: nat, k: Kind, loot: set<nat>, n: nat)
    requires Robbed(s, s', t, k, loot) && n < |s.nodes| && NodeHeld(s, n)
    ensures NodeHeld(s', n)
  {}

  lemma RobbedCoordFine(s: State, s': State, t: nat, k: Kind, loot: set<nat>, x: nat, pc: PC)
    requires Robbed(s, s', t, k, loot) && pc.Coord? && CoordFine(s, x, pc)
    ensures CoordFine(s', x, pc)
  {
    assert s'.nodes[pc.node] == s.nodes[pc.node] || s'.nodes[pc.node] == s.nodes[pc.node].(tag := Stealing(t));
  }

  lemma RobbedThreadFine(s: State, s': State, t: nat, k: Kind, loot: set<nat>, x: nat)
    requires Robbed(s, s', t, k, loot) && x < |s.threads| && ThreadFine(s, x, s.threads[x])
    ensures ThreadFine(s', x, s'.threads[x])
  {
    if s.threads[x].pc.Coord? {
      RobbedCoordFine(s, s', t, k, loot, x, s.threads[x].pc);
    }
  }

  // The loot leaves the victim's queue; nothing else changes place.
  lemma RobKeeps(s: State, t: nat, v: nat, k: Kind, loot: set<nat>)
    requires Placed(s) && t < |s.threads| && s.threads[t].pc.Scan?
    requires forall n | n in loot :: n < |s.nodes| && Entry(v, k, n) in s.members
    ensures Placed(Rob(s, t, v, k, loot))
  {
    var s' := Rob(s, t, v, k, loot);
    RobKeepsQueues(s, t, v, k, loot);
    RobIsRobbed(s, t, v, k, loot);
    forall n | 0 <= n < |s.nodes| ensures NodeHeld(s', n) {
      RobbedNodeHeld(s, s', t, k, loot, n);
    }
    forall x | 0 <= x < |s.threads| ensures ThreadFine(s', x, s'.threads[x]) {
      RobbedThreadFine(s, s', t, k, loot, x);
    }
  }

  lemma PlacedIfNotForeign(s: State, t: nat, a: Action)
    requires Placed(s) && Enabled(s, t, a) && !ForeignTake(s, t, a)
    ensures Placed(Apply(s, t, a))
  {
    if MovesOn(a) || SwapsOwnState(a) || a.WakeOne? || a.Pay? {
      ThreadOnlyKeeps(s, t, a);
    } else if a.StealTake? {
      RobKeeps(s, t, a.victim, a.kind, a.loot);
    } else {
      TouchedIsLocal(s, t, a);
      if SetsNode(a) {
        SettingKeeps(s, t, a, NodeOf(s.threads[t], a));
      } else if MovesNode(a) {
        MovingKeeps(s, t, a, NodeOf(s.threads[t], a));
      } else {
        CallingKeeps(s, t, a, NodeOf(s.threads[t], a));
      }
    }
  }

  // The entry in the owner's queue stays although the tag no longer names that queue.
  lemma ForeignTakeBreaks(s: State, t: nat, a: Action)
    requires Placed(s) && Enabled(s, t, a) && ForeignTake(s, t, a)
    ensures !Placed(Apply(s, t, a))
  {
    var n, k := s.threads[t].pc.node, s.threads[t].pc.phase.from;
    var s' := Apply(s, t, a);
    assert s.members[Entry(s.nodes[n].owner, k, n)] == 1;
    assert s'.members[Entry(s.nodes[n].owner, k, n)] == 1 && s'.nodes[n].tag.Changing?;
  }

  /** A step of any thread, stealing and all coordination calls included, keeps placement if and only
      if it is not a removal of a node from the wrong thread's queue. */
  lemma StepKeepsPlaced(s: State, t: nat, a: Action)
    requires Placed(s) && Enabled(s, t, a)
    ensures Placed(Apply(s, t, a)) <==> !ForeignTake(s, t, a)
  {
    if ForeignTake(s, t, a) {
      ForeignTakeBreaks(s, t, a);
    } else {
      PlacedIfNotForeign(s, t, a);
    }
  }

  /** In a placed state a node is in at most one queue, and its tag says exactly where it is. */
  lemma OneQueuePerNode(s: State, n: nat)
    requires Placed(s) && n < |s.nodes|
    ensures forall e, f | e in s.members && f in s.members && e.node == n && f.node == n :: e == f
    ensures forall e | e in s.members && e.node == n ::
              s.members[e] == 1 && e.thread == s.nodes[n].owner && s.nodes[n].tag == InQueue(e.kind)
    ensures s.nodes[n].tag.InQueue? ==> Entry(s.nodes[n].owner, s.nodes[n].tag.kind, n) in s.members
    ensures s.nodes[n].tag.Working? ==>
              s.nodes[n].owner == s.nodes[n].tag.who < |s.threads| && s.threads[s.nodes[n].owner].cur == Some(n)
  {
    assert NodeHeld(s, n);
    forall e | e in s.members && e.node == n
      ensures s.members[e] == 1 && e.thread == s.nodes[n].owner && s.nodes[n].tag == InQueue(e.kind)
    {
      assert s.members[Entry(e.thread, e.kind, e.node)] > 0;
    }
    if s.nodes[n].tag.InQueue? {
      assert s.members[Entry(s.nodes[n].owner, s.nodes[n].tag.kind, n)] == 1;
    }
  }

  /** The retry loop of set_node_owner: a second look finds the node stolen, or being run by its
      owner, and ends the call, so a failed removal is the last one.  Either the owner is set, or the
      owner that runs the node finds where it has to go. */
  lemma OwnerChangeRetriesOnce(s: State, t: nat)
    requires Placed(s) && t < |s.threads| && s.threads[t].pc.Coord? && !s.aborted && s.threads[t].debt == NoDebt
    requires s.threads[t].pc.op.SetOwner? && s.threads[t].pc.phase.Look? && s.threads[t].pc.phase.tries > 0
    ensures s.threads[t].pc.phase.tries == 1 && Enabled(s, t, LookState)
    ensures var s', nd, to := Apply(s, t, LookState), s.nodes[s.threads[t].pc.node], s.threads[t].pc.op.to;
            && s'.threads[t].pc == Run && !s'.aborted
            && s'.nodes[s.threads[t].pc.node] ==
               nd.(lock := None, pinned := Some(to), owner := if nd.tag.Working? then nd.owner else to)
  {
    assert ThreadFine(s, t, s.threads[t]);
  }

  lemma OnlyLookAborts(s: State, t: nat, a: Action)
    requires Enabled(s, t, a) && a != LookState
    ensures !Apply(s, t, a).aborted
  {
    if MovesOn(a) || SwapsOwnState(a) {
      ThreadOnlyFrame(s, t, a);
    }
  }

  lemma LookAborts(s: State, t: nat)
    requires Placed(s) && Enabled(s, t, LookState)
    ensures Look1(s, t).aborted <==>
            && s.threads[t].pc.op.RemovePriority?
            && s.nodes[s.threads[t].pc.node].tag == Idle && s.nodes[s.threads[t].pc.node].owner != t
  {
    assert ThreadFine(s, t, s.threads[t]);
    PlacedIsLocal(s, t, s.threads[t].pc.node);
  }

  /** The abort branches of the coordination switches are unreachable but for one:
      remove_node_priority on an idle node of another thread. */
  lemma AbortsOnlyOnForeignIdle(s: State, t: nat, a: Action)
    requires Placed(s) && Enabled(s, t, a)
    ensures Apply(s, t, a).aborted <==>
            && a == LookState && s.threads[t].pc.op.RemovePriority?
            && s.nodes[s.threads[t].pc.node].tag == Idle && s.nodes[s.threads[t].pc.node].owner != t
  {
    if a == LookState {
      LookAborts(s, t);
    } else {
      OnlyLookAborts(s, t, a);
    }
  }
}
