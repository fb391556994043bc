/**
  Coordination calls on nodes of other threads.

  set_node_static, set_node_moving and set_node_owner take any node, but remove it from the queues of
  the calling thread.  The test in `remove` compares tags, and tags do not name threads, so a call on a
  node that waits in the queue of another thread corrupts both queues.
 */
module SchedulerForeign {
  import opened SchedulerModel
  import opened SchedulerPlacement
  import opened SchedulerTermination
  import opened SchedulerRuns

  // A node in a queue that the call wants to move it out of.
  predicate ToBeMoved(nd: Node, op: Op) {
    nd.tag.InQueue? && Target(op, nd.tag.kind).Some?
  }

  // The call is made on a node of another thread that waits in a queue it would have to leave.
  predicate ForeignCall(s: State, t: nat, a: Action) {
    && a.BeginOp? && a.node < |s.nodes| && OwnQueues(a.op)
    && s.nodes[a.node].owner != t && !Redundant(s.nodes[a.node], a.op) && ToBeMoved(s.nodes[a.node], a.op)
  }

  // The first steps of a call that nobody interrupts: the lock, the switch, and the removal if one follows.
  function Switched(s: State, t: nat, a: Action): State
    requires Enabled(s, t, a) && a.BeginOp?
  {
    var s1 := Apply(s, t, a);
    if Enabled(s1, t, LookState) then Apply(s1, t, LookState) else s1
  }

  function Removed(s: State, t: nat, a: Action): State
    requires Enabled(s, t, a) && a.BeginOp?
  {
    var s2 := Switched(s, t, a);
    if Enabled(s2, t, TakeOut) then Apply(s2, t, TakeOut) else s2
  }

  lemma BegunCall(s: State, t: nat, a: Action)
    requires Placed(s) && Enabled(s, t, a) && a.BeginOp? && OwnQueues(a.op)
    ensures var s1 := Apply(s, t, a);
            && Placed(s1)
            && (Redundant(s.nodes[a.node], a.op) ==> s1.threads == s.threads && s1.threads[t].pc == Run)
            && (!Redundant(s.nodes[a.node], a.op) ==>
                 && Enabled(s1, t, LookState) && s1.threads[t].pc == Coord(a.node, a.op, NormalMoving, Look(0))
                 && s1.nodes[a.node].tag == s.nodes[a.node].tag && s1.nodes[a.node].owner == s.nodes[a.node].owner)
  {
    StepKeepsPlaced(s, t, a);
  }

  lemma LookedAt(s: State, t: nat)
    requires Enabled(s, t, LookState) && OwnQueues(s.threads[t].pc.op) && !Look1(s, t).aborted
    ensures var s1, n, op := Look1(s, t), s.threads[t].pc.node, s.threads[t].pc.op;
            && (ForeignTake(s1, t, TakeOut) <==> s.nodes[n].owner != t && ToBeMoved(s.nodes[n], op))
            && (Enabled(s1, t, TakeOut) <==> ToBeMoved(s.nodes[n], op))
  {}

  lemma SwitchedCall(s: State, t: nat)
    requires Placed(s) && Enabled(s, t, LookState) && OwnQueues(s.threads[t].pc.op)
    ensures var s1, n, op := Apply(s, t, LookState), s.threads[t].pc.node, s.threads[t].pc.op;
            && Placed(s1)
            && (ForeignTake(s1, t, TakeOut) <==> s.nodes[n].owner != t && ToBeMoved(s.nodes[n], op))
            && (Enabled(s1, t, TakeOut) <==> ToBeMoved(s.nodes[n], op))
  {
    StepKeepsPlaced(s, t, LookState);
    LookAborts(s, t);
    LookedAt(s, t);
  }

  lemma RemovalKeepsPlaced(s: State, t: nat)
    requires Placed(s) && t < |s.threads|
    ensures Placed(if Enabled(s, t, TakeOut) then Apply(s, t, TakeOut) else s) <==> !(Enabled(s, t, TakeOut) && ForeignTake(s, t, TakeOut))
  {
    if Enabled(s, t, TakeOut) {
      StepKeepsPlaced(s, t, TakeOut);
    }
  }

  /** A static, moving or owner call keeps placement exactly when the node belongs to the calling thread,
      or its tag names no queue that it is to be moved out of (or the call has nothing to do). */
  lemma CallKeepsPlaced(s: State, t: nat, a: Action)
    requires Placed(s) && Enabled(s, t, a) && a.BeginOp? && OwnQueues(a.op)
    ensures Placed(Removed(s, t, a)) <==> !ForeignCall(s, t, a)
  {
    BegunCall(s, t, a);
    if Redundant(s.nodes[a.node], a.op) {
      assert Switched(s, t, a) == Apply(s, t, a);
    } else {
      SwitchedCall(Apply(s, t, a), t);
      assert Switched(s, t, a) == Apply(Apply(s, t, a), t, LookState);
    }
    RemovalKeepsPlaced(Switched(s, t, a), t);
  }

  // ------------------------------------------------------------------ whole runs

  // A call of this kind on a node of another thread only ever looks at it.
  predicate OnlyLooks(s: State, t: nat, pc: PC) {
    pc.Coord? && OwnQueues(pc.op) && pc.node < |s.nodes| && s.nodes[pc.node].owner != t ==>
      pc.phase.Look? && !ToBeMoved(s.nodes[pc.node], pc.op)
  }

  ghost predicate Modest(s: State) {
    forall x :: 0 <= x < |s.threads| ==> OnlyLooks(s, x, s.threads[x].pc)
  }

  // What other threads do to a locked node: it keeps its owner and enters no queue.
  predicate KeptForLocker(nd: Node, nd': Node) {
    nd'.owner == nd.owner && (nd'.tag == nd.tag || !nd'.tag.InQueue?)
  }

  lemma QuietKeepsLocked(s: State, s': State, t: nat, m: nat, n: nat)
    requires QuietAt(s, s', t, m) && n < |s.nodes| && s.nodes[n].lock.Some? && s.nodes[n].lock != Some(t)
    requires s.nodes[m].lock.None? || s.nodes[m].lock == Some(t)
    ensures s'.nodes[n] == s.nodes[n]
  {}

  lemma WorkKeepsLocked(s: State, t: nat, a: Action, n: nat)
    requires Placed(s) && Enabled(s, t, a) && n < |s.nodes| && s.nodes[n].lock.Some? && s.nodes[n].lock != Some(t)
    requires a.Send? || a.ReleaseCurrent? || a.BeginOp? || a.LookState? || a.TakeOut? || a.PutBack? || a.StealAdopt?
    ensures |Apply(s, t, a).nodes| == |s.nodes| && Apply(s, t, a).nodes[n] == s.nodes[n]
  {
    assert ThreadFine(s, t, s.threads[t]);
    var m := if a.Send? then a.to else if a.ReleaseCurrent? then s.threads[t].cur.value
             else if a.BeginOp? || a.StealAdopt? then a.node else s.threads[t].pc.node;
    QuietKeepsLocked(s, Apply(s, t, a), t, m, n);
  }

  lemma OwnNodeKeepsLocked(s: State, t: nat, a: Action, n: nat)
    requires Enabled(s, t, a) && n < |s.nodes| && s.nodes[n].lock.Some? && s.nodes[n].lock != Some(t)
    requires a.ClearFacts? || a.MarkFacts? || a.ScheduleNext? || a.RetargetCurrent? || a.Pop?
    ensures |Apply(s, t, a).nodes| == |s.nodes| && KeptForLocker(s.nodes[n], Apply(s, t, a).nodes[n])
  {}

  lemma SignalKeepsLocked(s: State, t: nat, a: Action, n: nat)
    requires Enabled(s, t, a) && n < |s.nodes| && (a.RingOwner? || a.WakeOne? || a.Pay?)
    ensures |Apply(s, t, a).nodes| == |s.nodes| && KeptForLocker(s.nodes[n], Apply(s, t, a).nodes[n])
  {}

  lemma RobKeepsLocked(s: State, t: nat, v: nat, k: Kind, loot: set<nat>, n: nat)
    requires t < |s.threads| && n < |s.nodes| && forall m | m in loot :: m < |s.nodes|
    ensures KeptForLocker(s.nodes[n], Rob(s, t, v, k, loot).nodes[n])
  {}

  lemma StepKeepsLocked(s: State, t: nat, a: Action, n: nat)
    requires Placed(s) && Enabled(s, t, a) && n < |s.nodes| && s.nodes[n].lock.Some? && s.nodes[n].lock != Some(t)
    ensures |Apply(s, t, a).nodes| == |s.nodes| && KeptForLocker(s.nodes[n], Apply(s, t, a).nodes[n])
  {
    if MovesOn(a) || SwapsOwnState(a) {
      ThreadOnlyFrame(s, t, a);
    } else if a.StealTake? {
      RobKeepsLocked(s, t, a.victim, a.kind, a.loot, n);
    } else if a.Send? || a.ReleaseCurrent? || a.BeginOp? || a.LookState? || a.TakeOut? || a.PutBack? || a.StealAdopt? {
      WorkKeepsLocked(s, t, a, n);
    } else if a.RingOwner? || a.WakeOne? || a.Pay? {
      SignalKeepsLocked(s, t, a, n);
    } else {
      OwnNodeKeepsLocked(s, t, a, n);
    }
  }

  lemma BeginIsModest(s: State, t: nat, n: nat, op: Op)
    requires t < |s.threads| && n < |s.nodes| && s.threads[t].pc == Run && !ForeignCall(s, t, BeginOp(n, op))
    ensures OnlyLooks(Begin(s, t, n, op), t, Begin(s, t, n, op).threads[t].pc)
  {}

  lemma LookIsModest(s: State, t: nat)
    requires t < |s.threads| && s.threads[t].pc.Coord? && s.threads[t].pc.phase.Look? && s.threads[t].pc.node < |s.nodes|
    requires OnlyLooks(s, t, s.threads[t].pc)
    ensures OnlyLooks(Look1(s, t), t, Look1(s, t).threads[t].pc)
  {}

  lemma TakeIsModest(s: State, t: nat)
    requires t < |s.threads| && s.threads[t].pc.Coord? && s.threads[t].pc.phase.Take? && s.threads[t].pc.node < |s.nodes|
    requires OnlyLooks(s, t, s.threads[t].pc)
    ensures OnlyLooks(Take1(s, t), t, Take1(s, t).threads[t].pc)
  {}

  lemma PutIsModest(s: State, t: nat)
    requires t < |s.threads| && s.threads[t].pc.Coord? && s.threads[t].pc.phase.Put? && s.threads[t].pc.node < |s.nodes|
    ensures OnlyLooks(Put1(s, t), t, Put1(s, t).threads[t].pc)
  {}

  lemma SignalIsModest(s: State, t: nat, a: Action)
    requires Enabled(s, t, a) && OnlyLooks(s, t, s.threads[t].pc) && (a.RingOwner? || a.WakeOne? || a.Pay?)
    ensures OnlyLooks(Apply(s, t, a), t, Apply(s, t, a).threads[t].pc)
  {}

  lemma WorkIsModest(s: State, t: nat, a: Action)
    requires Enabled(s, t, a)
    requires a.ClearFacts? || a.MarkFacts? || a.Send? || a.ScheduleNext? || a.RetargetCurrent? || a.ReleaseCurrent? || a.Pop?
    ensures !Apply(s, t, a).threads[t].pc.Coord?
  {}

  lemma OtherIsModest(s: State, t: nat, a: Action)
    requires Enabled(s, t, a) && OnlyLooks(s, t, s.threads[t].pc)
    requires !a.BeginOp? && !a.LookState? && !a.TakeOut? && !a.PutBack?
    ensures OnlyLooks(Apply(s, t, a), t, Apply(s, t, a).threads[t].pc)
  {
    if MovesOn(a) || SwapsOwnState(a) {
      ThreadOnlyFrame(s, t, a);
    } else if a.RingOwner? || a.WakeOne? || a.Pay? {
      SignalIsModest(s, t, a);
    } else if !a.StealTake? && !a.StealAdopt? {
      WorkIsModest(s, t, a);
    }
  }

  lemma ActorIsModest(s: State, t: nat, a: Action)
    requires Enabled(s, t, a) && OnlyLooks(s, t, s.threads[t].pc) && !ForeignCall(s, t, a)
    ensures OnlyLooks(Apply(s, t, a), t, Apply(s, t, a).threads[t].pc)
  {
    if a.BeginOp? {
      BeginIsModest(s, t, a.node, a.op);
    } else if a.LookState? {
      LookIsModest(s, t);
    } else if a.TakeOut? {
      TakeIsModest(s, t);
    } else if a.PutBack? {
      PutIsModest(s, t);
    } else {
      OtherIsModest(s, t, a);
    }
  }

  lemma LockerIsModest(s: State, t: nat, a: Action, x: nat)
    requires Placed(s) && Enabled(s, t, a) && x < |s.threads| && x != t && OnlyLooks(s, x, s.threads[x].pc)
    ensures OnlyLooks(Apply(s, t, a), x, s.threads[x].pc)
  {
    assert ThreadFine(s, x, s.threads[x]);
    if s.threads[x].pc.Coord? {
      StepKeepsLocked(s, t, a, s.threads[x].pc.node);
    }
  }

  lemma LooksTakeNothing(s: State, t: nat, a: Action)
    requires t < |s.threads| && OnlyLooks(s, t, s.threads[t].pc)
    ensures !ForeignTake(s, t, a)
  {}

  lemma StepKeepsModest(s: State, t: nat, a: Action)
    requires Placed(s) && Modest(s) && Enabled(s, t, a) && !ForeignCall(s, t, a)
    ensures Modest(Apply(s, t, a)) && !ForeignTake(s, t, a)
  {
    var s' := Apply(s, t, a);
    assert OnlyLooks(s, t, s.threads[t].pc);
    LooksTakeNothing(s, t, a);
    forall x | 0 <= x < |s'.threads| ensures OnlyLooks(s', x, s'.threads[x].pc) {
      if x == t {
        ActorIsModest(s, t, a);
      } else {
        OthersUntouched(s, t, a, x);
        LockerIsModest(s, t, a, x);
      }
    }
  }

  ghost predicate NoForeignCalls(states: seq<State>, steps: seq<Step>)
    requires |states| == |steps| + 1
  {
    forall i :: 0 <= i < |steps| ==> !ForeignCall(states[i], steps[i].thread, steps[i].action)
  }

  lemma ModestStep(states: seq<State>, steps: seq<Step>, k: nat)
    requires IsRun(states, steps) && NoForeignCalls(states, steps) && k < |steps| && Placed(states[k]) && Modest(states[k])
    ensures Placed(states[k + 1]) && Modest(states[k + 1]) && !ForeignTake(states[k], steps[k].thread, steps[k].action)
  {
    assert Enabled(states[k], steps[k].thread, steps[k].action);
    assert !ForeignCall(states[k], steps[k].thread, steps[k].action);
    StepKeepsModest(states[k], steps[k].thread, steps[k].action);
    PlacedStep(states, steps, k);
  }

  lemma {:induction false} ModestBefore(states: seq<State>, steps: seq<Step>, i: nat)
    requires IsRun(states, steps) && NoForeignCalls(states, steps) && i <= |steps|
    ensures Placed(states[i]) && Modest(states[i])
  {
    if i == 0 {
      InitIsLive(states[0]);
    } else {
      ModestBefore(states, steps, i - 1);
      ModestStep(states, steps, i - 1);
    }
  }

  /** What the caller has to see to: if static, moving and owner calls are never made on a queued node of
      another thread that they would have to move, no step of the run takes a node out of the wrong
      queue, whatever the other threads do between the steps of a call. */
  lemma NoForeignTakes(states: seq<State>, steps: seq<Step>)
    requires IsRun(states, steps) && NoForeignCalls(states, steps)
    ensures OwnTakes(states, steps)
  {
    forall i | 0 <= i < |steps| ensures !ForeignTake(states[i], steps[i].thread, steps[i].action) {
      ModestBefore(states, steps, i);
      ModestStep(states, steps, i);
    }
  }
}
