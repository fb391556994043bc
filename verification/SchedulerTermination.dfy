/**
  Termination safety: when the barrier says that all threads have finished, there is no work left
  anywhere and there never will be.
 */
module SchedulerTermination {
  import opened SchedulerModel
  import opened SchedulerPlacement

  // ------------------------------------------------------------------ the counter law

  // A thread counts while it is active; swaps whose counter update is still owed are corrected.
  function Weight(th: Thread): int {
    (if th.tstate != Inactive then 1 else 0)
    - (if th.debt == OwesIncrement then 1 else 0)
    + (if th.debt == OwesDecrement then 1 else 0)
  }

  function Total(ths: seq<Thread>): int {
    if ths == [] then 0 else Total(ths[..|ths| - 1]) + Weight(ths[|ths| - 1])
  }

  lemma {:induction false} TotalUpdate(ths: seq<Thread>, i: nat, th: Thread)
    requires i < |ths|
    ensures Total(ths[i := th]) == Total(ths) - Weight(ths[i]) + Weight(th)
  {
    var last := |ths| - 1;
    if i == last {
      assert ths[i := th][..last] == ths[..last];
    } else {
      TotalUpdate(ths[..last], i, th);
      assert ths[i := th][..last] == ths[..last][i := th];
    }
  }

  lemma {:induction false} TotalZero(ths: seq<Thread>)
    requires forall i :: 0 <= i < |ths| ==> Weight(ths[i]) >= 0
    ensures Total(ths) >= 0
    ensures Total(ths) == 0 <==> forall i :: 0 <= i < |ths| ==> Weight(ths[i]) == 0
    ensures forall i :: 0 <= i < |ths| ==> Weight(ths[i]) <= Total(ths)
  {
    if ths != [] {
      var last := |ths| - 1;
      TotalZero(ths[..last]);
      assert forall i :: 0 <= i < last ==> ths[..last][i] == ths[i];
    }
  }

  // Program points a thread reaches only while it is active.
  predicate Awake(pc: PC) {
    pc == Run || pc == Next || pc.Wake? || pc == Arrive || pc.Coord? || pc.Adopt? || (pc.Scan? && pc.activated)
  }

  ghost predicate ModeFine(th: Thread) {
    && (Awake(th.pc) ==> th.tstate != Inactive)
    && (th.debt == OwesIncrement ==> th.tstate != Inactive)
  }

  ghost predicate CounterLaw(s: State) {
    && s.counter == Total(s.threads)
    && forall t :: 0 <= t < |s.threads| ==> ModeFine(s.threads[t])
  }

  lemma ActivateKeepsLaw(s: State, t: nat, x: nat)
    requires CounterLaw(s) && t < |s.threads| && x < |s.threads|
    requires s.threads[t].debt == NoDebt && s.threads[t].tstate != Inactive
    ensures CounterLaw(Activate(s, t, x))
  {
    var ths := s.threads[x := s.threads[x].(tstate := ActiveNewWork)];
    TotalUpdate(s.threads, x, ths[x]);
    TotalUpdate(ths, t, ths[t].(debt := OwesIncrement));
  }

  lemma ThreadStepKeepsLaw(s: State, s': State, t: nat, th: Thread)
    requires CounterLaw(s) && t < |s.threads| && s'.threads == s.threads[t := th]
    requires ModeFine(th) && s'.counter - s.counter == Weight(th) - Weight(s.threads[t])
    ensures CounterLaw(s')
  {
    TotalUpdate(s.threads, t, th);
  }

  // Activate splits off the update of the activating thread.
  lemma WakeOneKeepsLaw(s: State, t: nat, a: Action)
    requires CounterLaw(s) && Enabled(s, t, a) && (a.WakeOne? || a.RingOwner?)
    ensures CounterLaw(Apply(s, t, a))
  {
    var th := s.threads[t];
    if a.WakeOne? {
      var s1 := SetThread(s, t, th.(pc := Wake(th.pc.todo - {a.target})));
      ThreadStepKeepsLaw(s, s1, t, s1.threads[t]);
      ActivateKeepsLaw(s1, t, a.target);
    } else {
      var s1 := Unlock(s, t);
      ThreadStepKeepsLaw(s, s1, t, s1.threads[t]);
      ActivateKeepsLaw(s1, t, s.nodes[th.pc.node].owner);
    }
  }

  // Actions that swap a thread state or pay for a swap; all others leave state and debt alone.
  predicate IsSwap(a: Action) {
    a.Pay? || a.WakeOne? || a.RingOwner? || SwapsOwnState(a)
  }

  lemma OtherActionsAreQuiet(s: State, t: nat, a: Action)
    requires Enabled(s, t, a) && !IsSwap(a)
    ensures Quiet(s, Apply(s, t, a), t)
  {
    if MovesOn(a) {
      ThreadOnlyFrame(s, t, a);
    }
  }

  lemma OtherActionsStayAwake(s: State, t: nat, a: Action)
    requires Enabled(s, t, a) && !IsSwap(a)
    ensures Awake(Apply(s, t, a).threads[t].pc) ==> Awake(s.threads[t].pc)
  {
    if MovesOn(a) {
      ThreadOnlyFrame(s, t, a);
    }
  }

  lemma SwappedKeepsMode(s: State, t: nat, th: Thread, a: Action)
    requires MayMove(s, t, th, a) && SwapsOwnState(a) && ModeFine(th) && th.debt == NoDebt
    ensures var th' := Moved(s, t, th, a); ModeFine(th') && Weight(th') == Weight(th)
  {}

  lemma PayKeepsLaw(s: State, t: nat)
    requires CounterLaw(s) && t < |s.threads| && s.threads[t].debt != NoDebt
    ensures CounterLaw(PayDebt(s, t))
  {
    assert ModeFine(s.threads[t]);
    ThreadStepKeepsLaw(s, PayDebt(s, t), t, PayDebt(s, t).threads[t]);
  }

  /** Counter plus owed increments minus owed decrements is the number of active threads. */
  lemma StepKeepsLaw(s: State, t: nat, a: Action)
    requires CounterLaw(s) && Enabled(s, t, a)
    ensures CounterLaw(Apply(s, t, a))
  {
    if a.WakeOne? || a.RingOwner? {
      WakeOneKeepsLaw(s, t, a);
    } else if a.Pay? {
      PayKeepsLaw(s, t);
    } else {
      if IsSwap(a) {
        ThreadOnlyFrame(s, t, a);
        SwappedKeepsMode(s, t, s.threads[t], a);
      } else {
        OtherActionsAreQuiet(s, t, a);
        OtherActionsStayAwake(s, t, a);
      }
      ThreadStepKeepsLaw(s, Apply(s, t, a), t, Apply(s, t, a).threads[t]);
    }
  }

  // ------------------------------------------------------------------ coverage

  // Threads whose wake-up is still pending in the given thread.
  function Pending(th: Thread): set<nat> {
    if th.pc.Wake? then th.pc.todo else th.comm
  }

  // Thread u will still activate thread x before it sleeps.
  predicate WillWake(s: State, u: nat, x: nat) {
    && u < |s.threads|
    && var th := s.threads[u];
    || x in Pending(th)
    || (th.pc.Coord? && th.pc.phase.Ring? && th.pc.node < |s.nodes| && s.nodes[th.pc.node].owner == x)
  }

  // From here an active thread gets to its queues before it can sleep.
  predicate Returns(pc: PC) {
    !pc.Wake? && pc != Arrive && pc != Commit && (pc.Scan? ==> pc.activated && pc.hasWork)
  }

  // The thread will look at its queues again before it sleeps.
  predicate LooksAgain(th: Thread) {
    th.tstate == ActiveNewWork || (th.tstate == Active && Returns(th.pc))
  }

  ghost predicate CoveredThread(s: State, x: nat) {
    x < |s.threads| && (LooksAgain(s.threads[x]) || exists u :: WillWake(s, u, x))
  }

  // A thread with a non-empty queue is going to see it, or is going to be told.
  ghost predicate CoveredAt(s: State, x: nat) {
    HasWork(s, x) ==> CoveredThread(s, x)
  }

  ghost predicate Covered(s: State) {
    forall x: nat :: CoveredAt(s, x)
  }

  // Wake-ups are forgotten only when they were made, and the threads that look for work owe none.
  ghost predicate QuietPC(th: Thread) {
    && (th.pc == Arrive || th.pc == Check || th.pc == Commit || th.pc == Poll || th.pc == Resume || th.pc == Exited || th.pc.Scan?
        ==> th.comm == {})
    && (th.pc.Wake? ==> th.pc.todo <= th.comm)
    && (th.pc == Poll || th.pc == Exited ==> th.tstate != Active)
    && (th.pc.Scan? && th.pc.hasWork ==> th.pc.activated)
  }

  ghost predicate Modes(s: State) {
    forall t :: 0 <= t < |s.threads| ==> QuietPC(s.threads[t])
  }

  ghost predicate FactsTagged(s: State) {
    forall n :: 0 <= n < |s.nodes| ==> s.nodes[n].unprocessed ==> s.nodes[n].tag != Idle
  }

  // What holds whether threads are covered or not, and with it the whole invariant.
  ghost predicate Sound(s: State) {
    Placed(s) && CounterLaw(s) && Modes(s) && FactsTagged(s)
  }

  ghost predicate Live(s: State) {
    Sound(s) && Covered(s)
  }

  // No work, no pending wake-up and no unprocessed fact anywhere, and every thread asleep.
  ghost predicate Quiescent(s: State) {
    && s.members == multiset{}
    && (forall t :: 0 <= t < |s.threads| ==>
          s.threads[t].tstate == Inactive && s.threads[t].debt == NoDebt && s.threads[t].comm == {}
          && s.threads[t].cur.None?)
    && (forall n :: 0 <= n < |s.nodes| ==> s.nodes[n].tag == Idle && !s.nodes[n].unprocessed)
  }

  ghost predicate NoneAwake(s: State) {
    forall t :: 0 <= t < |s.threads| ==> !Awake(s.threads[t].pc)
  }

  // All threads asleep means no work: the central consequence of coverage.
  lemma AsleepIsQuiescent(s: State)
    requires Live(s)
    requires forall t :: 0 <= t < |s.threads| ==> s.threads[t].tstate == Inactive && s.threads[t].debt == NoDebt
    ensures Quiescent(s)
    ensures NoneAwake(s)
  {
    forall t | 0 <= t < |s.threads| ensures s.threads[t].comm == {} && s.threads[t].cur.None? && !Awake(s.threads[t].pc) {
      assert ModeFine(s.threads[t]);
      assert ThreadFine(s, t, s.threads[t]);
    }
    assert forall u: nat, x: nat :: !WillWake(s, u, x);
    assert forall x: nat :: !CoveredThread(s, x);
    forall e: Entry ensures e !in s.members {
      assert CoveredAt(s, e.thread);
    }
    assert s.members == multiset{};
    forall n | 0 <= n < |s.nodes| ensures s.nodes[n].tag == Idle {
      assert NodeHeld(s, n);
      forall k ensures s.nodes[n].tag != InQueue(k) {
        assert s.members[Entry(s.nodes[n].owner, k, n)] == 0;
      }
    }
  }

  // ------------------------------------------------------------------ coverage step by step

  // The nodes that other threads have locked keep their owner.
  ghost predicate LockersStable(s: State, s': State, t: nat) {
    forall x :: 0 <= x < |s.threads| && x != t && s.threads[x].pc.Coord? ==>
      var n := s.threads[x].pc.node;
      n < |s.nodes| == |s'.nodes| && s'.nodes[n].owner == s.nodes[n].owner
  }

  // What the coverage of thread x needs from the acting thread alone: it only ever adds wake-ups, wakes
  // the threads it forgets, and covers new entries.
  ghost predicate CoverOk(s: State, s': State, t: nat, x: nat) {
    && t < |s.threads| == |s'.threads|
    && (HasWork(s', x) ==> HasWork(s, x) || CoveredThread(s', x))
    && (WillWake(s, t, x) ==> WillWake(s', t, x) || x >= |s.threads| || s'.threads[x].tstate == ActiveNewWork)
    && (x == t && LooksAgain(s.threads[t]) && HasWork(s', t) ==> CoveredThread(s', t))
  }

  lemma KeepCovered(s: State, s': State, t: nat, x: nat)
    requires CoveredAt(s, x) && CoverOk(s, s', t, x)
    requires forall y :: 0 <= y < |s.threads| && y != t ==>
               && s'.threads[y].pc == s.threads[y].pc && s'.threads[y].comm == s.threads[y].comm
               && (s'.threads[y].tstate == s.threads[y].tstate || s'.threads[y].tstate == ActiveNewWork)
    requires LockersStable(s, s', t)
    ensures CoveredAt(s', x)
  {
    if HasWork(s, x) && HasWork(s', x) && !LooksAgain(s.threads[x]) {
      var u :| WillWake(s, u, x);
      assert WillWake(s', u, x) || LooksAgain(s'.threads[x]);
    }
  }

  // Nodes locked by other threads keep their owner.
  ghost predicate OwnersKept(s: State, s': State, t: nat) {
    |s'.nodes| == |s.nodes| && forall n :: 0 <= n < |s.nodes| && s.nodes[n].lock.Some? && s.nodes[n].lock.value != t ==>
      s'.nodes[n].owner == s.nodes[n].owner
  }

  // Actions whose node, if any, keeps its owner because the code never writes it there.
  predicate IsPlain(a: Action) {
    a.Pay? || a.ClearFacts? || a.MarkFacts? || a.RetargetCurrent? || a.Pop? || MovesOn(a) || SwapsOwnState(a)
  }

  lemma NodePlainKeepsOwners(s: State, t: nat, a: Action)
    requires Enabled(s, t, a) && (a.ClearFacts? || a.MarkFacts? || a.RetargetCurrent? || a.Pop?)
    ensures OwnersKept(s, Apply(s, t, a), t)
  {}

  lemma PlainKeepsOwners(s: State, t: nat, a: Action)
    requires Enabled(s, t, a) && IsPlain(a)
    ensures OwnersKept(s, Apply(s, t, a), t)
  {
    if a.ClearFacts? || a.MarkFacts? || a.RetargetCurrent? || a.Pop? {
      NodePlainKeepsOwners(s, t, a);
    } else if !a.Pay? {
      ThreadOnlyFrame(s, t, a);
    }
  }

  lemma QuietKeepsOwners(s: State, s': State, t: nat, n: nat)
    requires QuietAt(s, s', t, n) && (s.nodes[n].lock.None? || s.nodes[n].lock == Some(t))
    ensures OwnersKept(s, s', t)
  {}

  lemma LockersSeeSameOwner(s: State, s': State, t: nat)
    requires Placed(s) && OwnersKept(s, s', t)
    ensures LockersStable(s, s', t)
  {}

  // Steps that add no entry.
  lemma NodePlainCoverOk(s: State, t: nat, a: Action, x: nat)
    requires Enabled(s, t, a) && (a.ClearFacts? || a.MarkFacts? || a.RetargetCurrent? || a.Pop?)
    requires QuietPC(s.threads[t])
    ensures CoverOk(s, Apply(s, t, a), t, x)
  {}

  lemma PayCoverOk(s: State, t: nat, x: nat)
    requires t < |s.threads| && s.threads[t].debt != NoDebt
    ensures CoverOk(s, PayDebt(s, t), t, x)
  {}

  lemma MovedCoverOk(s: State, t: nat, a: Action, x: nat)
    requires t < |s.threads| && MayMove(s, t, s.threads[t], a) && !a.StealGiveUp? && QuietPC(s.threads[t])
    ensures CoverOk(s, SetThread(s, t, Moved(s, t, s.threads[t], a)), t, x)
  {}

  /** A thief that gives up inside the loop of busy_wait drops the answer of set_inactive_if_no_work.
      The new-work flag it clears was the only sign of its queued nodes. */
  ghost predicate LostFlag(s: State, t: nat, a: Action) {
    && a.StealGiveUp? && t < |s.threads| && s.threads[t].pc == Scan(true, true, false)
    && s.threads[t].tstate == ActiveNewWork && HasWork(s, t)
    && !exists u: nat :: WillWake(s, u, t)
  }

  // A give-up in the loop that clears the flag while somebody is still going to wake the thread.
  lemma FlagStaysAnnounced(s: State, s': State, t: nat)
    requires t < |s.threads| == |s'.threads| && s' == SetThread(s, t, s'.threads[t]) && s.threads[t].pc.Scan?
    requires s.threads[t].comm == s'.threads[t].comm && !s'.threads[t].pc.Wake? && exists u: nat :: WillWake(s, u, t)
    ensures CoveredThread(s', t)
  {
    var u: nat :| WillWake(s, u, t);
    assert WillWake(s', u, t);
  }

  lemma GiveUpCoverOk(s: State, t: nat, a: Action, x: nat)
    requires t < |s.threads| && MayMove(s, t, s.threads[t], a) && a.StealGiveUp? && (x == t ==> !LostFlag(s, t, a))
    requires QuietPC(s.threads[t])
    ensures CoverOk(s, SetThread(s, t, Moved(s, t, s.threads[t], a)), t, x)
  {
    var s' := SetThread(s, t, Moved(s, t, s.threads[t], a));
    assert s'.threads[t].comm == s.threads[t].comm;
    if x == t && LooksAgain(s.threads[t]) && !LooksAgain(s'.threads[t]) && HasWork(s, t) {
      FlagStaysAnnounced(s, s', t);
    }
  }

  lemma PlainCoverOk(s: State, t: nat, a: Action, x: nat)
    requires Enabled(s, t, a) && IsPlain(a) && (x == t ==> !LostFlag(s, t, a)) && QuietPC(s.threads[t])
    ensures CoverOk(s, Apply(s, t, a), t, x)
  {
    if a.Pay? {
      PayCoverOk(s, t, x);
    } else if MovesOn(a) || SwapsOwnState(a) {
      ThreadOnlyFrame(s, t, a);
      if a.StealGiveUp? {
        GiveUpCoverOk(s, t, a, x);
      } else {
        MovedCoverOk(s, t, a, x);
      }
    } else {
      NodePlainCoverOk(s, t, a, x);
    }
  }

  lemma PlainKeepsCovered(s: State, t: nat, a: Action, x: nat)
    requires Sound(s) && CoveredAt(s, x) && Enabled(s, t, a) && IsPlain(a) && (x == t ==> !LostFlag(s, t, a))
    ensures CoveredAt(Apply(s, t, a), x)
  {
    var s' := Apply(s, t, a);
    assert QuietPC(s.threads[t]);
    PlainCoverOk(s, t, a, x);
    PlainKeepsOwners(s, t, a);
    LockersSeeSameOwner(s, s', t);
    OnlyActorChanges(s, t, a);
    KeepCovered(s, s', t, x);
  }

  lemma OnlyActorChanges(s: State, t: nat, a: Action)
    requires Enabled(s, t, a) && IsPlain(a)
    ensures Apply(s, t, a).threads == s.threads[t := Apply(s, t, a).threads[t]]
  {
    if MovesOn(a) || SwapsOwnState(a) {
      ThreadOnlyFrame(s, t, a);
    }
  }

  // New entries belong to the thread itself, or to one it is going to wake.
  ghost predicate Announces(s: State, r: State, t: nat) {
    && Quiet(s, r, t)
    && s.threads[t].comm <= r.threads[t].comm
    && Returns(r.threads[t].pc)
    && (forall e | e in r.members :: e in s.members || e.thread == t || WillWake(r, t, e.thread))
  }

  lemma SendAnnounces(s: State, t: nat, to: nat)
    requires t < |s.threads| && to < |s.nodes| && s.threads[t].pc == Run
    ensures Announces(s, SendWork(s, t, to), t)
  {}

  lemma ReleaseAnnounces(s: State, t: nat, has: bool)
    requires t < |s.threads| && s.threads[t].cur.Some? && s.threads[t].cur.value < |s.nodes| && s.threads[t].pc == Next
    ensures Announces(s, Release(s, t, has), t)
  {}

  lemma BeginAnnounces(s: State, t: nat, n: nat, op: Op)
    requires t < |s.threads| && n < |s.nodes| && s.threads[t].pc == Run
    ensures Announces(s, Begin(s, t, n, op), t)
  {}

  lemma LookAnnounces(s: State, t: nat)
    requires t < |s.threads| && s.threads[t].pc.Coord? && s.threads[t].pc.phase.Look? && s.threads[t].pc.node < |s.nodes|
    ensures Announces(s, Look1(s, t), t)
  {}

  lemma TakeAnnounces(s: State, t: nat)
    requires t < |s.threads| && s.threads[t].pc.Coord? && s.threads[t].pc.phase.Take? && s.threads[t].pc.node < |s.nodes|
    ensures Announces(s, Take1(s, t), t)
  {}

  lemma PutAwayAnnounces(s: State, t: nat)
    requires t < |s.threads| && s.threads[t].pc.Coord? && s.threads[t].pc.op.SetOwner? && s.threads[t].pc.node < |s.nodes|
    ensures Announces(s, PutAway(s, t), t)
  {}

  lemma PutOverAnnounces(s: State, t: nat)
    requires t < |s.threads| && s.threads[t].pc.Coord? && s.threads[t].pc.node < |s.nodes|
    ensures Announces(s, PutOver(s, t), t)
  {}

  lemma AdoptAnnounces(s: State, t: nat, n: nat)
    requires t < |s.threads| && s.threads[t].pc.Adopt? && n < |s.nodes|
    ensures Announces(s, AdoptOne(s, t, n), t)
  {}

  lemma RobAnnounces(s: State, t: nat, v: nat, k: Kind, loot: set<nat>)
    requires t < |s.threads| && s.threads[t].pc.Scan? && forall n | n in loot :: n < |s.nodes|
    ensures Announces(s, Rob(s, t, v, k, loot), t)
  {}

  lemma RobKeepsOwners(s: State, t: nat, v: nat, k: Kind, loot: set<nat>)
    requires t < |s.threads| && forall n | n in loot :: n < |s.nodes|
    ensures OwnersKept(s, Rob(s, t, v, k, loot), t)
  {}

  lemma AnnouncedKeepsCovered(s: State, s': State, t: nat, x: nat)
    requires Sound(s) && CoveredAt(s, x) && Placed(s') && Announces(s, s', t) && OwnersKept(s, s', t) && Awake(s.threads[t].pc)
    requires !s.threads[t].pc.Wake? && (s.threads[t].pc.Coord? ==> !s.threads[t].pc.phase.Ring?)
    ensures CoveredAt(s', x)
  {
    assert ModeFine(s.threads[t]);
    EntriesInRange(s');
    LockersSeeSameOwner(s, s', t);
    assert LooksAgain(s'.threads[t]);
    assert HasWork(s', x) ==> HasWork(s, x) || CoveredThread(s', x);
    KeepCovered(s, s', t, x);
  }

  lemma QuietKeepsCovered(s: State, s': State, t: nat, n: nat, x: nat)
    requires Sound(s) && CoveredAt(s, x) && Placed(s') && QuietAt(s, s', t, n) && Announces(s, s', t) && Awake(s.threads[t].pc)
    requires s.nodes[n].lock.None? || s.nodes[n].lock == Some(t)
    requires !s.threads[t].pc.Wake? && (s.threads[t].pc.Coord? ==> !s.threads[t].pc.phase.Ring?)
    ensures CoveredAt(s', x)
  {
    QuietKeepsOwners(s, s', t, n);
    AnnouncedKeepsCovered(s, s', t, x);
  }

  // Entries always belong to a thread.
  lemma EntriesInRange(s: State)
    requires Placed(s)
    ensures forall e | e in s.members :: e.thread < |s.threads|
  {}

  lemma WorkKeepsCovered(s: State, t: nat, a: Action, x: nat)
    requires Sound(s) && CoveredAt(s, x) && Enabled(s, t, a) && Placed(Apply(s, t, a))
    requires a.Send? || a.ReleaseCurrent? || a.BeginOp?
    ensures CoveredAt(Apply(s, t, a), x)
  {
    match a
    case Send(to) =>
      SendAnnounces(s, t, to);
      QuietKeepsCovered(s, SendWork(s, t, to), t, to, x);
    case ReleaseCurrent(has) =>
      ReleaseAnnounces(s, t, has);
      QuietKeepsCovered(s, Release(s, t, has), t, s.threads[t].cur.value, x);
    case BeginOp(n, op) =>
      BeginAnnounces(s, t, n, op);
      QuietKeepsCovered(s, Begin(s, t, n, op), t, n, x);
  }

  lemma ScheduleNextKeepsCovered(s: State, t: nat, a: Action, x: nat)
    requires Sound(s) && CoveredAt(s, x) && Enabled(s, t, a) && Placed(Apply(s, t, a)) && a.ScheduleNext?
    ensures CoveredAt(Apply(s, t, a), x)
  {
    QuietKeepsCovered(s, Apply(s, t, a), t, a.node, x);
  }

  lemma CoordKeepsCovered(s: State, t: nat, a: Action, x: nat)
    requires Sound(s) && CoveredAt(s, x) && Enabled(s, t, a) && Placed(Apply(s, t, a))
    requires a.LookState? || a.TakeOut? || a.PutBack?
    ensures CoveredAt(Apply(s, t, a), x)
  {
    assert ThreadFine(s, t, s.threads[t]);
    var n := s.threads[t].pc.node;
    match a
    case LookState =>
      LookAnnounces(s, t);
      QuietKeepsCovered(s, Look1(s, t), t, n, x);
    case TakeOut =>
      TakeAnnounces(s, t);
      QuietKeepsCovered(s, Take1(s, t), t, n, x);
    case PutBack =>
      if s.threads[t].pc.op.SetOwner? {
        PutAwayAnnounces(s, t);
      } else {
        PutOverAnnounces(s, t);
      }
      QuietKeepsCovered(s, Put1(s, t), t, n, x);
  }

  // activate_thread: whoever is activated is covered by the new-work flag.
  lemma ActivateKeepsCovered(s: State, s1: State, t: nat, target: nat, x: nat)
    requires CoveredAt(s, x) && Quiet(s, s1, t) && LockersStable(s, s1, t) && target < |s.threads| && s1.members == s.members
    requires LooksAgain(s.threads[t]) ==> LooksAgain(s1.threads[t])
    requires WillWake(s, t, x) ==> WillWake(s1, t, x) || x == target
    ensures CoveredAt(Activate(s1, t, target), x)
  {
    var s' := Activate(s1, t, target);
    assert s'.threads[t].pc == s1.threads[t].pc && s'.threads[t].comm == s1.threads[t].comm && s'.nodes == s1.nodes;
    assert WillWake(s1, t, x) ==> WillWake(s', t, x);
    KeepCovered(s, s', t, x);
  }

  lemma WakeOneKeepsCovered(s: State, t: nat, a: Action, x: nat)
    requires Sound(s) && CoveredAt(s, x) && Enabled(s, t, a) && a.WakeOne?
    ensures CoveredAt(Apply(s, t, a), x)
  {
    var s1 := SetThread(s, t, s.threads[t].(pc := Wake(s.threads[t].pc.todo - {a.target})));
    assert ModeFine(s.threads[t]);
    LockersSeeSameOwner(s, s1, t);
    ActivateKeepsCovered(s, s1, t, a.target, x);
  }

  lemma RingKeepsCovered(s: State, t: nat, a: Action, x: nat)
    requires Sound(s) && CoveredAt(s, x) && Enabled(s, t, a) && a.RingOwner?
    ensures CoveredAt(Apply(s, t, a), x)
  {
    assert ModeFine(s.threads[t]);
    LockersSeeSameOwner(s, Unlock(s, t), t);
    ActivateKeepsCovered(s, Unlock(s, t), t, s.nodes[s.threads[t].pc.node].owner, x);
  }

  // ------------------------------------------------------------------ the other invariants

  // A node does not become idle with facts left.
  ghost predicate FactsKept(s: State, s': State) {
    |s'.nodes| == |s.nodes| && forall n :: 0 <= n < |s.nodes| ==>
      (s'.nodes[n].unprocessed && s'.nodes[n].tag == Idle ==> s.nodes[n].unprocessed && s.nodes[n].tag == Idle)
  }

  // The effect on modes and facts of a step: what the lemmas below establish action by action.
  ghost predicate EffectOk(s: State, s': State, t: nat) {
    t < |s.threads| == |s'.threads| && QuietPC(s'.threads[t]) && FactsKept(s, s')
  }

  lemma MovedIsQuiet(s: State, t: nat, th: Thread, a: Action)
    requires MayMove(s, t, th, a) && QuietPC(th) && (th.pc.Adopt? ==> a.StealDone?)
    ensures QuietPC(Moved(s, t, th, a))
  {}

  lemma PlainEffect(s: State, t: nat, a: Action)
    requires Enabled(s, t, a) && QuietPC(s.threads[t])
    requires MovesOn(a) || SwapsOwnState(a) || a.Pay?
    ensures EffectOk(s, Apply(s, t, a), t)
  {
    if !a.Pay? {
      ThreadOnlyFrame(s, t, a);
      MovedIsQuiet(s, t, s.threads[t], a);
    }
  }

  lemma NodeEffect(s: State, t: nat, a: Action)
    requires Placed(s) && Enabled(s, t, a) && QuietPC(s.threads[t])
    requires a.ClearFacts? || a.MarkFacts? || a.RetargetCurrent? || a.Pop? || a.ScheduleNext?
    ensures EffectOk(s, Apply(s, t, a), t)
  {
    assert ThreadFine(s, t, s.threads[t]);
    if a.Pop? {
      assert s.members[Entry(t, a.kind, a.node)] > 0;
    }
  }

  lemma WakeEffect(s: State, t: nat, a: Action)
    requires Enabled(s, t, a) && QuietPC(s.threads[t]) && (a.WakeOne? || a.RingOwner?)
    ensures EffectOk(s, Apply(s, t, a), t)
  {}

  lemma SendEffect(s: State, t: nat, to: nat)
    requires t < |s.threads| && to < |s.nodes| && s.threads[t].pc == Run
    ensures EffectOk(s, SendWork(s, t, to), t)
  {}

  lemma ReleaseEffect(s: State, t: nat, has: bool)
    requires t < |s.threads| && s.threads[t].pc == Next && s.threads[t].cur.Some? && ThreadFine(s, t, s.threads[t])
    ensures EffectOk(s, Release(s, t, has), t)
  {}

  lemma BeginEffect(s: State, t: nat, n: nat, op: Op)
    requires t < |s.threads| && n < |s.nodes| && s.threads[t].pc == Run
    ensures EffectOk(s, Begin(s, t, n, op), t)
  {}

  lemma LookEffect(s: State, t: nat)
    requires t < |s.threads| && s.threads[t].pc.Coord? && s.threads[t].pc.phase.Look? && ThreadFine(s, t, s.threads[t])
    ensures EffectOk(s, Look1(s, t), t)
  {}

  lemma TakeEffect(s: State, t: nat)
    requires t < |s.threads| && s.threads[t].pc.Coord? && s.threads[t].pc.phase.Take? && ThreadFine(s, t, s.threads[t])
    ensures EffectOk(s, Take1(s, t), t)
  {}

  lemma PutAwayEffect(s: State, t: nat)
    requires t < |s.threads| && s.threads[t].pc.Coord? && s.threads[t].pc.op.SetOwner? && s.threads[t].pc.node < |s.nodes|
    ensures EffectOk(s, PutAway(s, t), t)
  {}

  lemma PutOverEffect(s: State, t: nat)
    requires t < |s.threads| && s.threads[t].pc.Coord? && s.threads[t].pc.node < |s.nodes|
    ensures EffectOk(s, PutOver(s, t), t)
  {}

  lemma AdoptEffect(s: State, t: nat, n: nat)
    requires t < |s.threads| && s.threads[t].pc.Adopt? && n < |s.nodes|
    ensures EffectOk(s, AdoptOne(s, t, n), t)
  {}

  lemma RobEffect(s: State, t: nat, v: nat, k: Kind, loot: set<nat>)
    requires t < |s.threads| && s.threads[t].pc.Scan? && forall n | n in loot :: n < |s.nodes|
    ensures EffectOk(s, Rob(s, t, v, k, loot), t)
  {}

  lemma StepEffect(s: State, t: nat, a: Action)
    requires Sound(s) && Enabled(s, t, a)
    ensures EffectOk(s, Apply(s, t, a), t)
  {
    assert ThreadFine(s, t, s.threads[t]) && QuietPC(s.threads[t]);
    if a.Send? {
      SendEffect(s, t, a.to);
    } else if a.ReleaseCurrent? {
      ReleaseEffect(s, t, a.has);
    } else if a.BeginOp? {
      BeginEffect(s, t, a.node, a.op);
    } else if a.LookState? {
      LookEffect(s, t);
    } else if a.TakeOut? {
      TakeEffect(s, t);
    } else if a.PutBack? {
      if s.threads[t].pc.op.SetOwner? {
        PutAwayEffect(s, t);
      } else {
        PutOverEffect(s, t);
      }
    } else if a.WakeOne? || a.RingOwner? {
      WakeEffect(s, t, a);
    } else if a.ClearFacts? || a.MarkFacts? || a.RetargetCurrent? || a.Pop? || a.ScheduleNext? {
      NodeEffect(s, t, a);
    } else if a.StealTake? {
      RobEffect(s, t, a.victim, a.kind, a.loot);
    } else if a.StealAdopt? {
      AdoptEffect(s, t, a.node);
    } else {
      PlainEffect(s, t, a);
    }
  }

  lemma TheftKeepsCovered(s: State, t: nat, a: Action, x: nat)
    requires Sound(s) && CoveredAt(s, x) && Enabled(s, t, a) && Placed(Apply(s, t, a)) && (a.StealTake? || a.StealAdopt?)
    ensures CoveredAt(Apply(s, t, a), x)
  {
    match a
    case StealTake(v, k, loot) =>
      RobAnnounces(s, t, v, k, loot);
      RobKeepsOwners(s, t, v, k, loot);
      AnnouncedKeepsCovered(s, Rob(s, t, v, k, loot), t, x);
    case StealAdopt(n) =>
      AdoptAnnounces(s, t, n);
      QuietKeepsCovered(s, AdoptOne(s, t, n), t, n, x);
  }

  lemma StepKeepsCovered(s: State, t: nat, a: Action, x: nat)
    requires Sound(s) && CoveredAt(s, x) && Enabled(s, t, a) && Placed(Apply(s, t, a))
    requires x == t ==> !LostFlag(s, t, a)
    ensures CoveredAt(Apply(s, t, a), x)
  {
    if IsPlain(a) {
      PlainKeepsCovered(s, t, a, x);
    } else if a.WakeOne? {
      WakeOneKeepsCovered(s, t, a, x);
    } else if a.RingOwner? {
      RingKeepsCovered(s, t, a, x);
    } else if a.ScheduleNext? {
      ScheduleNextKeepsCovered(s, t, a, x);
    } else if a.Send? || a.ReleaseCurrent? || a.BeginOp? {
      WorkKeepsCovered(s, t, a, x);
    } else if a.StealTake? || a.StealAdopt? {
      TheftKeepsCovered(s, t, a, x);
    } else {
      CoordKeepsCovered(s, t, a, x);
    }
  }

  // Other threads only ever get the new-work flag.
  predicate Untouched(th: Thread, th': Thread) {
    th' == th || th' == th.(tstate := ActiveNewWork)
  }

  lemma WakingTouchesState(s: State, t: nat, a: Action, x: nat)
    requires Enabled(s, t, a) && (a.WakeOne? || a.RingOwner?) && x < |s.threads| && x != t
    ensures |Apply(s, t, a).threads| == |s.threads| && Untouched(s.threads[x], Apply(s, t, a).threads[x])
  {}

  lemma OthersUntouched(s: State, t: nat, a: Action, x: nat)
    requires Enabled(s, t, a) && x < |s.threads| && x != t
    ensures |Apply(s, t, a).threads| == |s.threads| && Untouched(s.threads[x], Apply(s, t, a).threads[x])
  {
    if !IsSwap(a) {
      OtherActionsAreQuiet(s, t, a);
    } else if SwapsOwnState(a) {
      ThreadOnlyFrame(s, t, a);
    } else if a.WakeOne? || a.RingOwner? {
      WakingTouchesState(s, t, a, x);
    }
  }

  lemma ModesKept(s: State, t: nat, a: Action)
    requires Modes(s) && Enabled(s, t, a) && QuietPC(Apply(s, t, a).threads[t])
    ensures Modes(Apply(s, t, a))
  {
    var s' := Apply(s, t, a);
    forall x | 0 <= x < |s'.threads| ensures QuietPC(s'.threads[x]) {
      if x != t {
        OthersUntouched(s, t, a, x);
        assert QuietPC(s.threads[x]);
      }
    }
  }

  lemma StepKeepsSound(s: State, t: nat, a: Action)
    requires Sound(s) && Enabled(s, t, a) && !ForeignTake(s, t, a)
    ensures Sound(Apply(s, t, a))
  {
    StepKeepsPlaced(s, t, a);
    StepKeepsLaw(s, t, a);
    StepEffect(s, t, a);
    ModesKept(s, t, a);
  }

  lemma LiveUnlessLost(s: State, t: nat, a: Action)
    requires Live(s) && Enabled(s, t, a) && !ForeignTake(s, t, a) && !LostFlag(s, t, a)
    ensures Live(Apply(s, t, a))
  {
    StepKeepsSound(s, t, a);
    forall x: nat ensures CoveredAt(Apply(s, t, a), x) {
      StepKeepsCovered(s, t, a, x);
    }
  }

  // The nodes in the thief's queue are nobody's business any more.
  lemma LostFlagUncovers(s: State, t: nat, a: Action)
    requires Modes(s) && Enabled(s, t, a) && LostFlag(s, t, a)
    ensures !CoveredAt(Apply(s, t, a), t)
  {
    var s' := Apply(s, t, a);
    assert QuietPC(s.threads[t]);
    assert s'.members == s.members;
    forall u: nat ensures !WillWake(s', u, t) {
      assert !WillWake(s, u, t);
    }
  }

  /** With split counter updates, stealing and all coordination calls: a step keeps the whole invariant
      if and only if it takes no node out of the wrong queue and drops no flag that was still needed. */
  lemma StepKeepsLive(s: State, t: nat, a: Action)
    requires Live(s) && Enabled(s, t, a)
    ensures Live(Apply(s, t, a)) <==> !ForeignTake(s, t, a) && !LostFlag(s, t, a)
  {
    if ForeignTake(s, t, a) {
      StepKeepsPlaced(s, t, a);
    } else if LostFlag(s, t, a) {
      LostFlagUncovers(s, t, a);
    } else {
      LiveUnlessLost(s, t, a);
    }
  }

  // ------------------------------------------------------------------ without stealing

  predicate Queued(nd: Node) { nd.tag.InQueue? || nd.tag.Changing? }

  // A thread that was seen to have work still owns a queued node, or one that is being moved.
  ghost predicate StillHasNode(s: State, t: nat) {
    exists n :: 0 <= n < |s.nodes| && s.nodes[n].owner == t && Queued(s.nodes[n])
  }

  ghost predicate ResumesForWork(s: State) {
    forall t :: 0 <= t < |s.threads| && s.threads[t].pc == Resume ==> StillHasNode(s, t)
  }

  // Only its owner takes a node out of the queues.
  predicate Stays(nd: Node, nd': Node, t: nat) {
    nd.owner != t && Queued(nd) ==> nd'.owner == nd.owner && Queued(nd')
  }

  ghost predicate NodesStay(s: State, s': State, t: nat) {
    |s'.nodes| == |s.nodes| && forall n :: 0 <= n < |s.nodes| ==> Stays(s.nodes[n], s'.nodes[n], t)
  }

  lemma SendStays(s: State, t: nat, to: nat)
    requires t < |s.threads| && to < |s.nodes|
    ensures NodesStay(s, SendWork(s, t, to), t)
  {}

  lemma ReleaseStaysPut(s: State, t: nat, has: bool)
    requires t < |s.threads| && s.threads[t].cur.Some? && ThreadFine(s, t, s.threads[t])
    ensures NodesStay(s, Release(s, t, has), t)
  {}

  lemma LookStays(s: State, t: nat)
    requires t < |s.threads| && s.threads[t].pc.Coord? && s.threads[t].pc.phase.Look? && s.threads[t].pc.node < |s.nodes|
    ensures NodesStay(s, Look1(s, t), t)
  {}

  lemma PutStays(s: State, t: nat)
    requires t < |s.threads| && s.threads[t].pc.Coord? && s.threads[t].pc.phase.Put? && ThreadFine(s, t, s.threads[t])
    ensures NodesStay(s, Put1(s, t), t)
  {}

  lemma BeginStays(s: State, t: nat, n: nat, op: Op)
    requires t < |s.threads| && n < |s.nodes|
    ensures NodesStay(s, Begin(s, t, n, op), t)
  {}

  lemma TakeStays(s: State, t: nat)
    requires t < |s.threads| && s.threads[t].pc.Coord? && s.threads[t].pc.phase.Take? && s.threads[t].pc.node < |s.nodes|
    ensures NodesStay(s, Take1(s, t), t)
  {}

  lemma NodeStays(s: State, t: nat, a: Action)
    requires Enabled(s, t, a)
    requires a.ClearFacts? || a.MarkFacts? || a.RetargetCurrent? || a.ScheduleNext? || a.RingOwner?
    ensures NodesStay(s, Apply(s, t, a), t)
  {}

  lemma PopStays(s: State, t: nat, a: Action)
    requires QueuesMatchTags(s) && Enabled(s, t, a) && a.Pop?
    ensures NodesStay(s, Apply(s, t, a), t)
  {
    assert s.members[Entry(t, a.kind, a.node)] > 0;
  }

  lemma ThreadOnlyStays(s: State, t: nat, a: Action)
    requires Enabled(s, t, a) && (MovesOn(a) || SwapsOwnState(a) || a.WakeOne? || a.Pay?)
    ensures NodesStay(s, Apply(s, t, a), t)
  {
    if MovesOn(a) || SwapsOwnState(a) {
      ThreadOnlyFrame(s, t, a);
    }
  }

  lemma StepStays(s: State, t: nat, a: Action)
    requires Placed(s) && Enabled(s, t, a) && !IsSteal(a)
    ensures NodesStay(s, Apply(s, t, a), t)
  {
    assert ThreadFine(s, t, s.threads[t]);
    if a.Send? {
      SendStays(s, t, a.to);
    } else if a.ReleaseCurrent? {
      ReleaseStaysPut(s, t, a.has);
    } else if a.LookState? {
      LookStays(s, t);
    } else if a.TakeOut? {
      TakeStays(s, t);
    } else if a.PutBack? {
      PutStays(s, t);
    } else if a.BeginOp? {
      BeginStays(s, t, a.node, a.op);
    } else if a.Pop? {
      PopStays(s, t, a);
    } else if a.ClearFacts? || a.MarkFacts? || a.RetargetCurrent? || a.ScheduleNext? || a.RingOwner? {
      NodeStays(s, t, a);
    } else {
      ThreadOnlyStays(s, t, a);
    }
  }

  // What a thread that is about to resume has just seen.
  ghost predicate SawWork(s: State, s': State, t: nat) {
    t < |s.threads| == |s'.threads| && (s'.threads[t].pc == Resume ==> s'.nodes == s.nodes && (s.threads[t].pc == Resume || HasWork(s, t)))
  }

  lemma MovedSawWork(s: State, t: nat, th: Thread, a: Action)
    requires MayMove(s, t, th, a) && !IsSteal(a) && Moved(s, t, th, a).pc == Resume
    ensures HasWork(s, t)
  {}

  lemma PlainSawWork(s: State, t: nat, a: Action)
    requires Enabled(s, t, a) && !IsSteal(a) && (MovesOn(a) || SwapsOwnState(a) || a.WakeOne? || a.Pay?)
    ensures SawWork(s, Apply(s, t, a), t)
  {
    if MovesOn(a) || SwapsOwnState(a) {
      ThreadOnlyFrame(s, t, a);
      if Apply(s, t, a).threads[t].pc == Resume {
        MovedSawWork(s, t, s.threads[t], a);
      }
    }
  }

  lemma NodeSawWork(s: State, t: nat, a: Action)
    requires Enabled(s, t, a)
    requires a.ClearFacts? || a.MarkFacts? || a.RetargetCurrent? || a.Pop? || a.ScheduleNext? || a.RingOwner?
    ensures SawWork(s, Apply(s, t, a), t)
  {}

  lemma WorkSawWork(s: State, t: nat, a: Action)
    requires Enabled(s, t, a) && (a.Send? || a.ReleaseCurrent? || a.BeginOp?)
    ensures SawWork(s, Apply(s, t, a), t)
  {}

  lemma CoordSawWork(s: State, t: nat, a: Action)
    requires Enabled(s, t, a) && (a.LookState? || a.TakeOut? || a.PutBack?)
    ensures SawWork(s, Apply(s, t, a), t)
  {}

  lemma StepSawWork(s: State, t: nat, a: Action)
    requires Enabled(s, t, a) && !IsSteal(a)
    ensures SawWork(s, Apply(s, t, a), t)
  {
    if a.Send? || a.ReleaseCurrent? || a.BeginOp? {
      WorkSawWork(s, t, a);
    } else if a.LookState? || a.TakeOut? || a.PutBack? {
      CoordSawWork(s, t, a);
    } else if MovesOn(a) || SwapsOwnState(a) || a.WakeOne? || a.Pay? {
      PlainSawWork(s, t, a);
    } else {
      NodeSawWork(s, t, a);
    }
  }

  lemma WorkIsNode(s: State, t: nat)
    requires QueuesMatchTags(s) && HasWork(s, t)
    ensures StillHasNode(s, t)
  {
    var e :| e in s.members && e.thread == t;
    assert s.members[Entry(e.thread, e.kind, e.node)] > 0;
  }

  lemma ActorResumes(s: State, s': State, t: nat)
    requires QueuesMatchTags(s) && ResumesForWork(s) && SawWork(s, s', t) && s'.threads[t].pc == Resume
    ensures StillHasNode(s', t)
  {
    if s.threads[t].pc != Resume {
      WorkIsNode(s, t);
    }
    var n :| 0 <= n < |s.nodes| && s.nodes[n].owner == t && Queued(s.nodes[n]);
    assert s'.nodes[n] == s.nodes[n];
  }

  lemma OtherResumes(s: State, s': State, t: nat, x: nat)
    requires ResumesForWork(s) && NodesStay(s, s', t) && x < |s.threads| && x != t && s.threads[x].pc == Resume
    ensures StillHasNode(s', x)
  {
    var n :| 0 <= n < |s.nodes| && s.nodes[n].owner == x && Queued(s.nodes[n]);
    assert Stays(s.nodes[n], s'.nodes[n], t);
  }

  /** Without stealing, a thread that saw work keeps it until it takes it. */
  lemma StepKeepsResumes(s: State, t: nat, a: Action)
    requires Placed(s) && ResumesForWork(s) && Enabled(s, t, a) && !IsSteal(a)
    ensures ResumesForWork(Apply(s, t, a))
  {
    var s' := Apply(s, t, a);
    StepStays(s, t, a);
    StepSawWork(s, t, a);
    forall x | 0 <= x < |s'.threads| && s'.threads[x].pc == Resume ensures StillHasNode(s', x) {
      if x == t {
        ActorResumes(s, s', t);
      } else {
        OthersUntouched(s, t, a, x);
        OtherResumes(s, s', t, x);
      }
    }
  }
}
