/**
  What holds of whole runs of the scheduler.
 */
module SchedulerRuns {
  import opened SchedulerModel
  import opened SchedulerPlacement
  import opened SchedulerTermination

  datatype Step = Step(thread: nat, action: Action)

  // All threads active and nothing done yet; every node waits in the moving queue of its owner.
  ghost predicate Init(s: State) {
    && (forall t :: 0 <= t < |s.threads| ==> s.threads[t] == Thread(Active, Next, None, {}, NoDebt))
    && (forall n :: 0 <= n < |s.nodes| ==>
          && s.nodes[n].owner < |s.threads| && s.nodes[n].pinned.None? && s.nodes[n].lock.None?
          && s.nodes[n].unprocessed && s.nodes[n].tag == InQueue(Destination(s.nodes[n])))
    && QueuesMatchTags(s)
    && s.counter == |s.threads| && !s.done && !s.aborted
  }

  ghost predicate IsRun(states: seq<State>, steps: seq<Step>) {
    && |states| == |steps| + 1
    && Init(states[0])
    && forall i :: 0 <= i < |steps| ==>
         Enabled(states[i], steps[i].thread, steps[i].action) &&
         states[i + 1] == Apply(states[i], steps[i].thread, steps[i].action)
  }

  ghost predicate NoStealing(steps: seq<Step>) {
    forall i :: 0 <= i < |steps| ==> !IsSteal(steps[i].action)
  }

  // No node is taken out of the queue of the wrong thread.
  ghost predicate OwnTakes(states: seq<State>, steps: seq<Step>)
    requires |states| == |steps| + 1
  {
    forall i :: 0 <= i < |steps| ==> !ForeignTake(states[i], steps[i].thread, steps[i].action)
  }

  // No thief drops a flag that is the only sign of its queued nodes.
  ghost predicate KeepsFlags(states: seq<State>, steps: seq<Step>)
    requires |states| == |steps| + 1
  {
    forall i :: 0 <= i < |steps| ==> !LostFlag(states[i], steps[i].thread, steps[i].action)
  }

  // The step pays a decrement that brings the counter to zero for the first time.
  predicate Fires(s: State, st: Step) {
    st.thread < |s.threads| && st.action == Pay && s.threads[st.thread].debt == OwesDecrement && s.counter == 1 && !s.done
  }

  ghost predicate IncrementOwed(s: State) {
    exists t :: 0 <= t < |s.threads| && s.threads[t].debt == OwesIncrement
  }

  // No activation is half done when the counter reaches zero.
  ghost predicate PaidUp(states: seq<State>, steps: seq<Step>)
    requires |states| == |steps| + 1
  {
    forall i :: 0 <= i < |steps| && Fires(states[i], steps[i]) ==> !IncrementOwed(states[i])
  }

  lemma {:induction false} InitialTotal(ths: seq<Thread>)
    requires forall t :: 0 <= t < |ths| ==> ths[t] == Thread(Active, Next, None, {}, NoDebt)
    ensures Total(ths) == |ths|
  {
    if ths != [] {
      InitialTotal(ths[..|ths| - 1]);
    }
  }

  lemma InitIsLive(s: State)
    requires Init(s)
    ensures Live(s)
  {
    InitialTotal(s.threads);
    forall x: nat | HasWork(s, x) ensures CoveredThread(s, x) {
      var e :| e in s.members && e.thread == x;
      assert s.members[Entry(e.thread, e.kind, e.node)] > 0;
    }
  }

  lemma {:induction false} PlacedBefore(states: seq<State>, steps: seq<Step>, i: nat)
    requires IsRun(states, steps) && OwnTakes(states, steps) && i <= |steps|
    ensures Placed(states[i])
  {
    if i == 0 {
      InitIsLive(states[0]);
    } else {
      PlacedBefore(states, steps, i - 1);
      PlacedStep(states, steps, i - 1);
    }
  }

  lemma PlacedStep(states: seq<State>, steps: seq<Step>, k: nat)
    requires IsRun(states, steps) && k < |steps| && Placed(states[k])
    ensures Placed(states[k + 1]) <==> !ForeignTake(states[k], steps[k].thread, steps[k].action)
  {
    assert Enabled(states[k], steps[k].thread, steps[k].action);
    StepKeepsPlaced(states[k], steps[k].thread, steps[k].action);
  }

  /** Node placement over whole runs, with stealing: in every reachable state each node is in at
      most one queue, and its tag names exactly that queue of its owner, if and only if no step of
      the run takes a node out of the queue of the wrong thread. */
  lemma PlacementInEveryRun(states: seq<State>, steps: seq<Step>)
    requires IsRun(states, steps)
    ensures (forall i :: 0 <= i <= |steps| ==> Placed(states[i])) <==> OwnTakes(states, steps)
  {
    if OwnTakes(states, steps) {
      forall i | 0 <= i <= |steps| ensures Placed(states[i]) {
        PlacedBefore(states, steps, i);
      }
    } else {
      var i :| 0 <= i < |steps| && ForeignTake(states[i], steps[i].thread, steps[i].action);
      if Placed(states[i]) {
        PlacedStep(states, steps, i);
        assert !Placed(states[i + 1]);
      }
    }
  }

  /** The counter over whole runs, with stealing: it never goes below zero, and it always is the
      number of active threads, corrected by the updates still owed. */
  lemma {:induction false} CounterInEveryRun(states: seq<State>, steps: seq<Step>, i: nat)
    requires IsRun(states, steps) && i <= |steps|
    ensures CounterLaw(states[i]) && states[i].counter >= 0
    ensures forall t :: 0 <= t < |states[i].threads| && states[i].threads[t].debt == OwesDecrement ==> states[i].counter > 0
  {
    if i == 0 {
      InitIsLive(states[0]);
    } else {
      CounterInEveryRun(states, steps, i - 1);
      StepKeepsLaw(states[i - 1], steps[i - 1].thread, steps[i - 1].action);
    }
    var ths := states[i].threads;
    assert forall t :: 0 <= t < |ths| ==> ModeFine(ths[t]) && Weight(ths[t]) >= 0;
    TotalZero(ths);
  }

  lemma LiveStep(states: seq<State>, steps: seq<Step>, k: nat)
    requires IsRun(states, steps) && k < |steps| && Live(states[k])
    ensures Live(states[k + 1]) <==>
            && !ForeignTake(states[k], steps[k].thread, steps[k].action)
            && !LostFlag(states[k], steps[k].thread, steps[k].action)
  {
    assert Enabled(states[k], steps[k].thread, steps[k].action);
    StepKeepsLive(states[k], steps[k].thread, steps[k].action);
  }

  lemma {:induction false} LiveInEveryRun(states: seq<State>, steps: seq<Step>, i: nat)
    requires IsRun(states, steps) && OwnTakes(states, steps) && KeepsFlags(states, steps) && i <= |steps|
    ensures Live(states[i])
  {
    if i == 0 {
      InitIsLive(states[0]);
    } else {
      LiveInEveryRun(states, steps, i - 1);
      LiveStep(states, steps, i - 1);
    }
  }

  /** Placement, counter law, coverage and the facts of the nodes hold together in every state of a run
      if and only if no step takes a node out of the wrong queue and no thief drops the last sign of its
      work. */
  lemma InvariantInEveryRun(states: seq<State>, steps: seq<Step>)
    requires IsRun(states, steps)
    ensures (forall i :: 0 <= i <= |steps| ==> Live(states[i])) <==> OwnTakes(states, steps) && KeepsFlags(states, steps)
  {
    if OwnTakes(states, steps) && KeepsFlags(states, steps) {
      forall i | 0 <= i <= |steps| ensures Live(states[i]) {
        LiveInEveryRun(states, steps, i);
      }
    } else {
      var i :| 0 <= i < |steps| && (|| ForeignTake(states[i], steps[i].thread, steps[i].action)
                                       || LostFlag(states[i], steps[i].thread, steps[i].action));
      if Live(states[i]) {
        LiveStep(states, steps, i);
        assert !Live(states[i + 1]);
      }
    }
  }

  /** The barrier is exact at the moment it fires if and only if no increment is owed. */
  lemma BarrierIsExact(s: State, st: Step)
    requires CounterLaw(s) && Enabled(s, st.thread, st.action) && Fires(s, st)
    ensures var s' := Apply(s, st.thread, st.action);
            && s'.done
            && ((forall t :: 0 <= t < |s'.threads| ==> s'.threads[t].tstate == Inactive && s'.threads[t].debt == NoDebt)
                <==> !IncrementOwed(s))
  {
    var s' := Apply(s, st.thread, st.action);
    StepKeepsLaw(s, st.thread, st.action);
    assert forall t :: 0 <= t < |s'.threads| ==> ModeFine(s'.threads[t]) && Weight(s'.threads[t]) >= 0;
    TotalZero(s'.threads);
    assert forall t :: 0 <= t < |s'.threads| ==> Weight(s'.threads[t]) == 0;
    assert s'.threads == s.threads[st.thread := s.threads[st.thread].(debt := NoDebt)];
    if IncrementOwed(s) {
      var t :| 0 <= t < |s.threads| && s.threads[t].debt == OwesIncrement;
      assert s'.threads[t].debt == OwesIncrement;
    }
  }

  ghost predicate AllAsleep(s: State) {
    forall t :: 0 <= t < |s.threads| ==> s.threads[t].tstate == Inactive && s.threads[t].debt == NoDebt
  }

  lemma DoneOnlyByFiring(s: State, t: nat, a: Action)
    requires Enabled(s, t, a) && Apply(s, t, a).done && !s.done
    ensures Fires(s, Step(t, a))
  {
    if !IsSwap(a) {
      OtherActionsAreQuiet(s, t, a);
    } else if SwapsOwnState(a) {
      ThreadOnlyFrame(s, t, a);
    }
  }

  lemma DoneByFiring(states: seq<State>, steps: seq<Step>, k: nat)
    requires IsRun(states, steps) && k < |steps| && states[k + 1].done && !states[k].done
    ensures Fires(states[k], steps[k])
  {
    assert Enabled(states[k], steps[k].thread, steps[k].action);
    DoneOnlyByFiring(states[k], steps[k].thread, steps[k].action);
  }

  lemma DoneStep(s: State, t: nat, a: Action)
    requires Enabled(s, t, a) && s.done
    ensures Apply(s, t, a).done
  {
    if !IsSwap(a) {
      OtherActionsAreQuiet(s, t, a);
    } else if SwapsOwnState(a) {
      ThreadOnlyFrame(s, t, a);
    }
  }

  // ------------------------------------------------------------------ flags that are made good

  lemma {:induction false} SoundInEveryRun(states: seq<State>, steps: seq<Step>, i: nat)
    requires IsRun(states, steps) && OwnTakes(states, steps) && i <= |steps|
    ensures Sound(states[i])
  {
    if i == 0 {
      InitIsLive(states[0]);
    } else {
      SoundInEveryRun(states, steps, i - 1);
      SoundStep(states, steps, i - 1);
    }
  }

  lemma SoundStep(states: seq<State>, steps: seq<Step>, k: nat)
    requires IsRun(states, steps) && OwnTakes(states, steps) && k < |steps| && Sound(states[k])
    ensures Sound(states[k + 1])
  {
    assert Enabled(states[k], steps[k].thread, steps[k].action) && !ForeignTake(states[k], steps[k].thread, steps[k].action);
    StepKeepsSound(states[k], steps[k].thread, steps[k].action);
  }

  // Thread x, at step i, drops the last sign of its work.
  ghost predicate DropsAt(states: seq<State>, steps: seq<Step>, i: nat, x: nat)
    requires |states| == |steps| + 1
  {
    i < |steps| && steps[i].thread == x && LostFlag(states[i], x, steps[i].action)
  }

  // Before the barrier fires, a thread that dropped the last sign of its work has none left, is going to
  // look again, or is going to be told.
  ghost predicate MakesGood(states: seq<State>, steps: seq<Step>)
    requires |states| == |steps| + 1
  {
    forall i: nat, k: nat, x: nat :: i < k < |steps| && DropsAt(states, steps, i, x) && Fires(states[k], steps[k]) ==>
      exists j :: i < j <= k && CoveredAt(states[j], x)
  }

  lemma CoveredStep(states: seq<State>, steps: seq<Step>, k: nat, x: nat)
    requires IsRun(states, steps) && OwnTakes(states, steps) && k < |steps| && CoveredAt(states[k], x)
    requires !DropsAt(states, steps, k, x)
    ensures CoveredAt(states[k + 1], x)
  {
    SoundInEveryRun(states, steps, k);
    SoundInEveryRun(states, steps, k + 1);
    assert Enabled(states[k], steps[k].thread, steps[k].action);
    StepKeepsCovered(states[k], steps[k].thread, steps[k].action, x);
  }

  // A thread that is not covered has dropped its flag, and was not covered since.
  lemma {:induction false} LastDrop(states: seq<State>, steps: seq<Step>, k: nat, x: nat) returns (i: nat)
    requires IsRun(states, steps) && OwnTakes(states, steps) && k <= |steps| && !CoveredAt(states[k], x)
    ensures i < k && DropsAt(states, steps, i, x) && forall j :: i < j <= k ==> !CoveredAt(states[j], x)
  {
    if k == 0 {
      InitIsLive(states[0]);
      assert false;
    }
    i := k - 1;
    if CoveredAt(states[i], x) {
      if !DropsAt(states, steps, i, x) {
        CoveredStep(states, steps, i, x);
        assert false;
      }
    } else {
      i := LastDrop(states, steps, i, x);
    }
  }

  lemma FiringIsLive(states: seq<State>, steps: seq<Step>, k: nat)
    requires IsRun(states, steps) && OwnTakes(states, steps) && MakesGood(states, steps)
    requires k < |steps| && Fires(states[k], steps[k])
    ensures Live(states[k]) && Live(states[k + 1])
  {
    SoundInEveryRun(states, steps, k);
    forall x: nat ensures CoveredAt(states[k], x) {
      if !CoveredAt(states[k], x) {
        var i := LastDrop(states, steps, k, x);
        assert false;
      }
    }
    assert !ForeignTake(states[k], steps[k].thread, steps[k].action);
    LiveStep(states, steps, k);
  }

  // The moment the barrier fires.
  lemma FiringIsQuiescent(states: seq<State>, steps: seq<Step>, k: nat)
    requires IsRun(states, steps) && OwnTakes(states, steps) && MakesGood(states, steps) && PaidUp(states, steps)
    requires k < |steps| && Fires(states[k], steps[k])
    ensures AllAsleep(states[k + 1]) && Quiescent(states[k + 1]) && NoneAwake(states[k + 1]) && Live(states[k + 1])
  {
    assert Enabled(states[k], steps[k].thread, steps[k].action);
    FiringIsLive(states, steps, k);
    BarrierIsExact(states[k], steps[k]);
    AsleepIsQuiescent(states[k + 1]);
  }

  // ------------------------------------------------------------------ with stealing

  // Where threads without a node can be.
  predicate Winding(pc: PC) {
    || pc == Next || pc == Wake({}) || pc == Arrive || pc == Check || pc == Commit || pc == Poll || pc == Resume
    || pc == Exited || pc.Scan?
  }

  // No work, no pending wake-up and no unprocessed fact anywhere; threads may still be looking around.
  ghost predicate Drained(s: State) {
    && s.members == multiset{}
    && (forall t :: 0 <= t < |s.threads| ==>
          s.threads[t].comm == {} && s.threads[t].cur.None? && Winding(s.threads[t].pc))
    && (forall n :: 0 <= n < |s.nodes| ==> s.nodes[n].tag == Idle && !s.nodes[n].unprocessed)
  }

  lemma WindingMoves(s: State, t: nat, a: Action)
    requires Drained(s) && Enabled(s, t, a)
    ensures a.Pay? || MovesOn(a) || SwapsOwnState(a)
  {
    assert forall e: Entry :: e !in s.members;
  }

  lemma MovedWinds(s: State, t: nat, th: Thread, a: Action)
    requires MayMove(s, t, th, a) && Winding(th.pc) && th.comm == {} && th.cur.None?
    ensures var th' := Moved(s, t, th, a); Winding(th'.pc) && th'.comm == {} && th'.cur.None?
  {}

  lemma DrainedStays(s: State, t: nat, a: Action)
    requires Drained(s) && Enabled(s, t, a)
    ensures Drained(Apply(s, t, a))
  {
    WindingMoves(s, t, a);
    if !a.Pay? {
      ThreadOnlyFrame(s, t, a);
      MovedWinds(s, t, s.threads[t], a);
    }
  }

  lemma QuiescentIsDrained(s: State)
    requires Quiescent(s) && Placed(s) && NoneAwake(s)
    ensures Drained(s)
  {
    forall t | 0 <= t < |s.threads| ensures Winding(s.threads[t].pc) {
      assert ThreadFine(s, t, s.threads[t]);
    }
  }

  lemma DoneMeansDrained(states: seq<State>, steps: seq<Step>, i: nat)
    requires IsRun(states, steps) && OwnTakes(states, steps) && MakesGood(states, steps) && PaidUp(states, steps)
    requires i <= |steps| && states[i].done
    ensures Drained(states[i])
  {
    if i > 0 {
      DoneMeansDrainedStep(states, steps, i - 1);
    }
  }

  lemma {:induction false} DoneMeansDrainedStep(states: seq<State>, steps: seq<Step>, k: nat)
    requires IsRun(states, steps) && OwnTakes(states, steps) && MakesGood(states, steps) && PaidUp(states, steps)
    requires k < |steps| && states[k + 1].done
    ensures Drained(states[k + 1])
    decreases k
  {
    if states[k].done {
      if k > 0 {
        DoneMeansDrainedStep(states, steps, k - 1);
      }
      assert Enabled(states[k], steps[k].thread, steps[k].action);
      DrainedStays(states[k], steps[k].thread, steps[k].action);
    } else {
      DoneByFiring(states, steps, k);
      FiringIsQuiescent(states, steps, k);
      QuiescentIsDrained(states[k + 1]);
    }
  }

  lemma DoneIsForever(states: seq<State>, steps: seq<Step>, i: nat, j: nat)
    requires IsRun(states, steps) && i <= j <= |steps| && states[i].done
    ensures states[j].done
  {
    for k := i to j
      invariant states[k].done
    {
      DoneNext(states, steps, k);
    }
  }

  lemma DoneNext(states: seq<State>, steps: seq<Step>, k: nat)
    requires IsRun(states, steps) && k < |steps| && states[k].done
    ensures states[k + 1].done
  {
    assert Enabled(states[k], steps[k].thread, steps[k].action);
    DoneStep(states[k], steps[k].thread, steps[k].action);
  }

  /** Termination safety with stealing.  In a run in which no node is taken out of the wrong queue, every
      thief that drops the last sign of its work makes it good, and no activation is half done when the
      counter first reaches zero: once the barrier is done, then and ever after every queue is empty, no
      wake-up is pending, no node is held and no node has unprocessed facts. */
  lemma StealingSafety(states: seq<State>, steps: seq<Step>, i: nat, j: nat)
    requires IsRun(states, steps) && OwnTakes(states, steps) && MakesGood(states, steps) && PaidUp(states, steps)
    requires i <= j <= |steps| && states[i].done
    ensures states[j].done && Drained(states[j])
  {
    DoneIsForever(states, steps, i, j);
    DoneMeansDrained(states, steps, j);
  }

  lemma DrainedIsCovered(states: seq<State>, steps: seq<Step>, k: nat, x: nat)
    requires IsRun(states, steps) && k < |steps| && Fires(states[k], steps[k]) && Drained(states[k + 1])
    ensures CoveredAt(states[k], x)
  {
    assert states[k + 1] == Apply(states[k], steps[k].thread, steps[k].action);
    assert states[k + 1].members == states[k].members;
  }

  lemma DrainedMakesGood(states: seq<State>, steps: seq<Step>)
    requires IsRun(states, steps) && forall k :: 0 <= k < |steps| && Fires(states[k], steps[k]) ==> Drained(states[k + 1])
    ensures MakesGood(states, steps)
  {
    forall i: nat, k: nat, x: nat | i < k < |steps| && DropsAt(states, steps, i, x) && Fires(states[k], steps[k])
      ensures exists j :: i < j <= k && CoveredAt(states[j], x)
    {
      DrainedIsCovered(states, steps, k, x);
    }
  }

  // The barrier fires only when nothing is left to do and all threads sleep.
  ghost predicate FiresQuiescent(states: seq<State>, steps: seq<Step>)
    requires |states| == |steps| + 1
  {
    forall k :: 0 <= k < |steps| && Fires(states[k], steps[k]) ==> Quiescent(states[k + 1])
  }

  ghost predicate DoneIsDrained(states: seq<State>) {
    forall i :: 0 <= i < |states| && states[i].done ==> Drained(states[i])
  }

  lemma AsleepIsNotAwake(s: State)
    requires CounterLaw(s) && Quiescent(s)
    ensures NoneAwake(s)
  {
    forall t | 0 <= t < |s.threads| ensures !Awake(s.threads[t].pc) {
      assert ModeFine(s.threads[t]);
    }
  }

  lemma QuiescentFiring(states: seq<State>, steps: seq<Step>, k: nat)
    requires IsRun(states, steps) && OwnTakes(states, steps)
    requires k < |steps| && Fires(states[k], steps[k]) && Quiescent(states[k + 1])
    ensures !IncrementOwed(states[k]) && Drained(states[k + 1])
  {
    SoundInEveryRun(states, steps, k);
    SoundInEveryRun(states, steps, k + 1);
    assert Enabled(states[k], steps[k].thread, steps[k].action);
    BarrierIsExact(states[k], steps[k]);
    AsleepIsNotAwake(states[k + 1]);
    QuiescentIsDrained(states[k + 1]);
  }

  lemma FiresQuiescentIsExact(states: seq<State>, steps: seq<Step>)
    requires IsRun(states, steps) && OwnTakes(states, steps) && FiresQuiescent(states, steps)
    ensures PaidUp(states, steps) && MakesGood(states, steps)
  {
    forall k | 0 <= k < |steps| && Fires(states[k], steps[k]) ensures !IncrementOwed(states[k]) && Drained(states[k + 1]) {
      QuiescentFiring(states, steps, k);
    }
    DrainedMakesGood(states, steps);
  }

  lemma DoneIsDrainedMakesGood(states: seq<State>, steps: seq<Step>)
    requires IsRun(states, steps) && DoneIsDrained(states)
    ensures MakesGood(states, steps)
  {
    forall k | 0 <= k < |steps| && Fires(states[k], steps[k]) ensures Drained(states[k + 1]) {
      assert states[k + 1] == Apply(states[k], steps[k].thread, steps[k].action) && states[k + 1].done;
    }
    DrainedMakesGood(states, steps);
  }

  /** Both conditions are exact.  The barrier fires only when nothing is left to do and all threads sleep
      if and only if no activation is half done then and every dropped flag is made good; and where no
      activation is half done, done means drained throughout the run if and only if every dropped flag is
      made good. */
  lemma StealingSafetyIsExact(states: seq<State>, steps: seq<Step>)
    requires IsRun(states, steps) && OwnTakes(states, steps)
    ensures FiresQuiescent(states, steps) <==> PaidUp(states, steps) && MakesGood(states, steps)
    ensures PaidUp(states, steps) ==> (DoneIsDrained(states) <==> MakesGood(states, steps))
  {
    if FiresQuiescent(states, steps) {
      FiresQuiescentIsExact(states, steps);
    }
    if DoneIsDrained(states) {
      DoneIsDrainedMakesGood(states, steps);
    }
    if PaidUp(states, steps) && MakesGood(states, steps) {
      forall k | 0 <= k < |steps| && Fires(states[k], steps[k]) ensures Quiescent(states[k + 1]) {
        FiringIsQuiescent(states, steps, k);
      }
      forall i | 0 <= i < |states| && states[i].done ensures Drained(states[i]) {
        DoneMeansDrained(states, steps, i);
      }
    }
  }

  // ------------------------------------------------------------------ without stealing

  lemma NoThiefMakesGood(states: seq<State>, steps: seq<Step>)
    requires |states| == |steps| + 1 && (NoStealing(steps) || KeepsFlags(states, steps))
    ensures KeepsFlags(states, steps) && MakesGood(states, steps)
  {}

  lemma InitResumes(s: State)
    requires Init(s)
    ensures ResumesForWork(s)
  {}

  lemma {:induction false} ResumesInEveryRun(states: seq<State>, steps: seq<Step>, i: nat)
    requires IsRun(states, steps) && OwnTakes(states, steps) && NoStealing(steps) && i <= |steps|
    ensures ResumesForWork(states[i])
  {
    if i == 0 {
      InitResumes(states[0]);
    } else {
      ResumesInEveryRun(states, steps, i - 1);
      ResumesStep(states, steps, i - 1);
    }
  }

  lemma ResumesStep(states: seq<State>, steps: seq<Step>, k: nat)
    requires IsRun(states, steps) && OwnTakes(states, steps) && NoStealing(steps) && k < |steps| && ResumesForWork(states[k])
    ensures ResumesForWork(states[k + 1])
  {
    PlacedBefore(states, steps, k);
    assert Enabled(states[k], steps[k].thread, steps[k].action) && !IsSteal(steps[k].action);
    StepKeepsResumes(states[k], steps[k].thread, steps[k].action);
  }

  // A sleeping thread without work can only look around and leave.
  lemma AsleepStaysAsleep(s: State, t: nat, a: Action)
    requires Live(s) && ResumesForWork(s) && AllAsleep(s) && Enabled(s, t, a) && !IsSteal(a)
    ensures AllAsleep(Apply(s, t, a))
  {
    AsleepIsQuiescent(s);
    QuiescentIsDrained(s);
    WindingMoves(s, t, a);
    assert s.threads[t].pc != Resume && s.threads[t].pc != Next;
    if !a.Pay? {
      ThreadOnlyFrame(s, t, a);
    }
  }

  lemma AsleepStep(states: seq<State>, steps: seq<Step>, k: nat)
    requires IsRun(states, steps) && OwnTakes(states, steps) && NoStealing(steps) && k < |steps| && AllAsleep(states[k])
    ensures AllAsleep(states[k + 1])
  {
    NoThiefMakesGood(states, steps);
    LiveInEveryRun(states, steps, k);
    ResumesInEveryRun(states, steps, k);
    AsleepStaysAsleep(states[k], steps[k].thread, steps[k].action);
  }

  lemma {:induction false} DoneMeansAsleep(states: seq<State>, steps: seq<Step>, i: nat)
    requires IsRun(states, steps) && OwnTakes(states, steps) && NoStealing(steps) && PaidUp(states, steps) && i <= |steps|
    requires states[i].done
    ensures AllAsleep(states[i])
  {
    if i > 0 {
      if states[i - 1].done {
        DoneMeansAsleep(states, steps, i - 1);
        AsleepStep(states, steps, i - 1);
      } else {
        AsleepAtFiring(states, steps, i - 1);
      }
    }
  }

  lemma AsleepAtFiring(states: seq<State>, steps: seq<Step>, k: nat)
    requires IsRun(states, steps) && OwnTakes(states, steps) && NoStealing(steps) && PaidUp(states, steps)
    requires k < |steps| && states[k + 1].done && !states[k].done
    ensures AllAsleep(states[k + 1])
  {
    NoThiefMakesGood(states, steps);
    DoneByFiring(states, steps, k);
    FiringIsQuiescent(states, steps, k);
  }

  /** Termination safety.  In a run without stealing in which no activation is half done when the
      counter reaches zero: once the barrier is done, then and ever after every queue is empty, no
      wake-up is pending, no node has unprocessed facts and every thread is asleep. */
  lemma TerminationSafety(states: seq<State>, steps: seq<Step>, i: nat, j: nat)
    requires IsRun(states, steps) && OwnTakes(states, steps) && NoStealing(steps) && PaidUp(states, steps)
    requires i <= j <= |steps| && states[i].done
    ensures states[j].done && Quiescent(states[j])
  {
    DoneIsForever(states, steps, i, j);
    DoneMeansAsleep(states, steps, j);
    NoThiefMakesGood(states, steps);
    LiveInEveryRun(states, steps, j);
    AsleepIsQuiescent(states[j]);
  }

  /** The condition is exact: done means quiescent throughout a run without stealing if and only if
      no activation is half done when the counter reaches zero. */
  lemma TerminationSafetyIsExact(states: seq<State>, steps: seq<Step>)
    requires IsRun(states, steps) && OwnTakes(states, steps) && NoStealing(steps)
    ensures (forall i :: 0 <= i <= |steps| && states[i].done ==> Quiescent(states[i])) <==> PaidUp(states, steps)
  {
    if PaidUp(states, steps) {
      forall i | 0 <= i <= |steps| && states[i].done ensures Quiescent(states[i]) {
        TerminationSafety(states, steps, i, i);
      }
    } else {
      var i :| 0 <= i < |steps| && Fires(states[i], steps[i]) && IncrementOwed(states[i]);
      CounterInEveryRun(states, steps, i);
      BarrierIsExact(states[i], steps[i]);
      assert states[i + 1].done;
    }
  }
}
