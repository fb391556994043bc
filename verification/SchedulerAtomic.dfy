/**
  Runs in which the swap of a thread state and its counter update are never separated: there the
  termination barrier needs no further condition.
 */
module SchedulerAtomic {
  import opened SchedulerModel
  import opened SchedulerPlacement
  import opened SchedulerTermination
  import opened SchedulerRuns

  ghost predicate NoDebts(s: State) {
    forall t :: 0 <= t < |s.threads| ==> s.threads[t].debt == NoDebt
  }

  ghost predicate OneDebtor(s: State) {
    forall t, u :: 0 <= t < |s.threads| && 0 <= u < |s.threads| && s.threads[t].debt != NoDebt && s.threads[u].debt != NoDebt ==> t == u
  }

  // A swap is followed at once by the update it owes.
  ghost predicate Atomic(states: seq<State>, steps: seq<Step>)
    requires |states| == |steps| + 1
  {
    forall i :: 0 <= i < |steps| && !steps[i].action.Pay? ==> NoDebts(states[i])
  }

  lemma WakingOwesTheSame(s: State, t: nat, a: Action, x: nat)
    requires Enabled(s, t, a) && x < |s.threads| && x != t && (a.WakeOne? || a.RingOwner?)
    ensures x < |Apply(s, t, a).threads| && Apply(s, t, a).threads[x].debt == s.threads[x].debt
  {}

  // A step changes only the debt of the thread that makes it.
  lemma OthersOweTheSame(s: State, t: nat, a: Action, x: nat)
    requires Enabled(s, t, a) && x < |s.threads| && x != t
    ensures x < |Apply(s, t, a).threads| && Apply(s, t, a).threads[x].debt == s.threads[x].debt
  {
    if !IsSwap(a) {
      OtherActionsAreQuiet(s, t, a);
      assert Apply(s, t, a).threads[x] == s.threads[x];
    } else if SwapsOwnState(a) {
      ThreadOnlyFrame(s, t, a);
    } else if a.WakeOne? || a.RingOwner? {
      WakingOwesTheSame(s, t, a, x);
    }
  }

  lemma StepKeepsSize(s: State, t: nat, a: Action)
    requires Enabled(s, t, a)
    ensures |Apply(s, t, a).threads| == |s.threads|
  {
    if !IsSwap(a) {
      OtherActionsAreQuiet(s, t, a);
    } else if SwapsOwnState(a) {
      ThreadOnlyFrame(s, t, a);
    }
  }

  lemma PaidInFull(s: State, t: nat)
    requires Enabled(s, t, Pay)
    ensures Apply(s, t, Pay).threads[t].debt == NoDebt
  {}

  lemma StepKeepsOneDebtor(s: State, t: nat, a: Action)
    requires OneDebtor(s) && Enabled(s, t, a) && (!a.Pay? ==> NoDebts(s))
    ensures OneDebtor(Apply(s, t, a))
  {
    var s' := Apply(s, t, a);
    StepKeepsSize(s, t, a);
    if a.Pay? {
      PaidInFull(s, t);
    }
    forall x | 0 <= x < |s'.threads| && x != t ensures s'.threads[x].debt == NoDebt {
      OthersOweTheSame(s, t, a, x);
      if a.Pay? {
        assert s.threads[t].debt != NoDebt;
      }
    }
  }

  lemma {:induction false} OneDebtorInEveryRun(states: seq<State>, steps: seq<Step>, i: nat)
    requires IsRun(states, steps) && Atomic(states, steps) && i <= |steps|
    ensures OneDebtor(states[i])
  {
    if i > 0 {
      OneDebtorInEveryRun(states, steps, i - 1);
      var k := i - 1;
      assert Enabled(states[k], steps[k].thread, steps[k].action);
      StepKeepsOneDebtor(states[k], steps[k].thread, steps[k].action);
    }
  }

  /** Where swap and update are one step, no activation is half done when the counter reaches zero. */
  lemma AtomicIsPaidUp(states: seq<State>, steps: seq<Step>)
    requires IsRun(states, steps) && Atomic(states, steps)
    ensures PaidUp(states, steps)
  {
    forall i | 0 <= i < |steps| && Fires(states[i], steps[i]) ensures !IncrementOwed(states[i]) {
      OneDebtorInEveryRun(states, steps, i);
    }
  }

  /** Termination safety for atomic swaps and without stealing needs no condition on the counter: once
      the barrier is done, then and ever after every queue is empty, no wake-up is pending and no node
      has unprocessed facts. */
  lemma AtomicTerminationSafety(states: seq<State>, steps: seq<Step>, i: nat, j: nat)
    requires IsRun(states, steps) && OwnTakes(states, steps) && NoStealing(steps) && Atomic(states, steps)
    requires i <= j <= |steps| && states[i].done
    ensures states[j].done && Quiescent(states[j])
  {
    AtomicIsPaidUp(states, steps);
    TerminationSafety(states, steps, i, j);
  }

  /** The same with stealing, where every thief that drops the last sign of its work makes it good. */
  lemma AtomicStealingSafety(states: seq<State>, steps: seq<Step>, i: nat, j: nat)
    requires IsRun(states, steps) && OwnTakes(states, steps) && MakesGood(states, steps) && Atomic(states, steps)
    requires i <= j <= |steps| && states[i].done
    ensures states[j].done && Drained(states[j])
  {
    AtomicIsPaidUp(states, steps);
    StealingSafety(states, steps, i, j);
  }

  /** That condition is exact. */
  lemma AtomicStealingIsExact(states: seq<State>, steps: seq<Step>)
    requires IsRun(states, steps) && OwnTakes(states, steps) && Atomic(states, steps)
    ensures DoneIsDrained(states) <==> MakesGood(states, steps)
  {
    AtomicIsPaidUp(states, steps);
    StealingSafetyIsExact(states, steps);
  }
}
