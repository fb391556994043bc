/**
  Runs in which the scheduler fails: the barrier firing too early, a thief losing its work, a node in
  two queues, and the abort of a coordination call.
 */
module SchedulerWitnesses {
  import opened SchedulerModel
  import opened SchedulerPlacement
  import opened SchedulerTermination
  import opened SchedulerRuns
  import opened SchedulerAtomic

  // Tame runs have no thieves and take no node out of a wrong queue; prompt runs may have thieves, but pay
  // for every swap at once; rude runs have no thieves.
  datatype Rules = Tame | Prompt | Rude

  ghost predicate Fits(rules: Rules, s: State, t: nat, a: Action) {
    && (rules.Rude? || !ForeignTake(s, t, a))
    && (if rules.Prompt? then a.Pay? || NoDebts(s) else !IsSteal(a))
  }

  ghost predicate AllFit(rules: Rules, states: seq<State>, steps: seq<Step>)
    requires |states| == |steps| + 1
  {
    forall i :: 0 <= i < |steps| ==> Fits(rules, states[i], steps[i].thread, steps[i].action)
  }

  ghost predicate Reached(s: State, rules: Rules) {
    exists states: seq<State>, steps: seq<Step> ::
      IsRun(states, steps) && AllFit(rules, states, steps) && states[|steps|] == s
  }

  lemma Starts(s: State, rules: Rules)
    requires Init(s)
    ensures Reached(s, rules)
  {
    assert IsRun([s], []) && AllFit(rules, [s], []);
  }

  lemma RunTo(s: State, rules: Rules) returns (states: seq<State>, steps: seq<Step>)
    requires Reached(s, rules)
    ensures IsRun(states, steps) && states[|steps|] == s
    ensures !rules.Prompt? ==> NoStealing(steps)
    ensures rules.Prompt? ==> Atomic(states, steps)
    ensures !rules.Rude? ==> OwnTakes(states, steps)
  {
    states, steps :| IsRun(states, steps) && AllFit(rules, states, steps) && states[|steps|] == s;
  }

  lemma Extended(states: seq<State>, steps: seq<Step>, rules: Rules, t: nat, a: Action, next: State)
    requires IsRun(states, steps) && AllFit(rules, states, steps)
    requires var s := states[|steps|]; Enabled(s, t, a) && next == Apply(s, t, a) && Fits(rules, s, t, a)
    ensures Reached(next, rules)
  {
    var states', steps' := states + [next], steps + [Step(t, a)];
    forall i | 0 <= i < |steps'|
      ensures Enabled(states'[i], steps'[i].thread, steps'[i].action)
      ensures states'[i + 1] == Apply(states'[i], steps'[i].thread, steps'[i].action)
      ensures Fits(rules, states'[i], steps'[i].thread, steps'[i].action)
    {
      assert i < |steps| ==> steps'[i] == steps[i] && states'[i] == states[i] && states'[i + 1] == states[i + 1];
    }
    assert IsRun(states', steps') && AllFit(rules, states', steps') && states'[|steps'|] == next;
  }

  ghost predicate Leads(s: State, rules: Rules, s': State) {
    exists t: nat, a: Action :: Enabled(s, t, a) && Fits(rules, s, t, a) && s' == Apply(s, t, a)
  }

  lemma ReachedLeads(s: State, rules: Rules, s': State)
    requires Reached(s, rules) && Leads(s, rules, s')
    ensures Reached(s', rules)
  {
    var t: nat, a: Action :| Enabled(s, t, a) && Fits(rules, s, t, a) && s' == Apply(s, t, a);
    var states, steps :| IsRun(states, steps) && AllFit(rules, states, steps) && states[|steps|] == s;
    Extended(states, steps, rules, t, a, s');
  }

  // A set of states that runs do not leave.  The runs below are followed through any such set.
  datatype Region = Region(rules: Rules, states: iset<State>)

  ghost predicate Closed(r: Region) {
    forall s, s' :: s in r.states && Leads(s, r.rules, s') ==> s' in r.states
  }

  type ClosedRegion = r: Region | Closed(r) ghost witness Region(Tame, iset{})

  // The smallest one, with all states that are reached from s.
  lemma RegionOf(s: State, rules: Rules) returns (w: ClosedRegion)
    requires Init(s)
    ensures s in w.states && w == Region(rules, iset r: State | Reached(r, rules))
  {
    Starts(s, rules);
    forall r, r' | Reached(r, rules) && Leads(r, rules, r') ensures Reached(r', rules) {
      ReachedLeads(r, rules, r');
    }
    w := Region(rules, iset r: State | Reached(r, rules));
  }

  predicate Ready(s: State, t: nat) {
    t < |s.threads| && !s.aborted && s.threads[t].debt == NoDebt
  }

  ghost predicate Calm(s: State, rules: Rules) {
    rules.Prompt? ==> NoDebts(s)
  }

  lemma Goes(w: ClosedRegion, s: State, t: nat, a: Action, next: State) returns (s': State)
    requires s in w.states && Enabled(s, t, a) && next == Apply(s, t, a) && Fits(w.rules, s, t, a)
    ensures s' in w.states && s' == next
  {
    s' := next;
    assert Leads(s, w.rules, s');
  }

  // ------------------------------------------------------------------ steps by kind

  // A thread without a node, with comm to wake.
  function Free(ts: TState, pc: PC, comm: set<nat>): Thread {
    Thread(ts, pc, None, comm, NoDebt)
  }

  function Runs(n: nat, pc: PC, comm: set<nat>): Thread {
    Thread(Active, pc, Some(n), comm, NoDebt)
  }

  function Plain(owner: nat, tag: Tag, unprocessed: bool): Node {
    Node(owner, None, false, tag, unprocessed, None)
  }

  lemma Walks(w: ClosedRegion, s: State, t: nat, a: Action, th: Thread) returns (s': State)
    requires s in w.states && Ready(s, t) && (MovesOn(a) || SwapsOwnState(a)) && MayMove(s, t, s.threads[t], a)
    requires Fits(w.rules, s, t, a)
    requires th == Moved(s, t, s.threads[t], a)
    ensures s' in w.states && s' == s.(threads := s.threads[t := th])
  {
    s' := Goes(w, s, t, a, SetThread(s, t, th));
  }

  lemma Pays(w: ClosedRegion, s: State, t: nat) returns (s': State)
    requires s in w.states && t < |s.threads| && !s.aborted && s.threads[t].debt != NoDebt
    ensures s' in w.states && s' == PayDebt(s, t)
  {
    s' := Goes(w, s, t, Pay, PayDebt(s, t));
  }

  lemma Pops(w: ClosedRegion, s: State, t: nat, k: Kind, n: nat) returns (s': State)
    requires s in w.states && Ready(s, t) && Calm(s, w.rules)
    requires s.threads[t] == Free(Active, Next, {}) && n < |s.nodes| && Entry(t, k, n) in s.members
    ensures s' in w.states
    ensures s' == s.(threads := s.threads[t := Runs(n, Run, {})],
                             nodes := s.nodes[n := s.nodes[n].(tag := Working(t))],
                             members := s.members - multiset{Entry(t, k, n)})
  {
    s' := Goes(w, s, t, Pop(k, n), Apply(s, t, Pop(k, n)));
  }

  // The thread runs its node to the end, consumes its facts and leaves it idle.
  lemma Leaves(w: ClosedRegion, s: State, t: nat, n: nat) returns (s': State)
    requires s in w.states && Ready(s, t) && Calm(s, w.rules) && n < |s.nodes|
    requires s.threads[t] == Runs(n, Next, s.threads[t].comm)
    requires s.nodes[n] == Plain(t, Working(t), false)
    ensures s' in w.states
    ensures s' == s.(threads := s.threads[t := Free(Active, Next, s.threads[t].comm)],
                             nodes := s.nodes[n := Plain(t, Idle, false)])
  {
    s' := Goes(w, s, t, ReleaseCurrent(false), Apply(s, t, ReleaseCurrent(false)));
  }

  lemma RunsDry(w: ClosedRegion, s: State, t: nat, n: nat) returns (s': State)
    requires s in w.states && Ready(s, t) && Calm(s, w.rules) && n < |s.nodes|
    requires s.threads[t] == Runs(n, Run, s.threads[t].comm)
    requires s.nodes[n] == Plain(t, Working(t), true)
    ensures s' in w.states
    ensures s' == s.(threads := s.threads[t := Free(Active, Next, s.threads[t].comm)],
                             nodes := s.nodes[n := Plain(t, Idle, false)])
  {
    var s1 := Goes(w, s, t, ClearFacts, s.(nodes := s.nodes[n := Plain(t, Working(t), false)]));
    var s2 := Walks(w, s1, t, FinishNode, Runs(n, Next, s.threads[t].comm));
    s' := Leaves(w, s2, t, n);
  }

  // The thread runs a node that it is told to give to thread x.
  lemma Retargets(w: ClosedRegion, s: State, t: nat, n: nat, x: nat) returns (s': State)
    requires s in w.states && Ready(s, t) && Calm(s, w.rules) && n < |s.nodes| && x < |s.threads|
    requires s.threads[t] == Runs(n, Run, {}) && s.nodes[n].lock.None?
    ensures s' in w.states
    ensures s' == s.(threads := s.threads[t := Runs(n, Next, {})],
                             nodes := s.nodes[n := s.nodes[n].(pinned := Some(x))])
  {
    var s1 := Goes(w, s, t, RetargetCurrent(Some(x)), s.(nodes := s.nodes[n := s.nodes[n].(pinned := Some(x))]));
    s' := Walks(w, s1, t, FinishNode, Runs(n, Next, {}));
  }

  lemma GivesAway(w: ClosedRegion, s: State, t: nat, n: nat, x: nat) returns (s': State)
    requires s in w.states && Ready(s, t) && Calm(s, w.rules) && n < |s.nodes| && x < |s.threads|
    requires s.threads[t] == Runs(n, Next, {})
    requires s.nodes[n].lock.None? && s.nodes[n].pinned == Some(x) && s.nodes[n].owner != x
    ensures s' in w.states
    ensures s' == s.(threads := s.threads[t := Free(Active, Next, {x})],
                             nodes := s.nodes[n := Node(x, Some(x), false, InQueue(NormalStatic), s.nodes[n].unprocessed, None)],
                             members := s.members + multiset{Entry(x, NormalStatic, n)})
  {
    Released(s, t, n, x);
    s' := Goes(w, s, t, ReleaseCurrent(false), Release(s, t, false));
  }

  lemma Released(s: State, t: nat, n: nat, x: nat)
    requires t < |s.threads| && n < |s.nodes| && s.threads[t] == Runs(n, Next, {})
    requires s.nodes[n].pinned == Some(x) && s.nodes[n].owner != x && s.nodes[n].lock.None?
    ensures Release(s, t, false) == s.(threads := s.threads[t := Free(Active, Next, {x})],
                                       nodes := s.nodes[n := Node(x, Some(x), false, InQueue(NormalStatic), s.nodes[n].unprocessed, None)],
                                       members := s.members + multiset{Entry(x, NormalStatic, n)})
  {
    assert {} + {x} == {x};
  }

  lemma HandsOver(w: ClosedRegion, s: State, t: nat, n: nat, x: nat) returns (s': State)
    requires s in w.states && Ready(s, t) && Calm(s, w.rules) && n < |s.nodes| && x < |s.threads|
    requires s.threads[t] == Runs(n, Run, {}) && s.nodes[n].lock.None? && s.nodes[n].owner != x
    ensures s' in w.states
    ensures s' == s.(threads := s.threads[t := Free(Active, Next, {x})],
                             nodes := s.nodes[n := Node(x, Some(x), false, InQueue(NormalStatic), s.nodes[n].unprocessed, None)],
                             members := s.members + multiset{Entry(x, NormalStatic, n)})
  {
    var s1 := Retargets(w, s, t, n, x);
    s' := GivesAway(w, s1, t, n, x);
  }

  // The thread has no work left and wakes thread x.
  lemma Signals(w: ClosedRegion, s: State, t: nat, x: nat) returns (s': State)
    requires s in w.states && Ready(s, t) && Calm(s, w.rules) && x < |s.threads| && x != t
    requires s.threads[t] == Free(Active, Next, {x}) && !HasWork(s, t)
    ensures s' in w.states
    ensures s' == Activate(s.(threads := s.threads[t := Free(Active, Wake({}), {x})]), t, x)
  {
    var s1 := Walks(w, s, t, StartWaking, Free(Active, Wake({x}), {x}));
    assert {x} - {x} == {};
    s' := Goes(w, s1, t, WakeOne(x), Activate(s.(threads := s.threads[t := Free(Active, Wake({}), {x})]), t, x));
  }

  // The thread looks for work, finds none and goes to sleep; the counter is not updated yet.
  lemma LiesDown(w: ClosedRegion, s: State, t: nat) returns (s': State)
    requires s in w.states && Ready(s, t) && Calm(s, w.rules)
    requires s.threads[t] == Free(Active, Wake({}), s.threads[t].comm) && !HasWork(s, t)
    ensures s' in w.states
    ensures s' == s.(threads := s.threads[t := Free(Inactive, Poll, {}).(debt := OwesDecrement)])
  {
    var s1 := Walks(w, s, t, EndWaking, Free(Active, Arrive, {}));
    var s2 := Walks(w, s1, t, EnterLoop, Free(Active, Check, {}));
    var s3 := Walks(w, s2, t, TestWork, Free(Active, Commit, {}));
    s' := Walks(w, s3, t, TrySleep, Free(Inactive, Poll, {}).(debt := OwesDecrement));
  }

  lemma FallsAsleep(w: ClosedRegion, s: State, t: nat) returns (s': State)
    requires s in w.states && Ready(s, t) && Calm(s, w.rules) && !s.done && s.counter > 1
    requires s.threads[t] == Free(Active, Wake({}), s.threads[t].comm) && !HasWork(s, t)
    ensures s' in w.states
    ensures s' == s.(threads := s.threads[t := Free(Inactive, Poll, {})], counter := s.counter - 1)
  {
    var s1 := LiesDown(w, s, t);
    s' := Pays(w, s1, t);
  }

  // The first two steps of a coordination call.
  lemma Begins(w: ClosedRegion, s: State, t: nat, n: nat, op: Op) returns (s': State)
    requires s in w.states && Ready(s, t) && Calm(s, w.rules) && n < |s.nodes|
    requires s.threads[t].pc == Run && s.threads[t].cur != Some(n) && s.nodes[n].lock.None? && !op.SetOwner?
    ensures s' in w.states && s' == Begin(s, t, n, op)
  {
    s' := Goes(w, s, t, BeginOp(n, op), Begin(s, t, n, op));
  }

  lemma Looks(w: ClosedRegion, s: State, t: nat) returns (s': State)
    requires s in w.states && Ready(s, t) && Calm(s, w.rules)
    requires s.threads[t].pc.Coord? && s.threads[t].pc.phase.Look? && s.threads[t].pc.node < |s.nodes|
    ensures s' in w.states && s' == Look1(s, t)
  {
    s' := Goes(w, s, t, LookState, Look1(s, t));
  }

  // ------------------------------------------------------------------ the barrier firing too early

  const GO := Free(Active, Next, {})

  // Two threads and one node, which is in the queue that its tag names.
  function One(t0: Thread, t1: Thread, nd: Node, counter: int): State {
    State([t0, t1], [nd], Slot(nd, 0), counter, false, false)
  }

  // Thread 0 hands its node to the sleeping thread 1 and is stopped between the swap and the
  // counter update of activate_thread.  Thread 1 hands the node back and goes to sleep.

  const HANDED := Node(1, Some(1), false, InQueue(NormalStatic), true, None)
  const STOPPED := Thread(Active, Wake({}), None, {1}, OwesIncrement)
  const RETURNED := Node(0, Some(0), false, InQueue(NormalStatic), true, None)

  const START_ONE := One(GO, GO, Plain(0, InQueue(NormalMoving), true), 2)

  lemma EarlySleep(w: ClosedRegion) returns (s: State)
    requires START_ONE in w.states && w.rules == Tame
    ensures s in w.states && s == One(GO, Free(Inactive, Check, {}), Plain(0, InQueue(NormalMoving), true), 1)
  {
    s := Walks(w, START_ONE, 1, StartWaking, Free(Active, Wake({}), {}));
    s := FallsAsleep(w, s, 1);
    s := Walks(w, s, 1, TestDone, Free(Inactive, Check, {}));
  }

  lemma EarlyHandOver(w: ClosedRegion) returns (s: State)
    requires START_ONE in w.states && w.rules == Tame
    ensures s in w.states && s == One(STOPPED, Free(ActiveNewWork, Check, {}), HANDED, 1)
  {
    s := EarlySleep(w);
    s := Pops(w, s, 0, NormalMoving, 0);
    s := HandsOver(w, s, 0, 0, 1);
    s := Signals(w, s, 0, 1);
  }

  lemma EarlyHandBack(w: ClosedRegion) returns (s: State)
    requires START_ONE in w.states && w.rules == Tame
    ensures s in w.states && s == One(STOPPED, Free(Active, Next, {0}), RETURNED, 1)
  {
    s := EarlyHandOver(w);
    s := Walks(w, s, 1, TestWork, Free(ActiveNewWork, Resume, {}));
    s := Walks(w, s, 1, WakeSelf, GO);
    s := Pops(w, s, 1, NormalStatic, 0);
    s := HandsOver(w, s, 1, 0, 0);
  }

  lemma EarlyLastSleep(w: ClosedRegion) returns (s: State)
    requires START_ONE in w.states && w.rules == Tame
    ensures s in w.states
    ensures s == One(STOPPED.(tstate := ActiveNewWork), Free(Inactive, Poll, {}).(debt := OwesDecrement), RETURNED, 1)
  {
    s := EarlyHandBack(w);
    s := Signals(w, s, 1, 0);
    s := LiesDown(w, s, 1);
  }

  lemma EarlyFires(w: ClosedRegion) returns (s: State)
    requires START_ONE in w.states && w.rules == Tame
    ensures s in w.states
    ensures s == One(STOPPED.(tstate := ActiveNewWork), Free(Inactive, Poll, {}), RETURNED, 0).(done := true)
  {
    s := EarlyLastSleep(w);
    s := Pays(w, s, 1);
  }

  /** With the swap and the counter update as two steps, there is a run without stealing in which
      the barrier is done while a thread is active and has a node with unprocessed facts queued. */
  lemma BarrierCanFireEarly() returns (states: seq<State>, steps: seq<Step>)
    ensures IsRun(states, steps) && NoStealing(steps) && OwnTakes(states, steps) && !PaidUp(states, steps)
    ensures var s := states[|steps|];
            && |s.threads| == 2 && |s.nodes| == 1
            && s.done && s.threads[0].tstate == ActiveNewWork && HasWork(s, 0)
            && s.nodes[0].unprocessed && !Quiescent(s)
  {
    var w := RegionOf(START_ONE, Tame);
    var s := EarlyFires(w);
    assert Entry(0, NormalStatic, 0) in s.members;
    states, steps := RunTo(s, Tame);
    TerminationSafetyIsExact(states, steps);
  }

  // ------------------------------------------------------------------ a thief that loses its work

  function Two(t0: Thread, t1: Thread, a: Node, b: Node, counter: int): State {
    State([t0, t1], [a, b], Slot(a, 0) + Slot(b, 1), counter, false, false)
  }

  // Thread 1 runs out of work, sleeps, and in a later round tries to steal: thread 0 is active and has
  // one node, of which it gives none away.  Before thread 1 gives up, thread 0 sends it work and sleeps.

  const WAITING := Plain(0, InQueue(NormalMoving), true)
  const QUEUED := Plain(1, InQueue(NormalMoving), true)
  const THIEF := Free(Active, Scan(true, true, false), {})

  const START_TWO := Two(GO, GO, WAITING, QUEUED, 2)

  lemma ThiefRunsOut(w: ClosedRegion) returns (s: State)
    requires START_TWO in w.states
    ensures s in w.states && s == Two(GO, GO, WAITING, Plain(1, Idle, false), 2)
  {
    s := Pops(w, START_TWO, 1, NormalMoving, 1);
    s := RunsDry(w, s, 1, 1);
  }

  lemma ThiefSleeps(w: ClosedRegion) returns (s: State)
    requires START_TWO in w.states && w.rules == Prompt
    ensures s in w.states && s == Two(GO, Free(Inactive, Check, {}), WAITING, Plain(1, Idle, false), 1)
  {
    s := ThiefRunsOut(w);
    s := Walks(w, s, 1, StartWaking, Free(Active, Wake({}), {}));
    s := FallsAsleep(w, s, 1);
    s := Walks(w, s, 1, TestDone, Free(Inactive, Check, {}));
  }

  // Thread 0 is active and has work when the thief looks at it.
  lemma ThiefScans(w: ClosedRegion) returns (s: State)
    requires START_TWO in w.states && w.rules == Prompt
    ensures s in w.states && s == Two(GO, THIEF, WAITING, Plain(1, Idle, false), 2)
  {
    s := ThiefSleeps(w);
    s := Walks(w, s, 1, TestWork, Free(Inactive, Commit, {}));
    s := Walks(w, s, 1, BeginSteal, Free(Inactive, Scan(true, false, false), {}));
    s := Walks(w, s, 1, StealSelfActivate, THIEF.(debt := OwesIncrement));
    s := Pays(w, s, 1);
  }

  lemma ThiefIsSent(w: ClosedRegion) returns (s: State)
    requires START_TWO in w.states && w.rules == Prompt
    ensures s in w.states && s == Two(Free(Active, Next, {1}), THIEF, Plain(0, Idle, false), QUEUED, 2)
  {
    s := ThiefScans(w);
    s := Pops(w, s, 0, NormalMoving, 0);
    assert {} + {1} == {1};
    s := Goes(w, s, 0, Send(1), Two(Runs(0, Run, {1}), THIEF, Plain(0, Working(0), true), QUEUED, 2));
    s := RunsDry(w, s, 0, 0);
  }

  lemma ThiefIsWoken(w: ClosedRegion) returns (s: State)
    requires START_TWO in w.states && w.rules == Prompt
    ensures s in w.states
    ensures s == Two(Free(Inactive, Poll, {}), THIEF.(tstate := ActiveNewWork), Plain(0, Idle, false), QUEUED, 1)
  {
    s := ThiefIsSent(w);
    s := Signals(w, s, 0, 1);
    s := FallsAsleep(w, s, 0);
  }

  lemma ThiefGivesUp(w: ClosedRegion) returns (s: State)
    requires START_TWO in w.states && w.rules == Prompt
    ensures s in w.states
    ensures s == Two(Free(Inactive, Poll, {}), Free(Active, Commit, {}), Plain(0, Idle, false), QUEUED, 1)
  {
    s := ThiefIsWoken(w);
    s := Walks(w, s, 1, StealGiveUp, Free(Active, Commit, {}));
  }

  const LOST := Two(Free(Inactive, Poll, {}), Free(Inactive, Poll, {}), Plain(0, Idle, false), QUEUED, 0).(done := true)

  lemma ThiefLiesDown(w: ClosedRegion) returns (s: State)
    requires START_TWO in w.states && w.rules == Prompt
    ensures s in w.states && s == LOST
  {
    s := ThiefGivesUp(w);
    s := Walks(w, s, 1, TrySleep, Free(Inactive, Poll, {}).(debt := OwesDecrement));
    s := Pays(w, s, 1);
  }

  lemma RunOfThief() returns (states: seq<State>, steps: seq<Step>)
    ensures IsRun(states, steps) && OwnTakes(states, steps) && Atomic(states, steps) && states[|steps|] == LOST
  {
    var w := RegionOf(START_TWO, Prompt);
    var s := ThiefLiesDown(w);
    states, steps := RunTo(s, Prompt);
  }

  /** With stealing, and even with atomic swaps, there is a run in which the barrier is done while a
      node with unprocessed facts is queued: a thief dropped the flag that told it so. */
  lemma ThiefCanLoseItsWork() returns (states: seq<State>, steps: seq<Step>)
    ensures IsRun(states, steps) && OwnTakes(states, steps) && Atomic(states, steps) && !MakesGood(states, steps)
    ensures var s := states[|steps|];
            && |s.threads| == 2 && |s.nodes| == 2
            && s.done && AllAsleep(s) && HasWork(s, 1) && s.nodes[1].unprocessed && !Drained(s)
  {
    states, steps := RunOfThief();
    assert Entry(1, NormalMoving, 1) in LOST.members;
    AtomicStealingIsExact(states, steps);
  }

  // ------------------------------------------------------------------ coordination calls

  const CALLED := Node(1, Some(0), false, InQueue(NormalMoving), true, Some(0))

  function Calls(phase: Phase): Thread {
    Runs(0, Coord(1, MakeStatic, NormalMoving, phase), {})
  }

  // Thread 0 makes a node static that waits in the queue of thread 1.
  lemma ForeignNodeSeen(w: ClosedRegion) returns (s: State)
    requires START_TWO in w.states && w.rules == Rude
    ensures s in w.states && s == Two(Calls(Take(NormalMoving, 0)), GO, Plain(0, Working(0), true), CALLED, 2)
  {
    s := Pops(w, START_TWO, 0, NormalMoving, 0);
    assert s == Two(Runs(0, Run, {}), GO, Plain(0, Working(0), true), QUEUED, 2);
    s := Begins(w, s, 0, 1, MakeStatic);
    assert s == Two(Calls(Look(0)), GO, Plain(0, Working(0), true), CALLED, 2);
    s := Looks(w, s, 0);
  }

  lemma ForeignNodeTaken(w: ClosedRegion) returns (s: State)
    requires START_TWO in w.states && w.rules == Rude
    ensures s in w.states
    ensures s == State([Calls(Put), GO], [Plain(0, Working(0), true), CALLED.(tag := Changing(0, StaticChange))],
                       multiset{Entry(1, NormalMoving, 1)}, 2, false, false)
  {
    s := ForeignNodeSeen(w);
    assert s.members == multiset{Entry(1, NormalMoving, 1)};
    s := Goes(w, s, 0, TakeOut, Take1(s, 0));
  }

  lemma ForeignNodePut(w: ClosedRegion) returns (s: State)
    requires START_TWO in w.states && w.rules == Rude
    ensures s in w.states
    ensures s == State([Runs(0, Run, {}), GO], [Plain(0, Working(0), true), CALLED.(tag := InQueue(NormalStatic), lock := None)],
                       multiset{Entry(1, NormalMoving, 1), Entry(0, NormalStatic, 1)}, 2, false, false)
  {
    s := ForeignNodeTaken(w);
    assert PutOver(s, 0).members == multiset{Entry(1, NormalMoving, 1), Entry(0, NormalStatic, 1)};
    s := Goes(w, s, 0, PutBack, PutOver(s, 0));
  }

  /** A static call on a queued node of another thread puts the node into the queues of two threads. */
  lemma NodeInTwoQueues() returns (states: seq<State>, steps: seq<Step>)
    ensures IsRun(states, steps) && NoStealing(steps) && !OwnTakes(states, steps)
    ensures var s := states[|steps|];
            && |s.threads| == 2 && |s.nodes| == 2 && !Placed(s)
            && Entry(0, NormalStatic, 1) in s.members && Entry(1, NormalMoving, 1) in s.members
  {
    var w := RegionOf(START_TWO, Rude);
    var s := ForeignNodePut(w);
    assert s.members[Entry(1, NormalMoving, 1)] == 1;
    states, steps := RunTo(s, Rude);
    PlacementInEveryRun(states, steps);
  }

  lemma IdleNodeCalled(w: ClosedRegion) returns (s: State)
    requires START_TWO in w.states && w.rules == Tame
    ensures s in w.states
    ensures s == Two(Runs(0, Coord(1, RemovePriority(false), NormalMoving, Look(0)), {}), GO, Plain(0, Working(0), true),
                     Node(1, None, false, Idle, false, Some(0)), 2)
  {
    s := ThiefRunsOut(w);
    s := Pops(w, s, 0, NormalMoving, 0);
    s := Begins(w, s, 0, 1, RemovePriority(false));
  }

  /** The abort of remove_node_priority is reached in a run that takes no node out of a wrong queue. */
  lemma AbortIsReached() returns (states: seq<State>, steps: seq<Step>)
    ensures IsRun(states, steps) && NoStealing(steps) && OwnTakes(states, steps)
    ensures states[|steps|].aborted
  {
    var w := RegionOf(START_TWO, Tame);
    var s := IdleNodeCalled(w);
    s := Looks(w, s, 0);
    states, steps := RunTo(s, Tame);
  }
}
