/**
  The protocol of the tree barrier as a step system: every thread works on its node of the tree, and
  all spin on the sense that the root flips.
 */
module BarrierProtocols {
  import opened BarrierTrees

  // Outside of wait; spinning on the children; after that loop; children_count renewed; parent
  // told, or sense flipped, and spinning on the sense.
  datatype Phase = Out | In | Gathered | Renewed | Spinning

  // waits: how many waits the thread has left.
  datatype Thread = Thread(phase: Phase, waits: nat, sense: bool)

  datatype State = State(threads: seq<Thread>, children: seq<int>, sense: bool)

  datatype Action = Enter(i: nat) | Gather(i: nat) | Renew(i: nat) | Signal(i: nat) | Leave(i: nat)

  function Entered(t: Thread): nat {
    if t.phase.Out? then t.waits else t.waits + 1
  }

  // How often the node has told its parent, and how often it has heard from all its children.
  function Signals(t: Thread): nat {
    if t.phase.Spinning? then t.waits + 1 else t.waits
  }

  function Gathers(t: Thread): nat {
    if t.phase.Spinning? || t.phase.Renewed? then t.waits + 1 else t.waits
  }

  predicate Fits(nodes: seq<Node>, s: State) {
    |s.threads| == |s.children| == |nodes|
  }

  predicate Enabled(nodes: seq<Node>, s: State, a: Action)
    requires Fits(nodes, s)
  {
    a.i < |nodes| &&
    match a
    case Enter(i) => s.threads[i].phase.Out?
    case Gather(i) => s.threads[i].phase.In? && s.children[i] <= 0
    case Renew(i) => s.threads[i].phase.Gathered?
    case Signal(i) => s.threads[i].phase.Renewed?
    case Leave(i) => s.threads[i].phase.Spinning? && s.sense == s.threads[i].sense
  }

  function Apply(nodes: seq<Node>, s: State, a: Action): (r: State)
    requires Fits(nodes, s) && Enabled(nodes, s, a)
    requires forall i :: 0 <= i < |nodes| ==> -1 <= nodes[i].parent < |nodes|
    ensures Fits(nodes, r)
  {
    var t := s.threads[a.i];
    match a
    case Enter(i) => s.(threads := s.threads[i := t.(phase := In)])
    case Gather(i) => s.(threads := s.threads[i := t.(phase := Gathered)])
    case Renew(i) => s.(threads := s.threads[i := t.(phase := Renewed)], children := s.children[i := nodes[i].count])
    case Signal(i) =>
      var ts := s.threads[i := t.(phase := Spinning)];
      var p := nodes[i].parent;
      if p == -1 then State(ts, s.children, !s.sense)
      else State(ts, s.children[p := s.children[p] - 1], s.sense)
    case Leave(i) => s.(threads := s.threads[i := Thread(Out, t.waits + 1, !t.sense)])
  }

  function Init(nodes: seq<Node>): (s: State)
    ensures Fits(nodes, s)
  {
    State(seq(|nodes|, _ => Thread(Out, 0, true)), seq(|nodes|, i requires 0 <= i < |nodes| => nodes[i].count), false)
  }

  // ------------------------------------------------------------------ the invariant

  // Children of p among the first n nodes that have told it g times.
  function Pending(nodes: seq<Node>, ts: seq<Thread>, p: int, g: nat, n: nat): nat
    requires n <= |nodes| == |ts|
  {
    if n == 0 then 0 else
    Pending(nodes, ts, p, g, n - 1) + if nodes[n - 1].parent == p && Signals(ts[n - 1]) == g then 1 else 0
  }

  // The episodes that are over: the flips of the sense.
  function Episodes(s: State): nat
    requires s.threads != []
  {
    Signals(s.threads[0])
  }

  predicate Odd(n: nat) {
    n > 0 && !Odd(n - 1)
  }

  ghost predicate Senses(s: State) {
    && s.threads != []
    && s.sense == Odd(Episodes(s))
    && (forall i :: 0 <= i < |s.threads| ==> s.threads[i].sense == Odd(s.threads[i].waits + 1))
    && (forall i :: 0 <= i < |s.threads| ==> s.threads[i].waits <= Episodes(s))
  }

  ghost predicate Edges(nodes: seq<Node>, s: State) {
    && Fits(nodes, s)
    && (forall c :: 0 < c < |nodes| && 0 <= nodes[c].parent < c ==>
          var p := nodes[c].parent;
          && Gathers(s.threads[p]) <= Signals(s.threads[c]) <= Gathers(s.threads[p]) + 1
          && (s.threads[p].phase.Gathered? ==> Signals(s.threads[c]) == Gathers(s.threads[p]) + 1))
  }

  ghost predicate Counts(nodes: seq<Node>, s: State) {
    && Fits(nodes, s)
    && (forall i :: 0 <= i < |nodes| ==> s.children[i] == Pending(nodes, s.threads, i, Gathers(s.threads[i]), |nodes|))
  }

  ghost predicate Inv(nodes: seq<Node>, s: State) {
    Subtree(nodes, 0, -1) && Senses(s) && Edges(nodes, s) && Counts(nodes, s)
  }

  // Every node has told its parent in every episode that is over.
  lemma {:induction false} SignalsReach(nodes: seq<Node>, s: State, i: nat)
    requires Inv(nodes, s) && i < |nodes|
    ensures Episodes(s) <= Signals(s.threads[i]) <= s.threads[i].waits + 1
    decreases i
  {
    if i > 0 {
      SignalsReach(nodes, s, nodes[i].parent);
    }
  }

  lemma {:induction false} PendingAll(nodes: seq<Node>, ts: seq<Thread>, p: int, g: nat, n: nat)
    requires n <= |nodes| == |ts|
    requires forall c :: 0 <= c < n && nodes[c].parent == p ==> Signals(ts[c]) == g
    ensures Pending(nodes, ts, p, g, n) == Kids(nodes[..n], p)
  {
    if n > 0 {
      PendingAll(nodes, ts, p, g, n - 1);
      assert nodes[..n][..n - 1] == nodes[..n - 1];
    }
  }

  lemma {:induction false} PendingNone(nodes: seq<Node>, ts: seq<Thread>, p: int, g: nat, n: nat, c: nat)
    requires c < n <= |nodes| == |ts| && Pending(nodes, ts, p, g, n) == 0 && nodes[c].parent == p
    ensures Signals(ts[c]) != g
  {
    if c < n - 1 {
      PendingNone(nodes, ts, p, g, n - 1, c);
    }
  }

  // Another state of one thread.
  lemma {:induction false} PendingSet(nodes: seq<Node>, ts: seq<Thread>, p: int, g: nat, n: nat, i: nat, t: Thread)
    requires n <= |nodes| == |ts| && i < |ts|
    ensures Pending(nodes, ts[i := t], p, g, n) == Pending(nodes, ts, p, g, n)
            - (if i < n && nodes[i].parent == p && Signals(ts[i]) == g then 1 else 0)
            + (if i < n && nodes[i].parent == p && Signals(t) == g then 1 else 0)
  {
    if n > 0 {
      PendingSet(nodes, ts, p, g, n - 1, i, t);
    }
  }

  lemma PendingFresh(nodes: seq<Node>, ts: seq<Thread>, p: int, n: nat)
    requires n <= |nodes| == |ts| && forall c :: 0 <= c < n ==> Signals(ts[c]) == 0
    ensures Pending(nodes, ts, p, 0, n) == Kids(nodes[..n], p)
  {
    PendingAll(nodes, ts, p, 0, n);
  }

  lemma InitInv(nodes: seq<Node>)
    requires nodes != [] && Subtree(nodes, 0, -1)
    ensures Inv(nodes, Init(nodes))
  {
    var s := Init(nodes);
    assert nodes[..|nodes|] == nodes;
    forall i | 0 <= i < |nodes| ensures s.children[i] == Pending(nodes, s.threads, i, 0, |nodes|) {
      PendingFresh(nodes, s.threads, i, |nodes|);
    }
  }

  // A step that changes one thread but neither signals nor gathers.
  lemma QuietStep(nodes: seq<Node>, s: State, i: nat, t: Thread)
    requires Inv(nodes, s) && i < |nodes|
    requires Signals(t) == Signals(s.threads[i]) && Gathers(t) == Gathers(s.threads[i])
    requires t.phase.Gathered? ==> forall c :: 0 < c < |nodes| && nodes[c].parent == i ==> Signals(s.threads[c]) == Gathers(t) + 1
    requires t.sense == Odd(t.waits + 1) && t.waits <= Episodes(s)
    ensures Inv(nodes, s.(threads := s.threads[i := t]))
  {
    QuietCounts(nodes, s, i, t);
    var r := s.(threads := s.threads[i := t]);
    assert Edges(nodes, r);
    assert Senses(r);
  }

  lemma QuietCounts(nodes: seq<Node>, s: State, i: nat, t: Thread)
    requires Inv(nodes, s) && i < |nodes|
    requires Signals(t) == Signals(s.threads[i]) && Gathers(t) == Gathers(s.threads[i])
    ensures Counts(nodes, s.(threads := s.threads[i := t]))
  {
    forall j | 0 <= j < |nodes| ensures Pending(nodes, s.threads[i := t], j, Gathers(s.threads[i := t][j]), |nodes|) == s.children[j] {
      PendingSet(nodes, s.threads, j, Gathers(s.threads[j]), |nodes|, i, t);
    }
  }

  lemma GatherStep(nodes: seq<Node>, s: State, i: nat)
    requires Inv(nodes, s) && Enabled(nodes, s, Gather(i))
    ensures Inv(nodes, Apply(nodes, s, Gather(i)))
  {
    forall c | 0 < c < |nodes| && nodes[c].parent == i ensures Signals(s.threads[c]) == Gathers(s.threads[i]) + 1 {
      PendingNone(nodes, s.threads, i, Gathers(s.threads[i]), |nodes|, c);
    }
    QuietStep(nodes, s, i, s.threads[i].(phase := Gathered));
  }

  // The sense is the thread's own exactly when the episode of its wait is over.
  lemma SenseTells(nodes: seq<Node>, s: State, i: nat)
    requires Inv(nodes, s) && Enabled(nodes, s, Leave(i))
    ensures Episodes(s) == s.threads[i].waits + 1
  {
    SignalsReach(nodes, s, i);
  }

  lemma LeaveStep(nodes: seq<Node>, s: State, i: nat)
    requires Inv(nodes, s) && Enabled(nodes, s, Leave(i))
    ensures Inv(nodes, Apply(nodes, s, Leave(i)))
  {
    SenseTells(nodes, s, i);
    var t := Thread(Out, s.threads[i].waits + 1, !s.threads[i].sense);
    assert s.threads[i].sense == Odd(s.threads[i].waits + 1);
    assert t.sense == Odd(t.waits + 1);
    QuietStep(nodes, s, i, t);
  }

  lemma RenewStep(nodes: seq<Node>, s: State, i: nat)
    requires Inv(nodes, s) && Enabled(nodes, s, Renew(i))
    ensures Inv(nodes, Apply(nodes, s, Renew(i)))
  {
    var r := Apply(nodes, s, Renew(i));
    assert nodes[..|nodes|] == nodes;
    assert nodes[0].parent == -1;
    PendingAll(nodes, r.threads, i, Gathers(r.threads[i]), |nodes|);
    forall j | 0 <= j < |nodes| && j != i ensures r.children[j] == Pending(nodes, r.threads, j, Gathers(r.threads[j]), |nodes|) {
      PendingSet(nodes, s.threads, j, Gathers(s.threads[j]), |nodes|, i, r.threads[i]);
    }
  }

  // A node that is about to tell its parent has told it as often as the parent has gathered.
  lemma SignalDue(nodes: seq<Node>, s: State, i: nat)
    requires Inv(nodes, s) && Enabled(nodes, s, Signal(i)) && i > 0
    ensures Signals(s.threads[i]) == Gathers(s.threads[nodes[i].parent]) && !s.threads[nodes[i].parent].phase.Gathered?
  {
    SignalsReach(nodes, s, i);
    SignalsReach(nodes, s, nodes[i].parent);
  }

  lemma SignalCounts(nodes: seq<Node>, s: State, i: nat)
    requires Inv(nodes, s) && Enabled(nodes, s, Signal(i))
    ensures Counts(nodes, Apply(nodes, s, Signal(i)))
  {
    var r := Apply(nodes, s, Signal(i));
    if i > 0 {
      SignalDue(nodes, s, i);
    }
    forall j | 0 <= j < |nodes| ensures r.children[j] == Pending(nodes, r.threads, j, Gathers(r.threads[j]), |nodes|) {
      PendingSet(nodes, s.threads, j, Gathers(s.threads[j]), |nodes|, i, r.threads[i]);
    }
  }

  lemma SignalEdges(nodes: seq<Node>, s: State, i: nat)
    requires Inv(nodes, s) && Enabled(nodes, s, Signal(i))
    ensures Edges(nodes, Apply(nodes, s, Signal(i)))
  {
    if i > 0 {
      SignalDue(nodes, s, i);
    }
  }

  lemma SignalStep(nodes: seq<Node>, s: State, i: nat)
    requires Inv(nodes, s) && Enabled(nodes, s, Signal(i))
    ensures Inv(nodes, Apply(nodes, s, Signal(i)))
  {
    SignalCounts(nodes, s, i);
    SignalEdges(nodes, s, i);
    assert Senses(Apply(nodes, s, Signal(i)));
  }

  /** Every step keeps the invariant. */
  lemma StepKeepsInv(nodes: seq<Node>, s: State, a: Action)
    requires Inv(nodes, s) && Enabled(nodes, s, a)
    ensures Inv(nodes, Apply(nodes, s, a))
  {
    match a
    case Enter(i) => QuietStep(nodes, s, i, s.threads[i].(phase := In));
    case Gather(i) => GatherStep(nodes, s, i);
    case Renew(i) => RenewStep(nodes, s, i);
    case Signal(i) => SignalStep(nodes, s, i);
    case Leave(i) => LeaveStep(nodes, s, i);
  }

  // ------------------------------------------------------------------ runs

  ghost predicate IsRun(nodes: seq<Node>, run: seq<State>, acts: seq<Action>) {
    && |run| == |acts| + 1 && Subtree(nodes, 0, -1)
    && run[0] == Init(nodes)
    && (forall k :: 0 <= k < |run| ==> Fits(nodes, run[k]))
    && (forall k :: 0 <= k < |acts| ==> Enabled(nodes, run[k], acts[k]) && run[k + 1] == Apply(nodes, run[k], acts[k]))
  }

  lemma {:induction false} RunInv(nodes: seq<Node>, run: seq<State>, acts: seq<Action>, k: nat)
    requires IsRun(nodes, run, acts) && k < |run|
    ensures Inv(nodes, run[k])
  {
    if k == 0 {
      InitInv(nodes);
    } else {
      RunInv(nodes, run, acts, k - 1);
      StepKeepsInv(nodes, run[k - 1], acts[k - 1]);
    }
  }

  /** In every run, no thread has left its k-th wait before all threads have entered theirs. */
  lemma BarrierSafety(nodes: seq<Node>, run: seq<State>, acts: seq<Action>, k: nat, i: nat, j: nat)
    requires IsRun(nodes, run, acts) && k < |run| && i < |nodes| && j < |nodes|
    ensures run[k].threads[i].waits <= Entered(run[k].threads[j])
  {
    RunInv(nodes, run, acts, k);
    SignalsReach(nodes, run[k], j);
  }

  // The assertion of the root: after its flip the sense is its own.
  lemma RootSense(nodes: seq<Node>, run: seq<State>, acts: seq<Action>, k: nat)
    requires IsRun(nodes, run, acts) && k < |run|
    ensures nodes != [] && Fits(nodes, run[k]) && (run[k].threads[0].phase.Spinning? ==> Enabled(nodes, run[k], Leave(0)))
  {
    RunInv(nodes, run, acts, k);
  }

  // The last thread that still spins on its children.
  function LastIn(ts: seq<Thread>): (i: int)
    ensures -1 <= i < |ts| && (i >= 0 ==> ts[i].phase.In?)
    ensures forall j :: i < j < |ts| ==> !ts[j].phase.In?
  {
    if ts == [] then -1
    else if ts[|ts| - 1].phase.In? then |ts| - 1
    else LastIn(ts[..|ts| - 1])
  }

  /** The barrier does not deadlock: when all threads are inside wait, one of them can go on. */
  lemma BarrierLiveness(nodes: seq<Node>, run: seq<State>, acts: seq<Action>, k: nat) returns (a: Action)
    requires IsRun(nodes, run, acts) && k < |run|
    requires forall i :: 0 <= i < |nodes| ==> !run[k].threads[i].phase.Out?
    ensures Enabled(nodes, run[k], a) && !a.Enter?
  {
    var s := run[k];
    RunInv(nodes, run, acts, k);
    if i :| 0 <= i < |nodes| && s.threads[i].phase.Gathered? {
      a := Renew(i);
    } else if i :| 0 <= i < |nodes| && s.threads[i].phase.Renewed? {
      a := Signal(i);
    } else if i :| 0 <= i < |nodes| && Enabled(nodes, s, Leave(i)) {
      a := Leave(i);
    } else {
      var i := LastIn(s.threads);
      assert i >= 0 by {
        RootSense(nodes, run, acts, k);
      }
      LastCanGather(nodes, s, i);
      a := Gather(i);
    }
  }

  // A node whose children all spin in the episode that is not over has heard from all of them.
  lemma LastCanGather(nodes: seq<Node>, s: State, i: nat)
    requires Inv(nodes, s) && i < |nodes| && s.threads[i].phase.In?
    requires forall j :: i < j < |nodes| ==> s.threads[j].phase.Spinning? && !Enabled(nodes, s, Leave(j))
    ensures Enabled(nodes, s, Gather(i))
  {
    SignalsReach(nodes, s, i);
    forall c | 0 <= c < |nodes| && nodes[c].parent == i ensures Signals(s.threads[c]) != Gathers(s.threads[i]) {
      SignalsReach(nodes, s, c);
      assert c > i;
    }
    PendingZero(nodes, s.threads, i, Gathers(s.threads[i]), |nodes|);
  }

  lemma {:induction false} PendingZero(nodes: seq<Node>, ts: seq<Thread>, p: int, g: nat, n: nat)
    requires n <= |nodes| == |ts| && forall c :: 0 <= c < n && nodes[c].parent == p ==> Signals(ts[c]) != g
    ensures Pending(nodes, ts, p, g, n) == 0
  {
    if n > 0 {
      PendingZero(nodes, ts, p, g, n - 1);
    }
  }
}
