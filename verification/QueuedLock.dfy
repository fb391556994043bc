/**
  The queued spin lock: each thread brings an entry, entries form a queue by exchanging the tail, and
  the lock is handed over along the queue.

  Threads are numbered and have one entry each; null is None.  The waiting line, the order of the tail
  exchanges and the order of the grants are kept as history.
 */
module QueuedLocks {

  datatype Option<T> = None | Some(value: T)

  // Not locking; entry initialised; tail exchanged, predecessor not told; spinning on the state;
  // inside; next was null in unlock; tail was another, spinning on next; next is known.
  datatype Phase = Out | Ready | Exchanged | Waiting | Inside | Closing | Lingering | Granting

  datatype Thread = Thread(phase: Phase, pred: Option<nat>, next: Option<nat>, granted: bool)

  datatype State = State(tail: Option<nat>, threads: seq<Thread>,
                         line: seq<nat>, exchanged: seq<nat>, entered: seq<nat>)

  datatype Action =
    | Prepare(i: nat)
    | Exchange(i: nat)
    | TryLock(i: nat)
    | Link(i: nat)
    | See(i: nat)
    | Unlock(i: nat)
    | CloseTail(i: nat)
    | SeeNext(i: nat)
    | Grant(i: nat)

  predicate Owner(p: Phase) {
    p.Inside? || p.Closing? || p.Lingering? || p.Granting?
  }

  predicate Enabled(s: State, a: Action) {
    a.i < |s.threads| &&
    var t := s.threads[a.i];
    match a
    case Prepare(_) => t.phase.Out?
    case Exchange(_) => t.phase.Ready?
    case TryLock(_) => t.phase.Ready?
    case Link(_) => t.phase.Exchanged? && t.pred.Some? && t.pred.value < |s.threads|
    case See(_) => t.phase.Waiting? && t.granted
    case Unlock(_) => t.phase.Inside?
    case CloseTail(_) => t.phase.Closing?
    case SeeNext(_) => t.phase.Lingering? && t.next.Some?
    case Grant(_) => t.phase.Granting? && t.next.Some? && t.next.value < |s.threads|
  }

  function Apply(s: State, a: Action): State
    requires Enabled(s, a)
  {
    var i := a.i;
    var t := s.threads[i];
    match a
    case Prepare(_) => s.(threads := s.threads[i := Thread(Ready, None, None, false)])
    case Exchange(_) =>
      var t' := if s.tail == None then t.(phase := Inside) else t.(phase := Exchanged, pred := s.tail);
      s.(tail := Some(i), threads := s.threads[i := t'], line := s.line + [i], exchanged := s.exchanged + [i],
         entered := if s.tail == None then s.entered + [i] else s.entered)
    case TryLock(_) =>
      if s.tail == None then
        s.(tail := Some(i), threads := s.threads[i := t.(phase := Inside)], line := s.line + [i],
           exchanged := s.exchanged + [i], entered := s.entered + [i])
      else
        s.(threads := s.threads[i := t.(phase := Out)])
    case Link(_) =>
      var p := t.pred.value;
      var ts := s.threads[i := t.(phase := Waiting)];
      s.(threads := ts[p := ts[p].(next := Some(i))])
    case See(_) => s.(threads := s.threads[i := t.(phase := Inside)], entered := s.entered + [i])
    case Unlock(_) => s.(threads := s.threads[i := t.(phase := if t.next == None then Closing else Granting)])
    case CloseTail(_) =>
      if s.tail == Some(i) then
        s.(tail := None, threads := s.threads[i := t.(phase := Out)], line := Behind(s.line))
      else
        s.(threads := s.threads[i := t.(phase := Lingering)])
    case SeeNext(_) => s.(threads := s.threads[i := t.(phase := Granting)])
    case Grant(_) =>
      var ts := s.threads[i := t.(phase := Out)];
      var n := t.next.value;
      s.(threads := ts[n := ts[n].(granted := true)], line := Behind(s.line))
  }

  function Behind(line: seq<nat>): seq<nat> {
    if line == [] then [] else line[1..]
  }

  function Init(n: nat): State {
    State(None, seq(n, _ => Thread(Out, None, None, false)), [], [], [])
  }

  // ------------------------------------------------------------------ the invariant

  // The thread at place k of the line; only the first can own the lock or have been granted it.
  predicate PlaceOk(s: State, k: nat)
    requires k < |s.line| && forall j :: 0 <= j < |s.line| ==> s.line[j] < |s.threads|
  {
    var t := s.threads[s.line[k]];
    && (if k == 0 then Owner(t.phase) || (t.phase.Waiting? && t.granted)
        else (t.phase.Waiting? || t.phase.Exchanged?) && !t.granted && t.pred == Some(s.line[k - 1]))
    && (t.next == if k + 1 < |s.line| && s.threads[s.line[k + 1]].phase.Waiting? then Some(s.line[k + 1]) else None)
    && (t.phase.Granting? ==> t.next.Some?)
    && (t.phase.Lingering? ==> |s.line| > 1)
  }

  predicate LineOk(s: State) {
    && (forall j :: 0 <= j < |s.line| ==> s.line[j] < |s.threads|)
    && (forall j, k :: 0 <= j < k < |s.line| ==> s.line[j] != s.line[k])
    && (forall i :: 0 <= i < |s.threads| && i !in s.line ==> s.threads[i].phase.Out? || s.threads[i].phase.Ready?)
    && (forall i :: 0 <= i < |s.threads| && s.threads[i].phase.Ready? ==> s.threads[i].next == None && !s.threads[i].granted)
    && s.tail == (if s.line == [] then None else Some(s.line[|s.line| - 1]))
  }

  predicate Inv(s: State) {
    && LineOk(s) && (forall k :: 0 <= k < |s.line| ==> PlaceOk(s, k)) && LogOk(s)
  }

  lemma InitInv(n: nat)
    ensures Inv(Init(n))
  {}

  // Where in the line a thread is that is not outside.
  lemma Place(s: State, i: nat) returns (k: nat)
    requires LineOk(s) && i < |s.threads| && !s.threads[i].phase.Out? && !s.threads[i].phase.Ready?
    ensures k < |s.line| && s.line[k] == i
  {
    k :| 0 <= k < |s.line| && s.line[k] == i;
  }

  // An owner is the first in the line.
  lemma OwnerIsFirst(s: State, i: nat)
    requires Inv(s) && i < |s.threads| && Owner(s.threads[i].phase)
    ensures s.line != [] && s.line[0] == i
  {
    var k := Place(s, i);
    assert PlaceOk(s, k);
  }

  // A thread outside the line changes, and stays outside it.
  lemma OutsideStep(s: State, i: nat, t: Thread)
    requires Inv(s) && i < |s.threads| && i !in s.line
    requires t.phase.Out? || (t.phase.Ready? && t.next == None && !t.granted)
    ensures Inv(s.(threads := s.threads[i := t]))
  {
    var r := s.(threads := s.threads[i := t]);
    forall k | 0 <= k < |r.line| ensures PlaceOk(r, k) {
      assert PlaceOk(s, k);
    }
  }

  // A thread joins the line.
  lemma JoinStep(s: State, i: nat, entered: seq<nat>)
    requires Inv(s) && i < |s.threads| && s.threads[i].phase.Ready?
    requires entered == if s.tail == None then s.entered + [i] else s.entered
    ensures Inv(Joined(s, i, entered))
  {
    NotInLine(s, i);
    JoinLine(s, i, entered);
    JoinLog(s, i, entered);
    forall k | 0 <= k <= |s.line| ensures PlaceOk(Joined(s, i, entered), k) {
      JoinPlace(s, i, entered, k);
    }
  }

  lemma JoinLine(s: State, i: nat, entered: seq<nat>)
    requires LineOk(s) && i < |s.threads| && s.threads[i].phase.Ready? && i !in s.line
    ensures LineOk(Joined(s, i, entered))
  {}

  predicate LogOk(s: State) {
    LineOk(s) ==> s.exchanged == s.entered + if s.line != [] && Owner(s.threads[s.line[0]].phase) then s.line[1..] else s.line
  }

  lemma JoinLog(s: State, i: nat, entered: seq<nat>)
    requires LineOk(s) && LogOk(s) && i < |s.threads| && s.threads[i].phase.Ready? && i !in s.line
    requires entered == if s.tail == None then s.entered + [i] else s.entered
    ensures LogOk(Joined(s, i, entered))
  {}

  function Joined(s: State, i: nat, entered: seq<nat>): State
    requires i < |s.threads|
  {
    var t := s.threads[i];
    var t' := if s.tail == None then t.(phase := Inside) else t.(phase := Exchanged, pred := s.tail);
    State(Some(i), s.threads[i := t'], s.line + [i], s.exchanged + [i], entered)
  }

  lemma JoinPlace(s: State, i: nat, entered: seq<nat>, k: nat)
    requires Inv(s) && i < |s.threads| && s.threads[i].phase.Ready? && i !in s.line && k <= |s.line|
    ensures PlaceOk(Joined(s, i, entered), k)
  {
    var r := Joined(s, i, entered);
    if k < |s.line| {
      assert PlaceOk(s, k) && r.line[k] == s.line[k] && s.line[k] != i;
      if k + 1 < |s.line| {
        assert r.line[k + 1] == s.line[k + 1] && s.line[k + 1] != i;
      }
    }
  }

  lemma LinkStep(s: State, i: nat)
    requires Inv(s) && Enabled(s, Link(i))
    ensures Inv(Apply(s, Link(i)))
  {
    var r := Apply(s, Link(i));
    var k := Place(s, i);
    assert PlaceOk(s, k) && k > 0 && s.threads[i].pred == Some(s.line[k - 1]);
    forall j | 0 <= j < |r.line| ensures PlaceOk(r, j) {
      LinkPlace(s, i, k, j);
    }
    LinkLine(s, i, k);
  }

  lemma LinkLine(s: State, i: nat, k: nat)
    requires LineOk(s) && LogOk(s) && Enabled(s, Link(i)) && 0 < k < |s.line| && s.line[k] == i
    requires s.threads[i].pred == Some(s.line[k - 1]) && PlaceOk(s, k) && PlaceOk(s, k - 1)
    ensures LineOk(Apply(s, Link(i))) && LogOk(Apply(s, Link(i)))
  {
    var r := Apply(s, Link(i));
    assert s.line[k] in s.line && s.line[k - 1] in s.line;
    SameLine(s, r);
    assert r.threads[r.line[0]].phase == s.threads[s.line[0]].phase;
  }

  // Nothing changes for the threads that are not in line.
  lemma SameLine(s: State, r: State)
    requires LineOk(s) && |r.threads| == |s.threads| && r.line == s.line && r.tail == s.tail
    requires forall x :: 0 <= x < |s.threads| ==> r.threads[x] == s.threads[x] || (x in s.line && !r.threads[x].phase.Ready?)
    ensures LineOk(r)
  {}

  lemma LinkPlace(s: State, i: nat, k: nat, j: nat)
    requires Inv(s) && Enabled(s, Link(i)) && 0 < k < |s.line| && s.line[k] == i && j < |s.line|
    requires s.threads[i].pred == Some(s.line[k - 1])
    ensures PlaceOk(Apply(s, Link(i)), j)
  {
    assert PlaceOk(s, j) && PlaceOk(s, k) && PlaceOk(s, k - 1);
    if j + 1 < |s.line| {
      assert PlaceOk(s, j + 1);
    }
  }

  // The first of the line changes its phase and keeps its next.
  lemma FirstStep(s: State, i: nat, p: Phase)
    requires Inv(s) && s.line != [] && s.line[0] == i && Owner(s.threads[i].phase) && Owner(p)
    requires (p.Granting? ==> s.threads[i].next.Some?) && (p.Lingering? ==> |s.line| > 1)
    ensures Inv(s.(threads := s.threads[i := s.threads[i].(phase := p)]))
  {
    var r := s.(threads := s.threads[i := s.threads[i].(phase := p)]);
    forall k | 0 <= k < |r.line| ensures PlaceOk(r, k) {
      FirstPlace(s, i, p, k);
    }
  }

  lemma SeeStep(s: State, i: nat)
    requires Inv(s) && Enabled(s, See(i))
    ensures Inv(Apply(s, See(i)))
  {
    var r := Apply(s, See(i));
    var k := Place(s, i);
    assert PlaceOk(s, k) && k == 0;
    PhaseKeepsLine(s, i, Inside);
    forall j | 0 <= j < |r.line| ensures PlaceOk(r, j) {
      FirstPlace(s, i, Inside, j);
    }
    SeeLog(s, i);
  }

  lemma SeeLog(s: State, i: nat)
    requires LineOk(s) && LogOk(s) && Enabled(s, See(i)) && s.line != [] && s.line[0] == i
    ensures LogOk(Apply(s, See(i)))
  {
    assert s.line == [i] + s.line[1..];
  }

  // A thread of the line changes its phase.
  lemma PhaseKeepsLine(s: State, i: nat, p: Phase)
    requires LineOk(s) && i in s.line && i < |s.threads| && !p.Ready?
    ensures LineOk(s.(threads := s.threads[i := s.threads[i].(phase := p)]))
  {}

  lemma FirstPlace(s: State, i: nat, p: Phase, j: nat)
    requires Inv(s) && s.line != [] && s.line[0] == i && Owner(p) && j < |s.line|
    requires (p.Granting? ==> s.threads[i].next.Some?) && (p.Lingering? ==> |s.line| > 1)
    ensures PlaceOk(s.(threads := s.threads[i := s.threads[i].(phase := p)]), j)
  {
    assert PlaceOk(s, j) && PlaceOk(s, 0);
    if j + 1 < |s.line| {
      assert PlaceOk(s, j + 1) && s.line[j + 1] != i;
    }
  }

  lemma CloseStep(s: State, i: nat)
    requires Inv(s) && Enabled(s, CloseTail(i))
    ensures Inv(Apply(s, CloseTail(i)))
  {
    OwnerIsFirst(s, i);
    if s.tail == Some(i) {
      var r := Apply(s, CloseTail(i));
      assert |s.line| == 1;
      assert r.line == [];
    } else {
      FirstStep(s, i, Lingering);
    }
  }

  lemma GrantPlace(s: State, i: nat, k: nat)
    requires Inv(s) && Enabled(s, Grant(i)) && s.line != [] && s.line[0] == i && k + 1 < |s.line|
    ensures PlaceOk(Apply(s, Grant(i)), k)
  {
    assert PlaceOk(s, 0) && PlaceOk(s, 1) && PlaceOk(s, k + 1);
    assert forall j :: 0 <= j < |s.line| - 1 ==> s.line[1..][j] == s.line[j + 1];
  }

  lemma GrantStep(s: State, i: nat)
    requires Inv(s) && Enabled(s, Grant(i))
    ensures Inv(Apply(s, Grant(i)))
  {
    OwnerIsFirst(s, i);
    var r := Apply(s, Grant(i));
    assert PlaceOk(s, 0) && PlaceOk(s, 1);
    GrantLine(s, i);
    forall k | 0 <= k < |r.line| ensures PlaceOk(r, k) {
      GrantPlace(s, i, k);
    }
  }

  lemma GrantLine(s: State, i: nat)
    requires Inv(s) && Enabled(s, Grant(i)) && s.line != [] && s.line[0] == i
    requires |s.line| > 1 && s.threads[i].next == Some(s.line[1]) && PlaceOk(s, 1)
    ensures LineOk(Apply(s, Grant(i)))
  {
    var r := Apply(s, Grant(i));
    assert s.line == [i] + r.line;
    assert s.line[1] in s.line && !s.threads[s.line[1]].phase.Ready?;
    ShorterLine(s, r, i);
  }

  // The first thread leaves, and nothing changes for those that were not in line.
  lemma ShorterLine(s: State, r: State, i: nat)
    requires LineOk(s) && |r.threads| == |s.threads| && i < |s.threads| && s.line == [i] + r.line && r.line != [] && r.tail == s.tail
    requires forall x :: 0 <= x < |s.threads| && x != i ==> r.threads[x] == s.threads[x] || (x in s.line && !r.threads[x].phase.Ready?)
    requires r.threads[i].phase.Out?
    ensures LineOk(r)
  {
    assert forall j :: 0 <= j < |r.line| ==> r.line[j] == s.line[j + 1];
  }

  /** Every step keeps the invariant. */
  lemma StepKeepsInv(s: State, a: Action)
    requires Inv(s) && Enabled(s, a)
    ensures Inv(Apply(s, a))
  {
    var i := a.i;
    match a
    case Prepare(_) =>
      NotInLine(s, i);
      OutsideStep(s, i, Thread(Ready, None, None, false));
    case Exchange(_) =>
      JoinStep(s, i, if s.tail == None then s.entered + [i] else s.entered);
    case TryLock(_) =>
      if s.tail == None {
        JoinStep(s, i, s.entered + [i]);
      } else {
        NotInLine(s, i);
        OutsideStep(s, i, s.threads[i].(phase := Out));
      }
    case Link(_) => LinkStep(s, i);
    case See(_) => SeeStep(s, i);
    case Unlock(_) =>
      OwnerIsFirst(s, i);
      FirstStep(s, i, if s.threads[i].next == None then Closing else Granting);
    case CloseTail(_) => CloseStep(s, i);
    case SeeNext(_) =>
      OwnerIsFirst(s, i);
      FirstStep(s, i, Granting);
    case Grant(_) => GrantStep(s, i);
  }

  lemma NotInLine(s: State, i: nat)
    requires Inv(s) && i < |s.threads| && (s.threads[i].phase.Out? || s.threads[i].phase.Ready?)
    ensures i !in s.line
  {
    forall k | 0 <= k < |s.line| ensures s.line[k] != i {
      assert PlaceOk(s, k);
    }
  }

  // ------------------------------------------------------------------ runs

  ghost predicate IsRun(n: nat, run: seq<State>, acts: seq<Action>) {
    && |run| == |acts| + 1 && run[0] == Init(n)
    && (forall k :: 0 <= k < |acts| ==> Enabled(run[k], acts[k]) && run[k + 1] == Apply(run[k], acts[k]))
  }

  lemma {:induction false} RunInv(n: nat, run: seq<State>, acts: seq<Action>, k: nat)
    requires IsRun(n, run, acts) && k < |run|
    ensures Inv(run[k])
  {
    if k == 0 {
      InitInv(n);
    } else {
      RunInv(n, run, acts, k - 1);
      StepKeepsInv(run[k - 1], acts[k - 1]);
    }
  }

  /** At most one thread owns the lock in any state of any run. */
  lemma MutualExclusion(n: nat, run: seq<State>, acts: seq<Action>, k: nat, i: nat, j: nat)
    requires IsRun(n, run, acts) && k < |run| && i < |run[k].threads| && j < |run[k].threads|
    requires Owner(run[k].threads[i].phase) && Owner(run[k].threads[j].phase)
    ensures i == j
  {
    RunInv(n, run, acts, k);
    OwnerIsFirst(run[k], i);
    OwnerIsFirst(run[k], j);
  }

  /** Threads enter in the order of their tail exchanges, none is passed over. */
  lemma FirstComeFirstServed(n: nat, run: seq<State>, acts: seq<Action>, k: nat)
    requires IsRun(n, run, acts) && k < |run|
    ensures run[k].entered <= run[k].exchanged
  {
    RunInv(n, run, acts, k);
  }

  /** While threads are in line, one of them can go on: the lock is never lost. */
  lemma NeverStuck(n: nat, run: seq<State>, acts: seq<Action>, k: nat) returns (a: Action)
    requires IsRun(n, run, acts) && k < |run| && run[k].line != []
    ensures Enabled(run[k], a) && a.i in run[k].line
  {
    var s := run[k];
    RunInv(n, run, acts, k);
    assert PlaceOk(s, 0);
    var i := s.line[0];
    match s.threads[i].phase
    case Waiting => a := See(i);
    case Inside => a := Unlock(i);
    case Closing => a := CloseTail(i);
    case Granting => a := Grant(i);
    case Lingering =>
      if s.threads[i].next.Some? {
        a := SeeNext(i);
      } else {
        assert PlaceOk(s, 1);
        a := Link(s.line[1]);
      }
    case _ =>
  }
}
