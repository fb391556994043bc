/**
  The ticket lock: sixteen-bit counters of tickets drawn and tickets served, which wrap around.

  The line of threads that hold a ticket, and the orders of drawing and of entering, are kept as
  history.
 */
module TicketLocks {

  const TICKETS: nat := 0x1_0000

  // In lock: spinning with a ticket.  In try_lock: the number of users was read.
  datatype Phase = Out | Waiting(me: nat) | Trying(me: nat) | Inside

  datatype State = State(ticket: nat, users: nat, threads: seq<Phase>,
                         line: seq<nat>, drawn: seq<nat>, entered: seq<nat>)

  datatype Action = Draw(i: nat) | See(i: nat) | Read(i: nat) | Swap(i: nat) | Unlock(i: nat)

  predicate Enabled(s: State, a: Action) {
    a.i < |s.threads| &&
    var p := s.threads[a.i];
    match a
    case Draw(_) => p.Out?
    case See(_) => p.Waiting? && s.ticket == p.me
    case Read(_) => p.Out?
    case Swap(_) => p.Trying?
    case Unlock(_) => p.Inside?
  }

  function Apply(s: State, a: Action): State
    requires Enabled(s, a)
  {
    var i := a.i;
    match a
    case Draw(_) =>
      s.(users := (s.users + 1) % TICKETS, threads := s.threads[i := Waiting(s.users)],
         line := s.line + [i], drawn := s.drawn + [i])
    case See(_) => s.(threads := s.threads[i := Inside], entered := s.entered + [i])
    case Read(_) => s.(threads := s.threads[i := Trying(s.users)])
    case Swap(_) =>
      var me := s.threads[i].me;
      if s.users == me && s.ticket == me then
        s.(users := (me + 1) % TICKETS, threads := s.threads[i := Inside],
           line := s.line + [i], drawn := s.drawn + [i], entered := s.entered + [i])
      else
        s.(threads := s.threads[i := Out])
    case Unlock(_) =>
      s.(ticket := (s.ticket + 1) % TICKETS, threads := s.threads[i := Out], line := if s.line == [] then [] else s.line[1..])
  }

  function Init(n: nat): State {
    State(0, 0, seq(n, _ => Out), [], [], [])
  }

  // The step draws a ticket.
  predicate Draws(s: State, a: Action)
    requires Enabled(s, a)
  {
    a.Draw? || (a.Swap? && s.users == s.ticket == s.threads[a.i].me)
  }

  // ------------------------------------------------------------------ the invariant

  // The thread at place k of the line has the k-th ticket from the one that is served.
  predicate PlaceOk(s: State, k: nat)
    requires k < |s.line| && s.line[k] < |s.threads|
  {
    var p := s.threads[s.line[k]];
    p == Waiting((s.ticket + k) % TICKETS) || (k == 0 && p.Inside?)
  }

  predicate LineOk(s: State) {
    && |s.line| <= TICKETS && s.ticket < TICKETS
    && s.users == (s.ticket + |s.line|) % TICKETS
    && (forall k :: 0 <= k < |s.line| ==> s.line[k] < |s.threads|)
    && (forall j, k :: 0 <= j < k < |s.line| ==> s.line[j] != s.line[k])
    && (forall i :: 0 <= i < |s.threads| && (s.threads[i].Waiting? || s.threads[i].Inside?) ==> i in s.line)
  }

  predicate Inv(s: State) {
    && LineOk(s) && (forall k :: 0 <= k < |s.line| ==> PlaceOk(s, k))
    && s.drawn == s.entered + if s.line != [] && s.threads[s.line[0]].Inside? then s.line[1..] else s.line
  }

  lemma InitInv(n: nat)
    ensures Inv(Init(n))
  {}

  // Fewer than all tickets ahead lead to different numbers.
  lemma Wrap(t: nat, a: nat, b: nat)
    requires t < TICKETS && a <= b < a + TICKETS
    ensures (t + a) % TICKETS == (t + b) % TICKETS <==> a == b
  {}

  lemma WrapNext(t: nat, k: nat)
    requires t < TICKETS
    ensures ((t + 1) % TICKETS + k) % TICKETS == (t + (k + 1)) % TICKETS
    ensures ((t + k) % TICKETS + 1) % TICKETS == (t + (k + 1)) % TICKETS
  {}

  lemma Place(s: State, i: nat) returns (k: nat)
    requires Inv(s) && i < |s.threads| && (s.threads[i].Waiting? || s.threads[i].Inside?)
    ensures k < |s.line| && s.line[k] == i && PlaceOk(s, k)
  {
    k :| 0 <= k < |s.line| && s.line[k] == i;
    assert PlaceOk(s, k);
  }

  lemma NotInLine(s: State, i: nat)
    requires Inv(s) && i < |s.threads| && (s.threads[i].Out? || s.threads[i].Trying?)
    ensures i !in s.line
  {
    forall k | 0 <= k < |s.line| ensures s.line[k] != i {
      assert PlaceOk(s, k);
    }
  }

  lemma OutsideStep(s: State, i: nat, p: Phase)
    requires Inv(s) && i < |s.threads| && (s.threads[i].Out? || s.threads[i].Trying?) && (p.Out? || p.Trying?)
    ensures Inv(s.(threads := s.threads[i := p]))
  {
    NotInLine(s, i);
    var r := s.(threads := s.threads[i := p]);
    forall k | 0 <= k < |r.line| ensures PlaceOk(r, k) {
      assert PlaceOk(s, k);
    }
  }

  // A ticket is drawn; p is what the thread does with it.
  lemma DrawStep(s: State, i: nat, p: Phase, entered: seq<nat>)
    requires Inv(s) && i < |s.threads| && (s.threads[i].Out? || s.threads[i].Trying?) && |s.line| < TICKETS
    requires (p == Waiting(s.users) && entered == s.entered) || (p.Inside? && s.line == [] && entered == s.entered + [i])
    ensures Inv(State(s.ticket, (s.users + 1) % TICKETS, s.threads[i := p], s.line + [i], s.drawn + [i], entered))
  {
    NotInLine(s, i);
    var r := State(s.ticket, (s.users + 1) % TICKETS, s.threads[i := p], s.line + [i], s.drawn + [i], entered);
    WrapNext(s.ticket, |s.line|);
    forall k | 0 <= k < |r.line| ensures PlaceOk(r, k) {
      if k < |s.line| {
        assert PlaceOk(s, k) && r.line[k] == s.line[k];
      }
    }
    if s.line != [] {
      assert r.line[0] == s.line[0] && r.line[1..] == s.line[1..] + [i];
    }
  }

  // The thread whose ticket is served is the first of the line.
  lemma ServedIsFirst(s: State, i: nat)
    requires Inv(s) && i < |s.threads| && (s.threads[i].Inside? || s.threads[i] == Waiting(s.ticket))
    ensures s.line != [] && s.line[0] == i
  {
    var k := Place(s, i);
    if s.threads[i].Waiting? {
      Wrap(s.ticket, 0, k);
    }
  }

  lemma SeeStep(s: State, i: nat)
    requires Inv(s) && Enabled(s, See(i))
    ensures Inv(Apply(s, See(i)))
  {
    ServedIsFirst(s, i);
    var r := Apply(s, See(i));
    forall k | 0 <= k < |r.line| ensures PlaceOk(r, k) {
      assert PlaceOk(s, k);
    }
    assert s.line == [i] + s.line[1..];
  }

  lemma UnlockPlace(s: State, i: nat, k: nat)
    requires Inv(s) && Enabled(s, Unlock(i)) && s.line != [] && s.line[0] == i && k + 1 < |s.line|
    ensures s.line[1..][k] == s.line[k + 1] != i && PlaceOk(Apply(s, Unlock(i)), k)
    ensures !Apply(s, Unlock(i)).threads[s.line[1..][k]].Inside?
  {
    assert PlaceOk(s, k + 1);
    WrapNext(s.ticket, k);
  }

  lemma UnlockLine(s: State, i: nat)
    requires Inv(s) && Enabled(s, Unlock(i)) && s.line != [] && s.line[0] == i
    ensures LineOk(Apply(s, Unlock(i)))
  {}

  lemma UnlockStep(s: State, i: nat)
    requires Inv(s) && Enabled(s, Unlock(i))
    ensures Inv(Apply(s, Unlock(i)))
  {
    ServedIsFirst(s, i);
    UnlockLine(s, i);
    var r := Apply(s, Unlock(i));
    forall k | 0 <= k < |r.line| ensures PlaceOk(r, k) {
      UnlockPlace(s, i, k);
    }
    if r.line != [] {
      UnlockPlace(s, i, 0);
    }
  }

  /** Every step keeps the invariant, as long as tickets are drawn only while fewer than 65536 are out. */
  lemma StepKeepsInv(s: State, a: Action)
    requires Inv(s) && Enabled(s, a) && (Draws(s, a) ==> |s.line| < TICKETS)
    ensures Inv(Apply(s, a))
  {
    var i := a.i;
    match a
    case Draw(_) => DrawStep(s, i, Waiting(s.users), s.entered);
    case See(_) => SeeStep(s, i);
    case Read(_) => OutsideStep(s, i, Trying(s.users));
    case Swap(_) =>
      if Draws(s, a) {
        Wrap(s.ticket, 0, |s.line|);
        assert s.line == [];
        DrawStep(s, i, Inside, s.entered + [i]);
      } else {
        OutsideStep(s, i, Out);
      }
    case Unlock(_) => UnlockStep(s, i);
  }

  /** The limit is exact: with all tickets out and the first of the line inside, one more draw lets a
      second thread in. */
  lemma OneTooMany(s: State, i: nat)
    requires Inv(s) && |s.line| == TICKETS && s.threads[s.line[0]].Inside? && Enabled(s, Draw(i))
    ensures var r := Apply(s, Draw(i));
            Enabled(r, See(i)) && s.line[0] != i
            && Apply(r, See(i)).threads[i].Inside? && Apply(r, See(i)).threads[s.line[0]].Inside?
  {}

  // ------------------------------------------------------------------ runs

  ghost predicate IsRun(n: nat, run: seq<State>, acts: seq<Action>) {
    && |run| == |acts| + 1 && run[0] == Init(n)
    && (forall k :: 0 <= k < |acts| ==> Enabled(run[k], acts[k]) && run[k + 1] == Apply(run[k], acts[k]))
  }

  // Tickets are drawn only while fewer than 65536 are out.
  ghost predicate FewTickets(run: seq<State>, acts: seq<Action>)
    requires |run| == |acts| + 1
  {
    forall k :: 0 <= k < |acts| && Enabled(run[k], acts[k]) && Draws(run[k], acts[k]) ==> |run[k].line| < TICKETS
  }

  lemma {:induction false} RunInv(n: nat, run: seq<State>, acts: seq<Action>, k: nat)
    requires IsRun(n, run, acts) && FewTickets(run, acts) && k < |run|
    ensures Inv(run[k])
  {
    if k == 0 {
      InitInv(n);
    } else {
      RunInv(n, run, acts, k - 1);
      StepKeepsInv(run[k - 1], acts[k - 1]);
    }
  }

  /** At most one thread is inside, and threads enter in the order in which they drew. */
  lemma ExclusionAndOrder(n: nat, run: seq<State>, acts: seq<Action>, k: nat, i: nat, j: nat)
    requires IsRun(n, run, acts) && FewTickets(run, acts) && k < |run| && i < |run[k].threads| && j < |run[k].threads|
    ensures run[k].threads[i].Inside? && run[k].threads[j].Inside? ==> i == j
    ensures run[k].entered <= run[k].drawn
  {
    RunInv(n, run, acts, k);
    if run[k].threads[i].Inside? && run[k].threads[j].Inside? {
      ServedIsFirst(run[k], i);
      ServedIsFirst(run[k], j);
    }
  }

  // ------------------------------------------------------------------ few threads

  function Below(n: nat): (r: set<nat>)
    ensures |r| == n && forall x: nat :: x in r <==> x < n
  {
    if n == 0 then {} else Below(n - 1) + {n - 1}
  }

  function Elems(line: seq<nat>): (r: set<nat>)
    ensures forall x: nat :: x in r <==> x in line
  {
    if line == [] then {} else {line[0]} + Elems(line[1..])
  }

  lemma {:induction false} DistinctSize(line: seq<nat>)
    requires forall j, k :: 0 <= j < k < |line| ==> line[j] != line[k]
    ensures |Elems(line)| == |line|
  {
    if line != [] {
      DistinctSize(line[1..]);
      assert line[0] !in line[1..];
    }
  }

  // A line without i among fewer than n threads.
  lemma RoomForOne(line: seq<nat>, n: nat, i: nat)
    requires forall j, k :: 0 <= j < k < |line| ==> line[j] != line[k]
    requires (forall k :: 0 <= k < |line| ==> line[k] < n) && i < n && i !in line
    ensures |line| < n
  {
    DistinctSize(line);
    SmallerSet(Elems(line), Below(n) - {i});
  }

  lemma {:induction false} SmallerSet(a: set<nat>, b: set<nat>)
    requires a <= b
    ensures |a| <= |b|
  {
    if a != {} {
      var x :| x in a;
      SmallerSet(a - {x}, b - {x});
    }
  }

  lemma {:induction false} FewThreadsInv(n: nat, run: seq<State>, acts: seq<Action>, k: nat)
    requires IsRun(n, run, acts) && n <= TICKETS && k < |run|
    ensures Inv(run[k]) && |run[k].threads| == n
  {
    if k == 0 {
      InitInv(n);
    } else {
      FewThreadsInv(n, run, acts, k - 1);
      var s, a := run[k - 1], acts[k - 1];
      if Draws(s, a) {
        NotInLine(s, a.i);
        RoomForOne(s.line, n, a.i);
      }
      StepKeepsInv(s, a);
    }
  }

  /** With at most 65536 threads the condition holds in every run. */
  lemma FewThreads(n: nat, run: seq<State>, acts: seq<Action>)
    requires IsRun(n, run, acts) && n <= TICKETS
    ensures FewTickets(run, acts)
  {
    forall k | 0 <= k < |acts| && Enabled(run[k], acts[k]) && Draws(run[k], acts[k]) ensures |run[k].line| < TICKETS {
      FewThreadsInv(n, run, acts, k);
      NotInLine(run[k], acts[k].i);
      RoomForOne(run[k].line, n, acts[k].i);
    }
  }

  // ------------------------------------------------------------------ one thread too many

  // Of one thread more than there are tickets, the first is inside and k - 1 others have drawn.
  const CROWD: nat := TICKETS + 1

  function Firsts(k: nat): (r: seq<nat>)
    ensures |r| == k && forall i :: 0 <= i < k ==> r[i] == i
  {
    seq(k, i requires 0 <= i < k => i)
  }

  function Crowded(k: nat): State {
    State(0, k % TICKETS, seq(CROWD, i requires 0 <= i < CROWD => if i == 0 then Inside else if i < k then Waiting(i) else Out),
          Firsts(k), Firsts(k), [0])
  }

  lemma CrowdGrows(k: nat)
    requires 1 <= k < TICKETS
    ensures Enabled(Crowded(k), Draw(k)) && Apply(Crowded(k), Draw(k)) == Crowded(k + 1)
  {
    var s, r := Crowded(k), Crowded(k + 1);
    assert s.users == k && r.users == (s.users + 1) % TICKETS;
    assert s.threads[k := Waiting(k)] == r.threads;
    assert Firsts(k) + [k] == Firsts(k + 1);
  }

  lemma CrowdStarts()
    ensures Enabled(Init(CROWD), Draw(0)) && Enabled(Apply(Init(CROWD), Draw(0)), See(0))
    ensures Apply(Apply(Init(CROWD), Draw(0)), See(0)) == Crowded(1)
  {
    var r := Apply(Apply(Init(CROWD), Draw(0)), See(0));
    assert r.threads == Crowded(1).threads;
    assert [0] == Firsts(1);
  }

  lemma Extend(n: nat, run: seq<State>, acts: seq<Action>, a: Action) returns (run': seq<State>, acts': seq<Action>)
    requires IsRun(n, run, acts) && Enabled(run[|acts|], a)
    ensures IsRun(n, run', acts') && run'[|acts'|] == Apply(run[|acts|], a)
  {
    run', acts' := run + [Apply(run[|acts|], a)], acts + [a];
    forall k | 0 <= k < |acts'| ensures Enabled(run'[k], acts'[k]) && run'[k + 1] == Apply(run'[k], acts'[k]) {
      if k < |acts| {
        assert run'[k] == run[k] && acts'[k] == acts[k] && run'[k + 1] == run[k + 1];
      }
    }
  }

  lemma {:induction false} CrowdGathers(k: nat) returns (run: seq<State>, acts: seq<Action>)
    requires 1 <= k <= TICKETS
    ensures IsRun(CROWD, run, acts) && run[|acts|] == Crowded(k)
  {
    if k == 1 {
      CrowdStarts();
      run, acts := Extend(CROWD, [Init(CROWD)], [], Draw(0));
      run, acts := Extend(CROWD, run, acts, See(0));
    } else {
      run, acts := CrowdGathers(k - 1);
      CrowdGrows(k - 1);
      run, acts := Extend(CROWD, run, acts, Draw(k - 1));
    }
  }

  // The state in which one more draw is one too many.
  lemma CrowdIsFull()
    ensures var s := Crowded(TICKETS);
            Inv(s) && |s.line| == TICKETS && s.threads[s.line[0]].Inside? && Enabled(s, Draw(TICKETS))
  {
    var s := Crowded(TICKETS);
    forall k | 0 <= k < |s.line| ensures PlaceOk(s, k) {
      assert s.line[k] == k;
    }
    forall i | 0 <= i < |s.threads| && (s.threads[i].Waiting? || s.threads[i].Inside?) ensures i in s.line {
      assert s.line[i] == i;
    }
    assert [0] + s.line[1..] == s.drawn;
  }

  /** The limit is reached: with 65537 threads there is a run that lets two of them in. */
  lemma TwoInside() returns (run: seq<State>, acts: seq<Action>)
    ensures IsRun(CROWD, run, acts) && !FewTickets(run, acts)
    ensures |run[|acts|].threads| == CROWD && run[|acts|].threads[0].Inside? && run[|acts|].threads[TICKETS].Inside?
  {
    var run0, acts0 := CrowdGathers(TICKETS);
    var s := Crowded(TICKETS);
    CrowdIsFull();
    OneTooMany(s, TICKETS);
    var run1, acts1 := Extend(CROWD, run0, acts0, Draw(TICKETS));
    run, acts := Extend(CROWD, run1, acts1, See(TICKETS));
    if FewTickets(run, acts) {
      ExclusionAndOrder(CROWD, run, acts, |acts|, 0, TICKETS);
    }
  }
}
