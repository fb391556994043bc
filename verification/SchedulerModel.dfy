/**
  The work scheduler as a step system over all threads.

  A thread runs nodes, sends work to nodes of other threads, remembers in `comm` whom it must
  wake, moves nodes between queues and, when it finds no work, tries to sleep.  Every step below
  is one atomic action of one thread.  In particular a compare-and-swap on the thread state and
  the update of the barrier counter that follows it are two different steps: the thread that did
  the swap carries a `debt` until it pays it.
 */
module SchedulerModel {

  datatype Option<T> = None | Some(value: T) {
    function GetOr(d: T): T { if Some? then value else d }
  }

  // thread states: THREAD_ACTIVE, THREAD_INACTIVE and THREAD_ACTIVE | THREAD_NEW_WORK
  datatype TState = Active | Inactive | ActiveNewWork

  datatype Kind = NormalMoving | NormalStatic | PrioMoving | PrioStatic

  datatype Reason = PrioChange | StaticChange | AffinityChange

  // The queue tag of a node.  Where the tag does not name a queue the model also records which
  // thread holds the node.
  datatype Tag =
    | Idle
    | Working(who: nat)
    | Stealing(who: nat)
    | Changing(who: nat, reason: Reason)
    | InQueue(kind: Kind)

  datatype Node = Node(owner: nat, pinned: Option<nat>, hasPriority: bool,
                       tag: Tag, unprocessed: bool, lock: Option<nat>)

  datatype Op =
    | SetPriority(has: bool)
    | RemovePriority(has: bool)
    | MakeStatic
    | MakeMoving
    | SetOwner(to: nat)

  // Look: the node state is about to be read; Take: the node is about to be removed from the
  // queue it was seen in; Put: it was removed and must be inserted again; Ring: the owner of
  // the node must still be activated.
  datatype Phase = Look(tries: nat) | Take(from: Kind, tries: nat) | Put | Ring

  datatype PC =
    | Run
    | Next
    | Wake(todo: set<nat>)
    | Arrive
    | Check
    | Commit
    | Poll
    | Resume
    | Exited
    | Coord(node: nat, op: Op, from: Kind, phase: Phase)
    | Scan(inLoop: bool, activated: bool, hasWork: bool)
    | Adopt(victim: nat, loot: set<nat>)

  // A counter update that the thread still has to perform.
  datatype Debt = NoDebt | OwesIncrement | OwesDecrement

  datatype Thread = Thread(tstate: TState, pc: PC, cur: Option<nat>, comm: set<nat>, debt: Debt)

  datatype Entry = Entry(thread: nat, kind: Kind, node: nat)

  datatype State = State(threads: seq<Thread>, nodes: seq<Node>, members: multiset<Entry>,
                         counter: int, done: bool, aborted: bool)

  datatype Action =
    | Pay                                  // term_barrier->is_active() / is_inactive()
    | ClearFacts                           // run_node consumes the facts of its own node
    | MarkFacts                            // run_node stops early because the owner changed
    | Send(to: nat)                        // new_work
    | ScheduleNext(node: nat)              // schedule_next of an owned idle node
    | RetargetCurrent(pinned: Option<nat>) // set_node_static/moving/owner on the current node
    | FinishNode                           // run_node returns
    | ReleaseCurrent(has: bool)            // check_if_current_useless; has: the default priority is one
    | Pop(kind: Kind, node: nat)           // pop_best / pop_head
    | StartWaking                          // no work: walk comm_threads
    | WakeOne(target: nat)                 // activate_thread
    | EndWaking                            // comm_threads.clear
    | EnterLoop                            // busy_wait without a first theft
    | TestWork                             // while(!has_work())
    | TrySleep                             // set_inactive_if_no_work
    | TestDone                             // all_threads_finished
    | WakeSelf                             // set_active_if_inactive
    | BeginOp(node: nat, op: Op)           // NODE_LOCK and the switch of a coordination call
    | LookState
    | TakeOut
    | PutBack
    | RingOwner
    | BeginSteal
    | StealSelfActivate                    // a victim was seen active and with work, perhaps long ago
    | StealTake(victim: nat, kind: Kind, loot: set<nat>)
    | StealAdopt(node: nat)
    | StealDone
    | StealGiveUp

  predicate IsSteal(a: Action) {
    a.BeginSteal? || a.StealSelfActivate? || a.StealTake? || a.StealAdopt? || a.StealDone? || a.StealGiveUp?
  }

  // Actions of a thread that goes on in its loop, and actions that swap thread states: they touch no node.
  predicate MovesOn(a: Action) {
    || a.FinishNode? || a.StartWaking? || a.EndWaking? || a.EnterLoop? || a.TestWork? || a.TestDone?
    || a.BeginSteal? || a.StealDone?
  }

  predicate SwapsOwnState(a: Action) {
    a.TrySleep? || a.WakeSelf? || a.StealSelfActivate? || a.StealGiveUp?
  }

  predicate HasWork(s: State, t: nat) {
    exists e | e in s.members :: e.thread == t
  }

  // the queue add_to_queue selects
  function Destination(n: Node): Kind {
    if n.hasPriority then
      if n.pinned.Some? then PrioStatic else PrioMoving
    else if n.pinned.Some? then NormalStatic else NormalMoving
  }

  // thread->add_to_queue(node)
  function Enqueue(s: State, t: nat, n: nat): State
    requires n < |s.nodes|
  {
    var k := Destination(s.nodes[n]);
    s.(nodes := s.nodes[n := s.nodes[n].(tag := InQueue(k))],
       members := s.members + multiset{Entry(t, k, n)})
  }

  // The queue a coordination call wants to move a node to, given the queue it was seen in.
  function Target(op: Op, k: Kind): Option<Kind> {
    match op
    case SetPriority(_) =>
      if k == NormalMoving then Some(PrioMoving)
      else if k == NormalStatic then Some(PrioStatic) else None
    case RemovePriority(_) =>
      if k == PrioMoving then Some(NormalMoving)
      else if k == PrioStatic then Some(NormalStatic) else None
    case MakeStatic =>
      if k == NormalMoving then Some(NormalStatic)
      else if k == PrioMoving then Some(PrioStatic) else None
    case MakeMoving =>
      if k == NormalStatic then Some(NormalMoving)
      else if k == PrioStatic then Some(PrioMoving) else None
    case SetOwner(_) => Some(k)
  }

  function ReasonOf(op: Op): Reason {
    match op
    case SetPriority(_) => PrioChange
    case RemovePriority(_) => PrioChange
    case MakeStatic => StaticChange
    case MakeMoving => StaticChange
    case SetOwner(_) => AffinityChange
  }

  // Is a node tag one that the switch of the call does not list, so that it aborts?
  predicate Unlisted(op: Op, tag: Tag, mine: bool) {
    match op
    case SetPriority(_) => tag.Changing? && tag.reason != PrioChange
    case RemovePriority(_) => tag.Changing? || (tag.Idle? && !mine)
    case _ => tag.Changing?
  }

  // Calls that remove the node from the queues of the calling thread, whoever owns the node.
  predicate OwnQueues(op: Op) {
    op.MakeStatic? || op.MakeMoving? || op.SetOwner?
  }

  // Fields written as soon as the node lock is taken.
  function Prepare(n: Node, t: nat, op: Op): Node {
    match op
    case SetPriority(has) => n.(hasPriority := has)
    case RemovePriority(has) => n.(hasPriority := has)
    case MakeStatic => n.(pinned := Some(t))
    case MakeMoving => n.(pinned := None)
    case SetOwner(to) => n.(pinned := Some(to))
  }

  // The early returns of set_node_static, set_node_moving and set_node_owner.
  predicate Redundant(n: Node, op: Op) {
    || (op.MakeStatic? && n.pinned.Some?)
    || (op.MakeMoving? && n.pinned.None?)
    || (op.SetOwner? && n.owner == op.to)
  }

  // activate_thread on thread x, performed by thread t
  function Activate(s: State, t: nat, x: nat): State
    requires t < |s.threads| && x < |s.threads|
  {
    var s1 := s.(threads := s.threads[x := s.threads[x].(tstate := ActiveNewWork)]);
    if s.threads[x].tstate == Inactive
    then s1.(threads := s1.threads[t := s1.threads[t].(debt := OwesIncrement)])
    else s1
  }

  // The guards of actions that touch no node.
  predicate MayMove(s: State, t: nat, th: Thread, a: Action) {
    match a
    case FinishNode => th.pc == Run
    case StartWaking => th.pc == Next && th.cur.None? && !HasWork(s, t)
    case EndWaking => th.pc == Wake({})
    case EnterLoop => th.pc == Arrive
    case TestWork => th.pc == Check
    case TrySleep => th.pc == Commit
    case TestDone => th.pc == Poll
    case WakeSelf => th.pc == Resume
    case BeginSteal => th.pc == Arrive || th.pc == Commit
    case StealSelfActivate => th.pc.Scan? && !th.pc.activated
    case StealDone => th.pc.Adopt? && th.pc.loot == {}
    case StealGiveUp => th.pc.Scan?
    case _ => false
  }

  predicate Unlocked(s: State, n: nat) { n < |s.nodes| && s.nodes[n].lock.None? }

  // The guards of the other actions, except paying.
  predicate MayTouch(s: State, t: nat, th: Thread, a: Action)
    requires t < |s.threads|
  {
    match a
    case ClearFacts => th.pc == Run && th.cur.Some? && Unlocked(s, th.cur.value)
    case MarkFacts => th.pc == Run && th.cur.Some? && th.cur.value < |s.nodes|
    case Send(to) => th.pc == Run && Unlocked(s, to)
    case ScheduleNext(n) => th.pc == Run && Unlocked(s, n) && s.nodes[n].owner == t && s.nodes[n].tag == Idle
    case RetargetCurrent(st) =>
      th.pc == Run && th.cur.Some? && Unlocked(s, th.cur.value) && (st.Some? ==> st.value < |s.threads|)
    case ReleaseCurrent(_) => th.pc == Next && th.cur.Some? && Unlocked(s, th.cur.value)
    case Pop(k, n) => th.pc == Next && th.cur.None? && n < |s.nodes| && Entry(t, k, n) in s.members
    case WakeOne(x) => th.pc.Wake? && x in th.pc.todo && x < |s.threads|
    case BeginOp(n, op) =>
      th.pc == Run && Unlocked(s, n) && th.cur != Some(n) && (op.SetOwner? ==> op.to < |s.threads|)
    case LookState => th.pc.Coord? && th.pc.phase.Look? && th.pc.node < |s.nodes|
    case TakeOut => th.pc.Coord? && th.pc.phase.Take? && th.pc.node < |s.nodes|
    case PutBack => th.pc.Coord? && th.pc.phase.Put? && th.pc.node < |s.nodes|
    case RingOwner =>
      th.pc.Coord? && th.pc.phase.Ring? && th.pc.node < |s.nodes| && s.nodes[th.pc.node].owner < |s.threads|
    case StealTake(v, k, loot) =>
      && th.pc.Scan? && th.pc.activated && v < |s.threads| && v != t
      && (k == NormalMoving || k == PrioMoving) && loot != {}
      && (forall n | n in loot :: n < |s.nodes| && Entry(v, k, n) in s.members)
    case StealAdopt(n) => th.pc.Adopt? && n in th.pc.loot && Unlocked(s, n)
    case _ => false
  }

  // A thread that owes an update of the counter can only pay.
  predicate Enabled(s: State, t: nat, a: Action) {
    && t < |s.threads|
    && !s.aborted
    && var th := s.threads[t];
    || (a.Pay? && th.debt != NoDebt)
    || (th.debt == NoDebt && MayMove(s, t, th, a))
    || (th.debt == NoDebt && MayTouch(s, t, th, a))
  }

  function SetThread(s: State, t: nat, th: Thread): State
    requires t < |s.threads|
  {
    s.(threads := s.threads[t := th])
  }

  function SetNode(s: State, n: nat, nd: Node): State
    requires n < |s.nodes|
  {
    s.(nodes := s.nodes[n := nd])
  }

  function PayDebt(s: State, t: nat): State
    requires t < |s.threads|
  {
    var th := s.threads[t];
    var s1 := SetThread(s, t, th.(debt := NoDebt));
    if th.debt == OwesIncrement then s1.(counter := s.counter + 1)
    else s1.(counter := s.counter - 1, done := s.done || s.counter - 1 == 0)
  }

  // Only thread t and the nodes change; no thread state is swapped and the barrier is not touched.
  predicate Quiet(s: State, r: State, t: nat) {
    && t < |s.threads| == |r.threads| && |r.nodes| == |s.nodes|
    && r.threads == s.threads[t := r.threads[t]]
    && r.threads[t].tstate == s.threads[t].tstate && r.threads[t].debt == s.threads[t].debt
    && r.counter == s.counter && r.done == s.done
  }

  // A quiet step that changes at most node n.
  predicate QuietAt(s: State, r: State, t: nat, n: nat) {
    Quiet(s, r, t) && n < |s.nodes| && r.nodes == s.nodes[n := r.nodes[n]]
  }

  // new_work
  function SendWork(s: State, t: nat, to: nat): (r: State)
    requires t < |s.threads| && to < |s.nodes|
    ensures QuietAt(s, r, t, to)
  {
    var th, n := s.threads[t], s.nodes[to];
    var s1 := SetNode(s, to, n.(unprocessed := true));
    if n.tag != Idle then s1
    else if n.owner == t then Enqueue(s1, t, to)
    else SetThread(Enqueue(s1, n.owner, to), t, th.(comm := th.comm + {n.owner}))
  }

  // check_if_current_useless
  function Release(s: State, t: nat, has: bool): (r: State)
    requires t < |s.threads| && s.threads[t].cur.Some? && s.threads[t].cur.value < |s.nodes|
    ensures QuietAt(s, r, t, s.threads[t].cur.value)
  {
    var th := s.threads[t];
    var c := th.cur.value;
    var n := s.nodes[c];
    if n.pinned.Some? && n.pinned.value != n.owner then
      var dst := n.pinned.value;
      var s1 := Enqueue(SetNode(s, c, n.(owner := dst, hasPriority := has)), dst, c);
      SetThread(s1, t, th.(cur := None, comm := th.comm + {dst}))
    else if !n.unprocessed then
      SetThread(SetNode(s, c, n.(tag := Idle, hasPriority := has)), t, th.(cur := None))
    else
      SetThread(s, t, th.(pc := Run))
  }

  // set_inactive_if_no_work
  function Slept(th: Thread, back: PC, awake: PC): Thread {
    match th.tstate
    case Inactive => th.(pc := back)
    case Active => th.(tstate := Inactive, debt := OwesDecrement, pc := back)
    case ActiveNewWork => th.(tstate := Active, pc := awake)
  }

  // set_active_if_inactive
  function Woken(th: Thread, quiet: PC, hadFlag: PC): Thread {
    match th.tstate
    case Inactive => th.(tstate := Active, debt := OwesIncrement, pc := quiet)
    case Active => th.(pc := quiet)
    case ActiveNewWork => th.(tstate := Active, pc := hadFlag)
  }

  // The thread after an action that touches nothing else.
  function Moved(s: State, t: nat, th: Thread, a: Action): Thread {
    match a
    case FinishNode => th.(pc := Next)
    case StartWaking => th.(pc := Wake(th.comm))
    case EndWaking => th.(pc := Arrive, comm := {})
    case EnterLoop => th.(pc := Check)
    case TestWork => th.(pc := if HasWork(s, t) then Resume else Commit)
    case TrySleep => Slept(th, Poll, Next)
    case TestDone => th.(pc := if s.done then Exited else Check)
    case WakeSelf => Woken(th, Next, Next)
    case BeginSteal => th.(pc := Scan(th.pc == Commit, false, false))
    case StealSelfActivate =>
      if th.pc.Scan? then Woken(th, Scan(th.pc.inLoop, true, th.pc.hasWork), Scan(th.pc.inLoop, true, true)) else th
    case StealDone => th.(pc := Next)
    case StealGiveUp =>
      if !th.pc.Scan? then th else
      var back := if th.pc.inLoop then Commit else Check;
      if !th.pc.activated then th.(pc := back)
      else if th.pc.hasWork then th.(pc := Next)
      else Slept(th, back, back)
    case _ => th
  }

  function Unlock(s: State, t: nat): State
    requires t < |s.threads| && s.threads[t].pc.Coord? && s.threads[t].pc.node < |s.nodes|
  {
    var n := s.threads[t].pc.node;
    SetThread(SetNode(s, n, s.nodes[n].(lock := None)), t, s.threads[t].(pc := Run))
  }

  function Begin(s: State, t: nat, n: nat, op: Op): (r: State)
    requires t < |s.threads| && n < |s.nodes|
    ensures QuietAt(s, r, t, n)
  {
    var nd := s.nodes[n];
    if Redundant(nd, op) then
      if op.SetOwner? then SetNode(s, n, Prepare(nd, t, op)) else s
    else
      SetThread(SetNode(s, n, Prepare(nd, t, op).(lock := Some(t))), t,
                s.threads[t].(pc := Coord(n, op, NormalMoving, Look(0))))
  }

  // switch(tn->node_state())
  function Look1(s: State, t: nat): (r: State)
    requires t < |s.threads| && s.threads[t].pc.Coord? && s.threads[t].pc.phase.Look?
    requires s.threads[t].pc.node < |s.nodes|
    ensures QuietAt(s, r, t, s.threads[t].pc.node)
  {
    var th := s.threads[t];
    var Coord(n, op, _, Look(tries)) := th.pc;
    var nd := s.nodes[n];
    if Unlisted(op, nd.tag, nd.owner == t) then s.(aborted := true)
    else if nd.tag.InQueue? && Target(op, nd.tag.kind).Some? then
      SetThread(s, t, th.(pc := Coord(n, op, nd.tag.kind, Take(nd.tag.kind, tries))))
    else if op.SetOwner? && (nd.tag.Stealing? || nd.tag.Idle?) then
      Unlock(SetNode(s, n, nd.(owner := op.to)), t)
    else Unlock(s, t)
  }

  // remove(node, new_state): under the queue mutex, only when the tag still names the queue.  The tag
  // names a kind of queue and not a thread, so the test does not notice the queue of another thread.
  function Take1(s: State, t: nat): (r: State)
    requires t < |s.threads| && s.threads[t].pc.Coord? && s.threads[t].pc.phase.Take?
    requires s.threads[t].pc.node < |s.nodes|
    ensures QuietAt(s, r, t, s.threads[t].pc.node)
  {
    var th := s.threads[t];
    var Coord(n, op, _, Take(k, tries)) := th.pc;
    var nd := s.nodes[n];
    if nd.tag == InQueue(k) then
      SetThread(SetNode(s, n, nd.(tag := Changing(t, ReasonOf(op)))), t, th.(pc := Coord(n, op, k, Put)))
      .(members := s.members - multiset{Entry(if OwnQueues(op) then t else nd.owner, k, n)})
    else if op.SetOwner? then SetThread(s, t, th.(pc := Coord(n, op, k, Look(tries + 1))))
    else Unlock(s, t)
  }

  // set_owner and move_node_to_new_owner
  function PutAway(s: State, t: nat): (r: State)
    requires t < |s.threads| && s.threads[t].pc.Coord? && s.threads[t].pc.op.SetOwner? && s.threads[t].pc.node < |s.nodes|
    ensures QuietAt(s, r, t, s.threads[t].pc.node)
  {
    var th := s.threads[t];
    var Coord(n, op, _, _) := th.pc;
    var s1 := Enqueue(SetNode(s, n, s.nodes[n].(owner := op.to)), op.to, n);
    Unlock(SetThread(s1, t, th.(comm := th.comm + {op.to})), t)
  }

  // push_tail or insert into the other queue
  function PutOver(s: State, t: nat): (r: State)
    requires t < |s.threads| && s.threads[t].pc.Coord? && s.threads[t].pc.node < |s.nodes|
    ensures QuietAt(s, r, t, s.threads[t].pc.node)
  {
    var th := s.threads[t];
    var Coord(n, op, k, _) := th.pc;
    var dst, holder := Target(op, k).GetOr(k), if OwnQueues(op) then t else s.nodes[n].owner;
    var s1 := SetNode(s, n, s.nodes[n].(tag := InQueue(dst))).(members := s.members + multiset{Entry(holder, dst, n)});
    if holder != t then SetThread(s1, t, th.(pc := Coord(n, op, k, Ring))) else Unlock(s1, t)
  }

  function Put1(s: State, t: nat): (r: State)
    requires t < |s.threads| && s.threads[t].pc.Coord? && s.threads[t].pc.node < |s.nodes|
    ensures QuietAt(s, r, t, s.threads[t].pc.node)
  {
    if s.threads[t].pc.op.SetOwner? then PutAway(s, t) else PutOver(s, t)
  }

  // steal_nodes: the loot leaves the victim's queue tagged STATE_STEALING
  function Rob(s: State, t: nat, v: nat, k: Kind, loot: set<nat>): (r: State)
    requires t < |s.threads|
    requires forall n | n in loot :: n < |s.nodes|
    ensures Quiet(s, r, t)
  {
    var nodes := seq(|s.nodes|, i requires 0 <= i < |s.nodes| =>
                     if i in loot then s.nodes[i].(tag := Stealing(t)) else s.nodes[i]);
    var gone := set n | n in loot :: Entry(v, k, n);
    SetThread(s, t, s.threads[t].(pc := Adopt(v, loot)))
    .(nodes := nodes, members := s.members - multiset(gone))
  }

  // one round of the loop in go_steal_nodes
  function AdoptOne(s: State, t: nat, n: nat): (r: State)
    requires t < |s.threads| && s.threads[t].pc.Adopt? && n < |s.nodes|
    ensures QuietAt(s, r, t, n)
  {
    var th := s.threads[t];
    var nd := s.nodes[n];
    var rest := th.(pc := Adopt(th.pc.victim, th.pc.loot - {n}));
    if !nd.tag.Stealing? then SetThread(s, t, rest)
    else if nd.pinned.Some? && nd.owner != th.pc.victim then
      SetThread(Enqueue(s, nd.owner, n), t, rest.(comm := th.comm + {nd.owner}))
    else
      var st := if nd.pinned.Some? then Some(t) else None;
      SetThread(Enqueue(SetNode(s, n, nd.(owner := t, pinned := st)), t, n), t, rest)
  }

  function Apply(s: State, t: nat, a: Action): State
    requires Enabled(s, t, a)
  {
    var th := s.threads[t];
    match a
    case Pay => PayDebt(s, t)
    case ClearFacts => SetNode(s, th.cur.value, s.nodes[th.cur.value].(unprocessed := false))
    case MarkFacts => SetNode(s, th.cur.value, s.nodes[th.cur.value].(unprocessed := true))
    case Send(to) => SendWork(s, t, to)
    case ScheduleNext(n) => Enqueue(SetNode(s, n, s.nodes[n].(hasPriority := true)), t, n)
    case RetargetCurrent(st) => SetNode(s, th.cur.value, s.nodes[th.cur.value].(pinned := st))
    case ReleaseCurrent(has) => Release(s, t, has)
    case Pop(k, n) =>
      SetThread(SetNode(s, n, s.nodes[n].(tag := Working(t))), t, th.(cur := Some(n), pc := Run))
      .(members := s.members - multiset{Entry(t, k, n)})
    case WakeOne(x) => Activate(SetThread(s, t, th.(pc := Wake(th.pc.todo - {x}))), t, x)
    case BeginOp(n, op) => Begin(s, t, n, op)
    case LookState => Look1(s, t)
    case TakeOut => Take1(s, t)
    case PutBack => Put1(s, t)
    case RingOwner => Activate(Unlock(s, t), t, s.nodes[th.pc.node].owner)
    case StealTake(v, k, loot) => Rob(s, t, v, k, loot)
    case StealAdopt(n) => AdoptOne(s, t, n)
    case _ => SetThread(s, t, Moved(s, t, th, a))
  }
}
