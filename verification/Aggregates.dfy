/**
  Incremental aggregates: a configuration of a group keeps the tuples it has seen, and generate
  emits what changed since the last time.

  A row has the key of its group, the aggregated field and the rest.  The replay of the emitted
  events is the database somebody else keeps up to date with them.
 */
module Aggregates {

  datatype Option<T> = None | Some(value: T)

  datatype Row = Row(group: int, value: int, rest: int)

  // A leaf of the trie of values: the tuple, its reference count and its maximal depth.
  datatype Leaf = Leaf(row: Row, count: nat, depth: nat)

  datatype AggType = First | Max | Min | Sum

  datatype Direction = Positive | Negative

  datatype Event = Assert(row: Row, depth: nat) | Retract(row: Row, depth: nat)

  // ------------------------------------------------------------------ the folds

  predicate Better(typ: AggType, a: int, b: int) {
    if typ == Max then a > b else a < b
  }

  // The leaf the scan of generate_max and generate_min ends with.
  function BestLeaf(typ: AggType, vals: seq<Leaf>): (b: Leaf)
    requires vals != []
    ensures b in vals
  {
    var n := |vals| - 1;
    if n == 0 then vals[0] else
    var b := BestLeaf(typ, vals[..n]);
    if Better(typ, vals[n].row.value, b.row.value) then vals[n] else b
  }

  function SumOf(vals: seq<Leaf>): int {
    if vals == [] then 0 else SumOf(vals[..|vals| - 1]) + vals[|vals| - 1].count * vals[|vals| - 1].row.value
  }

  function MaxDepth(vals: seq<Leaf>): nat {
    if vals == [] then 0 else
    var d := MaxDepth(vals[..|vals| - 1]);
    if d < vals[|vals| - 1].depth then vals[|vals| - 1].depth else d
  }

  // do_generate
  function Agg(typ: AggType, vals: seq<Leaf>): Option<Row> {
    if vals == [] then None else
    match typ
    case First => Some(vals[0].row)
    case Sum => Some(vals[0].row.(value := SumOf(vals)))
    case _ => Some(BestLeaf(typ, vals).row)
  }

  /** A maximum is a maximum, and the first one in the order of the leaves; so is a minimum. */
  lemma {:induction false} BestIsBest(typ: AggType, vals: seq<Leaf>, i: nat)
    requires i < |vals|
    ensures !Better(typ, vals[i].row.value, BestLeaf(typ, vals).row.value)
    ensures exists k :: 0 <= k < |vals| && vals[k] == BestLeaf(typ, vals)
                        && forall j :: 0 <= j < k ==> Better(typ, vals[k].row.value, vals[j].row.value)
  {
    var n := |vals| - 1;
    if n > 0 {
      BestIsBest(typ, vals[..n], if i < n then i else 0);
      var k :| 0 <= k < n && vals[..n][k] == BestLeaf(typ, vals[..n])
               && forall j :: 0 <= j < k ==> Better(typ, vals[..n][k].row.value, vals[..n][j].row.value);
      if Better(typ, vals[n].row.value, vals[k].row.value) {
        forall j | 0 <= j < n ensures Better(typ, vals[n].row.value, vals[j].row.value) {
          BestIsBest(typ, vals[..n], j);
        }
      } else {
        assert forall j :: 0 <= j < k ==> vals[..n][j] == vals[j];
        assert vals[k] == BestLeaf(typ, vals);
      }
    } else {
      assert vals[0] == BestLeaf(typ, vals);
    }
  }

  // generate_max_int, generate_min_int and their float forms
  method GenerateBest(typ: AggType, vals: seq<Leaf>) returns (row: Row, depth: nat)
    requires vals != []
    ensures row == BestLeaf(typ, vals).row && depth == MaxDepth(vals)
  {
    var best := vals[0];
    depth := if vals[0].depth > 0 then vals[0].depth else 0;
    assert vals[..1][..0] == [] && vals[..1] == [vals[0]];
    for i := 1 to |vals|
      invariant best == BestLeaf(typ, vals[..i]) && depth == MaxDepth(vals[..i])
    {
      assert vals[..i + 1][..i] == vals[..i];
      depth := if depth < vals[i].depth then vals[i].depth else depth;
      if Better(typ, vals[i].row.value, best.row.value) {
        best := vals[i];
      }
    }
    assert vals[..|vals|] == vals;
    row := best.row;
  }

  // generate_sum_int: each tuple as often as it is referenced
  method GenerateSum(vals: seq<Leaf>) returns (row: Row, depth: nat)
    requires vals != []
    ensures row == vals[0].row.(value := SumOf(vals)) && depth == MaxDepth(vals)
  {
    var sum := 0;
    depth := 0;
    for i := 0 to |vals|
      invariant sum == SumOf(vals[..i]) && depth == MaxDepth(vals[..i])
    {
      assert vals[..i + 1][..i] == vals[..i];
      depth := if depth < vals[i].depth then vals[i].depth else depth;
      var before := sum;
      for j := 0 to vals[i].count
        invariant sum == before + j * vals[i].row.value
      {
        sum := sum + vals[i].row.value;
      }
    }
    assert vals[..|vals|] == vals;
    row := vals[0].row.(value := sum);
  }

  // ------------------------------------------------------------------ a configuration

  datatype Conf = Conf(vals: seq<Leaf>, changed: bool, corresponds: Option<Row>, lastDepth: nat)

  const NEW_CONF: Conf := Conf([], false, None, 0)

  function Find(vals: seq<Leaf>, row: Row): (i: nat)
    ensures i <= |vals| && (i < |vals| ==> vals[i].row == row)
    ensures forall j :: 0 <= j < i ==> vals[j].row != row
  {
    if vals == [] || vals[0].row == row then 0 else 1 + Find(vals[1..], row)
  }

  // The references to a tuple.
  function Refs(vals: seq<Leaf>, row: Row): nat {
    if Find(vals, row) < |vals| then vals[Find(vals, row)].count else 0
  }

  // add_to_set: note that retracting an absent tuple takes back the mark of an earlier change.
  function Added(c: Conf, row: Row, dir: Direction, depth: nat): Conf {
    var i := Find(c.vals, row);
    match dir
    case Positive =>
      if i < |c.vals| then
        c.(vals := c.vals[i := Leaf(row, c.vals[i].count + 1, if depth > c.vals[i].depth then depth else c.vals[i].depth)], changed := true)
      else
        c.(vals := c.vals + [Leaf(row, 1, depth)], changed := true)
    case Negative =>
      if i == |c.vals| then c.(changed := false)
      else if c.vals[i].count <= 1 then c.(vals := c.vals[..i] + c.vals[i + 1..], changed := true)
      else c.(vals := c.vals[i := c.vals[i].(count := c.vals[i].count - 1)], changed := true)
  }

  // Whenever nothing is marked as changed, what was announced is the aggregate.
  predicate Current(typ: AggType, c: Conf) {
    c.changed || c.corresponds == Agg(typ, c.vals)
  }

  /** A tuple that is added or retracted keeps the configuration current, unless it is retracted while
      absent and a change is waiting that makes a difference; then, and only then, it does not. */
  lemma AddedStaysCurrent(typ: AggType, c: Conf, row: Row, dir: Direction, depth: nat)
    requires Current(typ, c)
    ensures Current(typ, Added(c, row, dir, depth))
            <==> dir == Positive || Find(c.vals, row) < |c.vals| || c.corresponds == Agg(typ, c.vals)
  {}

  // The tuples are distinct, of one group, and have references.
  predicate ValsOk(vals: seq<Leaf>, group: int) {
    && (forall i, j :: 0 <= i < j < |vals| ==> vals[i].row != vals[j].row)
    && (forall i :: 0 <= i < |vals| ==> vals[i].count > 0 && vals[i].row.group == group)
  }

  /** The set of values is a multiset of rows: a row that is added has one reference more, one that is
      retracted one less, none if it had none, and no other row changes. */
  lemma AddedCounts(c: Conf, row: Row, dir: Direction, depth: nat, x: Row)
    requires ValsOk(c.vals, row.group)
    ensures var r := Added(c, row, dir, depth).vals;
            && ValsOk(r, row.group)
            && Refs(r, x) == if x != row then Refs(c.vals, x)
                             else if dir == Positive then Refs(c.vals, x) + 1
                             else if Refs(c.vals, x) > 0 then Refs(c.vals, x) - 1 else 0
  {
    var r, i := Added(c, row, dir, depth).vals, Find(c.vals, row);
    if |r| == |c.vals| {
      if i < |c.vals| {
        Recounted(c.vals, row.group, i, r[i], x);
      }
    } else if |r| > |c.vals| {
      Appended(c.vals, row.group, r[|c.vals|], x);
    } else {
      Removed(c.vals, row.group, i, x);
    }
  }

  lemma Recounted(vals: seq<Leaf>, group: int, i: nat, leaf: Leaf, x: Row)
    requires ValsOk(vals, group) && i < |vals| && leaf.row == vals[i].row && leaf.count > 0
    ensures ValsOk(vals[i := leaf], group) && Refs(vals[i := leaf], x) == if x == leaf.row then leaf.count else Refs(vals, x)
  {
    FindIs(vals[i := leaf], x, Find(vals, x));
  }

  lemma Appended(vals: seq<Leaf>, group: int, leaf: Leaf, x: Row)
    requires ValsOk(vals, group) && Find(vals, leaf.row) == |vals| && leaf.count > 0 && leaf.row.group == group
    ensures ValsOk(vals + [leaf], group) && Refs(vals + [leaf], x) == if x == leaf.row then leaf.count else Refs(vals, x)
  {
    var k := Find(vals, x);
    FindIs(vals + [leaf], x, if x == leaf.row then |vals| else if k < |vals| then k else |vals| + 1);
  }

  lemma Removed(vals: seq<Leaf>, group: int, i: nat, x: Row)
    requires ValsOk(vals, group) && i < |vals|
    ensures var r := vals[..i] + vals[i + 1..]; ValsOk(r, group) && Refs(r, x) == if x == vals[i].row then 0 else Refs(vals, x)
  {
    var r := vals[..i] + vals[i + 1..];
    assert forall p :: 0 <= p < |r| ==> r[p] == if p < i then vals[p] else vals[p + 1];
    FindIs(r, x, if x == vals[i].row then |r| else if Find(vals, x) <= i then Find(vals, x) else Find(vals, x) - 1);
  }

  lemma FindIs(vals: seq<Leaf>, x: Row, k: nat)
    requires k <= |vals| && (k < |vals| ==> vals[k].row == x) && forall j :: 0 <= j < k ==> vals[j].row != x
    ensures Find(vals, x) == k
  {}

  // generate: what is emitted, given what do_generate found
  function Emitted(c: Conf, found: Option<Row>, depth: nat): seq<Event> {
    if c.corresponds == found then []
    else (if c.corresponds.Some? then [Retract(c.corresponds.value, c.lastDepth)] else [])
         + (if found.Some? then [Assert(found.value, depth)] else [])
  }

  function Generated(c: Conf, found: Option<Row>, depth: nat): Conf {
    if c.corresponds == found then c.(changed := false)
    else Conf(c.vals, false, found, if found.Some? then depth else 0)
  }

  // ------------------------------------------------------------------ replay

  // What stands for each group, with the depth it was asserted with.
  type Standing = map<int, (Row, nat)>

  // None when an event does not fit: a second assertion, or a retraction of something else.
  function Replay(log: seq<Event>): Option<Standing> {
    if log == [] then Some(map[]) else
    var before := Replay(log[..|log| - 1]);
    if before.None? then None else Step(before.value, log[|log| - 1])
  }

  function Step(m: Standing, e: Event): Option<Standing> {
    match e
    case Assert(r, d) => if r.group in m then None else Some(m[r.group := (r, d)])
    case Retract(r, d) => if r.group in m && m[r.group] == (r, d) then Some(m - {r.group}) else None
  }

  lemma ReplayMore(log: seq<Event>, e: Event)
    ensures Replay(log + [e]) == if Replay(log).None? then None else Step(Replay(log).value, e)
  {}

  // What the configuration of a group has announced
  predicate Announced(m: Standing, group: int, c: Conf) {
    if c.corresponds.Some? then group in m && m[group] == (c.corresponds.value, c.lastDepth) else group !in m
  }

  /** The events of generate fit, and replaying them replaces what was announced for the group by
      what was found now; each retraction has the depth of the assertion it undoes. */
  lemma EmittedFits(log: seq<Event>, m: Standing, group: int, c: Conf, found: Option<Row>, depth: nat)
    requires Replay(log) == Some(m) && Announced(m, group, c)
    requires c.corresponds.Some? ==> c.corresponds.value.group == group
    requires found.Some? ==> found.value.group == group
    ensures var m' := Replay(log + Emitted(c, found, depth));
            && m'.Some? && Announced(m'.value, group, Generated(c, found, depth))
            && (forall g :: g != group ==> (g in m'.value <==> g in m) && (g in m ==> m'.value[g] == m[g]))
  {
    if c.corresponds == found {
      assert log + [] == log;
    } else {
      var log1 := if c.corresponds.Some? then log + [Retract(c.corresponds.value, c.lastDepth)] else log;
      if c.corresponds.Some? {
        ReplayMore(log, Retract(c.corresponds.value, c.lastDepth));
      }
      if found.Some? {
        ReplayMore(log1, Assert(found.value, depth));
        assert log + Emitted(c, found, depth) == log1 + [Assert(found.value, depth)];
      } else {
        assert log + Emitted(c, found, depth) == log1;
      }
    }
  }

  // ------------------------------------------------------------------ all groups

  datatype Group = Group(key: int, conf: Conf)

  ghost predicate GroupsOk(gs: seq<Group>) {
    && (forall i, j :: 0 <= i < j < |gs| ==> gs[i].key != gs[j].key)
    && (forall i :: 0 <= i < |gs| ==> GroupOk(gs[i]))
  }

  ghost predicate GroupOk(g: Group) {
    ValsOk(g.conf.vals, g.key) && (g.conf.corresponds.Some? ==> g.conf.corresponds.value.group == g.key)
  }

  // The replay of what was emitted is what the configurations have announced.
  ghost predicate LogOk(gs: seq<Group>, log: seq<Event>) {
    var m := Replay(log);
    && m.Some?
    && (forall i :: 0 <= i < |gs| ==> Announced(m.value, gs[i].key, gs[i].conf))
    && (forall g :: g in m.value ==> exists i :: 0 <= i < |gs| && gs[i].key == g)
  }

  ghost predicate AllCurrent(typ: AggType, gs: seq<Group>) {
    forall i :: 0 <= i < |gs| ==> Current(typ, gs[i].conf)
  }

  function FindGroup(gs: seq<Group>, key: int): (i: nat)
    ensures i <= |gs| && (i < |gs| ==> gs[i].key == key)
    ensures forall j :: 0 <= j < i ==> gs[j].key != key
  {
    if gs == [] || gs[0].key == key then 0 else 1 + FindGroup(gs[1..], key)
  }

  // add_to_set: the group of the row, made if needed
  function AddedTo(gs: seq<Group>, row: Row, dir: Direction, depth: nat): seq<Group> {
    var i := FindGroup(gs, row.group);
    var gs' := if i < |gs| then gs else gs + [Group(row.group, NEW_CONF)];
    gs'[i := Group(row.group, Added(gs'[i].conf, row, dir, depth))]
  }

  lemma AddedGroup(gs: seq<Group>, log: seq<Event>, row: Row, dir: Direction, depth: nat)
    requires GroupsOk(gs) && LogOk(gs, log)
    ensures GroupsOk(AddedTo(gs, row, dir, depth)) && LogOk(AddedTo(gs, row, dir, depth), log)
  {
    var i := FindGroup(gs, row.group);
    var gs' := if i < |gs| then gs else gs + [Group(row.group, NEW_CONF)];
    assert GroupOk(gs'[i]);
    AddedCounts(gs'[i].conf, row, dir, depth, row);
    var gs1 := AddedTo(gs, row, dir, depth);
    assert GroupsOk(gs1);
    forall g | g in Replay(log).value ensures exists j :: 0 <= j < |gs1| && gs1[j].key == g {
      var j :| 0 <= j < |gs| && gs[j].key == g;
      assert gs1[j].key == g;
    }
  }

  // Groups that are left: those with values. What stands for each is its aggregate.
  ghost predicate Exact(typ: AggType, gs: seq<Group>, m: Standing) {
    && (forall i :: 0 <= i < |gs| ==> gs[i].conf.vals != [] && gs[i].key in m && Some(m[gs[i].key].0) == Agg(typ, gs[i].conf.vals))
    && (forall g :: g in m ==> exists i :: 0 <= i < |gs| && gs[i].key == g)
  }

  // ------------------------------------------------------------------ one pass over all groups

  // A group that is asked for its aggregate if it changed, and what it emits then.
  function Asked(typ: AggType, g: Group): Group {
    if g.conf.changed then g.(conf := Generated(g.conf, Agg(typ, g.conf.vals), MaxDepth(g.conf.vals))) else g
  }

  function EventsOf(typ: AggType, g: Group): seq<Event> {
    if g.conf.changed then Emitted(g.conf, Agg(typ, g.conf.vals), MaxDepth(g.conf.vals)) else []
  }

  function AllEvents(typ: AggType, gs: seq<Group>): seq<Event> {
    if gs == [] then [] else AllEvents(typ, gs[..|gs| - 1]) + EventsOf(typ, gs[|gs| - 1])
  }

  function AllAsked(typ: AggType, gs: seq<Group>): (r: seq<Group>)
    ensures |r| == |gs| && forall i :: 0 <= i < |gs| ==> r[i] == Asked(typ, gs[i])
  {
    if gs == [] then [] else AllAsked(typ, gs[..|gs| - 1]) + [Asked(typ, gs[|gs| - 1])]
  }

  function WithValues(gs: seq<Group>): seq<Group> {
    if gs == [] then [] else
    var g := gs[|gs| - 1];
    WithValues(gs[..|gs| - 1]) + if g.conf.vals == [] then [] else [g]
  }

  // The groups with values: their keys and their values, in order.
  function Kept(gs: seq<Group>): seq<(int, seq<Leaf>)> {
    if gs == [] then [] else
    var g := gs[|gs| - 1];
    Kept(gs[..|gs| - 1]) + if g.conf.vals == [] then [] else [(g.key, g.conf.vals)]
  }

  lemma {:induction false} KeptByPass(typ: AggType, gs: seq<Group>)
    ensures Kept(WithValues(AllAsked(typ, gs))) == Kept(gs)
  {
    if gs != [] {
      var before, asked := gs[..|gs| - 1], AllAsked(typ, gs);
      KeptByPass(typ, before);
      assert asked[..|asked| - 1] == AllAsked(typ, before);
      var r := WithValues(AllAsked(typ, before));
      var g := Asked(typ, gs[|gs| - 1]);
      assert (r + [g])[..|r|] == r && r + [] == r;
    }
  }

  lemma {:induction false} WithValuesOf(gs: seq<Group>, g: Group)
    ensures g in WithValues(gs) <==> g in gs && g.conf.vals != []
  {
    if gs != [] {
      assert gs == gs[..|gs| - 1] + [gs[|gs| - 1]];
      WithValuesOf(gs[..|gs| - 1], g);
    }
  }

  lemma {:induction false} WithValuesOk(gs: seq<Group>)
    requires GroupsOk(gs)
    ensures GroupsOk(WithValues(gs))
  {
    if gs != [] {
      var before, last := gs[..|gs| - 1], gs[|gs| - 1];
      assert GroupsOk(before);
      WithValuesOk(before);
      forall g | g in WithValues(before) ensures g.key != last.key {
        WithValuesOf(before, g);
      }
      assert GroupOk(last);
    }
  }

  // Asking one group after the other keeps the replay in step, whatever groups are still to come.
  lemma {:induction false} PassFits(typ: AggType, gs: seq<Group>, tail: seq<Group>, log: seq<Event>)
    requires GroupsOk(gs + tail) && LogOk(gs + tail, log)
    ensures GroupsOk(AllAsked(typ, gs) + tail) && LogOk(AllAsked(typ, gs) + tail, log + AllEvents(typ, gs))
  {
    if gs == [] {
      assert AllAsked(typ, gs) + tail == gs + tail && log + [] == log;
    } else {
      var n := |gs| - 1;
      var before, g := gs[..n], gs[n];
      LastAsked(typ, gs, tail, log);
      PassFits(typ, before, [g] + tail, log);
      AskOne(typ, AllAsked(typ, before) + ([g] + tail), n, log + AllEvents(typ, before));
    }
  }

  lemma LastAsked(typ: AggType, gs: seq<Group>, tail: seq<Group>, log: seq<Event>)
    requires gs != []
    ensures var n := |gs| - 1;
            var ms := AllAsked(typ, gs[..n]) + ([gs[n]] + tail);
            && gs + tail == gs[..n] + ([gs[n]] + tail)
            && ms[n] == gs[n] && ms[n := Asked(typ, gs[n])] == AllAsked(typ, gs) + tail
            && log + AllEvents(typ, gs[..n]) + EventsOf(typ, gs[n]) == log + AllEvents(typ, gs)
  {}

  lemma AskOne(typ: AggType, gs: seq<Group>, n: nat, log: seq<Event>)
    requires GroupsOk(gs) && LogOk(gs, log) && n < |gs|
    ensures GroupsOk(gs[n := Asked(typ, gs[n])]) && LogOk(gs[n := Asked(typ, gs[n])], log + EventsOf(typ, gs[n]))
  {
    assert GroupOk(gs[n]);
    if gs[n].conf.changed {
      GenerateOne(gs, n, log, Agg(typ, gs[n].conf.vals), MaxDepth(gs[n].conf.vals));
    } else {
      assert log + [] == log && gs[n := gs[n]] == gs;
    }
  }

  // A group that is empty and unchanged, but has something announced: nobody will take it back.
  predicate Stranded(g: Group) {
    g.conf.vals == [] && !g.conf.changed && g.conf.corresponds.Some?
  }

  ghost predicate NoneStranded(gs: seq<Group>) {
    forall i :: 0 <= i < |gs| ==> !Stranded(gs[i])
  }

  // What the pass leaves: every group asked, and those without values gone.
  lemma PassOk(typ: AggType, gs: seq<Group>, log: seq<Event>)
    requires GroupsOk(gs) && LogOk(gs, log)
    ensures var r, log' := WithValues(AllAsked(typ, gs)), log + AllEvents(typ, gs);
            && Replay(log').Some? && GroupsOk(r)
            && (LogOk(r, log') <==> NoneStranded(gs))
            && (Exact(typ, r, Replay(log').value) <==> AllCurrent(typ, gs))
            && (AllCurrent(typ, gs) ==> AllCurrent(typ, r))
  {
    var ms, log' := AllAsked(typ, gs), log + AllEvents(typ, gs);
    assert gs + [] == gs && ms + [] == ms;
    PassFits(typ, gs, [], log);
    WithValuesOk(ms);
    forall g ensures g in WithValues(ms) <==> g in ms && g.conf.vals != [] {
      WithValuesOf(ms, g);
    }
    StandingAfter(typ, gs, ms, WithValues(ms), log');
    if AllCurrent(typ, gs) {
      CurrentIsExact(typ, gs, ms, WithValues(ms), log');
    } else {
      var i :| 0 <= i < |gs| && !Current(typ, gs[i].conf);
      if Exact(typ, WithValues(ms), Replay(log').value) {
        ExactIsCurrent(typ, gs, ms, WithValues(ms), log', i);
      }
    }
  }

  ghost predicate Pass(typ: AggType, gs: seq<Group>, ms: seq<Group>, r: seq<Group>, log: seq<Event>) {
    && |ms| == |gs| && (forall i :: 0 <= i < |gs| ==> ms[i] == Asked(typ, gs[i]))
    && GroupsOk(ms) && LogOk(ms, log)
    && (forall g :: g in r <==> g in ms && g.conf.vals != [])
  }

  lemma StandingAfter(typ: AggType, gs: seq<Group>, ms: seq<Group>, r: seq<Group>, log: seq<Event>)
    requires Pass(typ, gs, ms, r, log)
    ensures LogOk(r, log) <==> NoneStranded(gs)
  {
  }

  lemma AskedIsCurrent(typ: AggType, g: Group)
    ensures Current(typ, g.conf) <==> Asked(typ, g).conf.corresponds == Agg(typ, g.conf.vals)
    ensures Current(typ, g.conf) ==> Current(typ, Asked(typ, g).conf)
  {}

  // A group that is current announces its aggregate once it was asked.
  lemma CurrentIsExact(typ: AggType, gs: seq<Group>, ms: seq<Group>, r: seq<Group>, log: seq<Event>)
    requires Pass(typ, gs, ms, r, log) && AllCurrent(typ, gs)
    ensures Exact(typ, r, Replay(log).value) && AllCurrent(typ, r)
  {
    var m := Replay(log).value;
    forall i | 0 <= i < |ms| ensures ms[i].conf.corresponds == Agg(typ, ms[i].conf.vals) {
      AskedIsCurrent(typ, gs[i]);
    }
    forall i | 0 <= i < |r| ensures r[i].conf.vals != [] && r[i].conf.corresponds == Agg(typ, r[i].conf.vals)
                                    && Announced(m, r[i].key, r[i].conf) {
      assert r[i] in ms;
    }
    forall k | k in m ensures exists i :: 0 <= i < |r| && r[i].key == k {
      var j :| 0 <= j < |ms| && ms[j].key == k;
      assert Announced(m, k, ms[j].conf) && ms[j] in r;
    }
  }

  lemma ExactIsCurrent(typ: AggType, gs: seq<Group>, ms: seq<Group>, r: seq<Group>, log: seq<Event>, i: nat)
    requires Pass(typ, gs, ms, r, log) && Exact(typ, r, Replay(log).value) && i < |gs|
    ensures Current(typ, gs[i].conf)
  {
    StandsForValues(typ, ms, r, Replay(log).value, i);
    assert Announced(Replay(log).value, ms[i].key, ms[i].conf);
    AskedIsCurrent(typ, gs[i]);
  }

  lemma StandsForValues(typ: AggType, ms: seq<Group>, r: seq<Group>, m: Standing, i: nat)
    requires GroupsOk(ms) && i < |ms| && Exact(typ, r, m) && forall g :: g in r <==> g in ms && g.conf.vals != []
    ensures if ms[i].conf.vals == [] then ms[i].key !in m
            else ms[i].key in m && Some(m[ms[i].key].0) == Agg(typ, ms[i].conf.vals)
  {
    assert ms[i].conf.vals != [] ==> ms[i] in r;
    if ms[i].key in m {
      var j :| 0 <= j < |r| && r[j].key == ms[i].key;
      assert r[j] in ms;
    }
  }

  // do_generate
  method DoGenerate(typ: AggType, vals: seq<Leaf>) returns (found: Option<Row>, depth: nat)
    ensures found == Agg(typ, vals) && depth == MaxDepth(vals)
  {
    if vals == [] {
      return None, 0;
    }
    var row := vals[0].row;
    match typ {
      case First => depth := MaxDepth(vals);
      case Sum => row, depth := GenerateSum(vals);
      case _ => row, depth := GenerateBest(typ, vals);
    }
    found := Some(row);
  }

  // The body of the pass: a group that changed is asked, and what it emits joins the list.
  method AskGroup(typ: AggType, g: Group, ls: seq<Event>) returns (asked: Group, ls': seq<Event>)
    ensures asked == Asked(typ, g) && ls' == ls + EventsOf(typ, g)
  {
    asked, ls' := g, ls;
    if g.conf.changed {
      var found, depth := DoGenerate(typ, g.conf.vals);
      ls' := ls + Emitted(g.conf, found, depth);
      asked := g.(conf := Generated(g.conf, found, depth));
    }
  }

  class TupleAggregate {
    const typ: AggType
    var groups: seq<Group>
    ghost var log: seq<Event>

    ghost predicate Valid()
      reads this
    {
      GroupsOk(groups) && LogOk(groups, log)
    }

    constructor (typ: AggType)
      ensures Valid() && AllCurrent(typ, groups) && this.typ == typ && groups == [] && log == []
    {
      this.typ, groups, log := typ, [], [];
    }

    // add_to_set: the group of the row, made if needed
    method AddToSet(row: Row, dir: Direction, depth: nat)
      requires Valid()
      modifies this`groups
      ensures Valid() && groups == AddedTo(old(groups), row, dir, depth)
      ensures old(AllCurrent(typ, groups)) && (dir == Negative ==> Present(old(groups), row)) ==> AllCurrent(typ, groups)
    {
      AddedGroup(groups, log, row, dir, depth);
      var i := FindGroup(groups, row.group);
      if i == |groups| {
        groups := groups + [Group(row.group, NEW_CONF)];
      }
      groups := groups[i := Group(row.group, Added(groups[i].conf, row, dir, depth))];
    }

    // generate: asks every changed group, and erases those without values.
    method Generate() returns (ls: seq<Event>)
      requires Valid()
      modifies this`groups, this`log
      ensures ls == AllEvents(typ, old(groups)) && log == old(log) + ls
      ensures groups == WithValues(AllAsked(typ, old(groups))) && Kept(groups) == Kept(old(groups))
      ensures Replay(log).Some? && (Exact(typ, groups, Replay(log).value) <==> old(AllCurrent(typ, groups)))
      ensures (Valid() <==> NoneStranded(old(groups))) && (old(AllCurrent(typ, groups)) ==> Valid() && AllCurrent(typ, groups))
    {
      var gs, kept := groups, [];
      ls := [];
      for i := 0 to |gs|
        modifies {}
        invariant ls == AllEvents(typ, gs[..i]) && kept == WithValues(AllAsked(typ, gs[..i]))
      {
        OneMore(typ, gs, i);
        var g;
        g, ls := AskGroup(typ, gs[i], ls);
        if g.conf.vals != [] {
          kept := kept + [g];
        }
      }
      assert gs[..|gs|] == gs;
      KeptByPass(typ, gs);
      PassOk(typ, gs, log);
      groups, log := kept, log + ls;
    }
  }

  lemma OneMore(typ: AggType, gs: seq<Group>, i: nat)
    requires i < |gs|
    ensures var g := Asked(typ, gs[i]);
            && AllEvents(typ, gs[..i + 1]) == AllEvents(typ, gs[..i]) + EventsOf(typ, gs[i])
            && WithValues(AllAsked(typ, gs[..i + 1])) == WithValues(AllAsked(typ, gs[..i])) + if g.conf.vals == [] then [] else [g]
  {
    assert gs[..i + 1][..i] == gs[..i];
    var asked := AllAsked(typ, gs[..i + 1]);
    assert asked[..i] == AllAsked(typ, gs[..i]);
  }

  lemma GenerateOne(gs: seq<Group>, n: nat, log: seq<Event>, found: Option<Row>, depth: nat)
    requires GroupsOk(gs) && LogOk(gs, log) && n < |gs|
    requires found.Some? ==> found.value.group == gs[n].key
    ensures var gs' := gs[n := gs[n].(conf := Generated(gs[n].conf, found, depth))];
            GroupsOk(gs') && LogOk(gs', log + Emitted(gs[n].conf, found, depth))
  {
    var g := gs[n];
    var gs' := gs[n := g.(conf := Generated(g.conf, found, depth))];
    assert GroupOk(g);
    var m := Replay(log).value;
    assert Announced(m, g.key, g.conf);
    EmittedFits(log, m, g.key, g.conf, found, depth);
    var m' := Replay(log + Emitted(g.conf, found, depth)).value;
    forall i | 0 <= i < |gs'| ensures gs'[i].key == gs[i].key && Announced(m', gs'[i].key, gs'[i].conf) {
      assert i != n ==> Announced(m, gs[i].key, gs[i].conf);
    }
    forall k | k in m' ensures exists i :: 0 <= i < |gs'| && gs'[i].key == k {
      if k == g.key {
        assert gs'[n].key == k;
      } else {
        var i :| 0 <= i < |gs| && gs[i].key == k;
        assert gs'[i].key == k;
      }
    }
  }

  lemma OneGroup(typ: AggType, g: Group)
    ensures AllEvents(typ, [g]) == EventsOf(typ, g)
    ensures WithValues(AllAsked(typ, [g])) == if Asked(typ, g).conf.vals == [] then [] else [Asked(typ, g)]
  {
    assert [g][..0] == [] && AllAsked(typ, [g]) == [Asked(typ, g)];
    assert [Asked(typ, g)][..0] == [];
  }

  lemma InGroup(g: Group, row: Row, dir: Direction)
    requires g.key == row.group
    ensures AddedTo([g], row, dir, 0) == [Group(g.key, Added(g.conf, row, dir, 0))]
    ensures AddedTo([], row, dir, 0) == [Group(row.group, Added(NEW_CONF, row, dir, 0))]
  {
    assert FindGroup([g], row.group) == 0;
    assert [] + [Group(row.group, NEW_CONF)] == [Group(row.group, NEW_CONF)];
  }

  lemma OneRow(typ: AggType, row: Row)
    ensures Agg(typ, [Leaf(row, 1, 0)]) == Some(row) && MaxDepth([Leaf(row, 1, 0)]) == 0
  {
    var vals := [Leaf(row, 1, 0)];
    assert vals[..0] == [];
    assert SumOf(vals) == row.value && BestLeaf(typ, vals) == vals[0];
  }

  // The only row of a new group is its aggregate.
  lemma FirstRow(typ: AggType, row: Row)
    ensures var vals, gs := [Leaf(row, 1, 0)], AddedTo([], row, Positive, 0);
            && AllEvents(typ, gs) == [Assert(row, 0)]
            && WithValues(AllAsked(typ, gs)) == [Group(row.group, Conf(vals, false, Some(row), 0))]
  {
    var vals := [Leaf(row, 1, 0)];
    assert [] + vals == vals;
    var g := Group(row.group, Conf(vals, true, None, 0));
    InGroup(g, row, Positive);
    OneRow(typ, row);
    OneGroup(typ, g);
  }

  lemma TwoRetractions(row: Row)
    ensures var gs := [Group(row.group, Conf([Leaf(row, 1, 0)], false, Some(row), 0))];
            AddedTo(AddedTo(gs, row, Negative, 0), row, Negative, 0) == [Group(row.group, Conf([], false, Some(row), 0))]
  {
    var vals := [Leaf(row, 1, 0)];
    assert Find(vals, row) == 0 && vals[..0] + vals[1..] == [];
    InGroup(Group(row.group, Conf(vals, false, Some(row), 0)), row, Negative);
    InGroup(Group(row.group, Conf([], true, Some(row), 0)), row, Negative);
  }

  /** When an absent row is retracted while a change waits, the change is lost: the next pass erases the
      group and takes nothing back, so what was announced stands without a group, and the assertion of a
      later row of the group no longer fits. */
  lemma AbsentRetractionLosesChange(typ: AggType, row: Row, later: Row)
    requires later.group == row.group
    ensures var gs1 := AddedTo([], row, Positive, 0);
            var gs2 := AddedTo(AddedTo(WithValues(AllAsked(typ, gs1)), row, Negative, 0), row, Negative, 0);
            var gs3 := AddedTo(WithValues(AllAsked(typ, gs2)), later, Positive, 0);
            && AllEvents(typ, gs1) == [Assert(row, 0)] && AllEvents(typ, gs2) == [] && AllEvents(typ, gs3) == [Assert(later, 0)]
            && !NoneStranded(gs2) && WithValues(AllAsked(typ, gs2)) == []
            && Replay([Assert(row, 0)]) == Some(map[row.group := (row, 0)])
            && Replay([Assert(row, 0), Assert(later, 0)]).None?
  {
    FirstRow(typ, row);
    TwoRetractions(row);
    var g := Group(row.group, Conf([], false, Some(row), 0));
    OneGroup(typ, g);
    assert Stranded([g][0]);
    FirstRow(typ, later);
    ReplayMore([], Assert(row, 0));
    ReplayMore([Assert(row, 0)], Assert(later, 0));
  }

  // The row has references in its group.
  predicate Present(gs: seq<Group>, row: Row) {
    var i := FindGroup(gs, row.group);
    i < |gs| && Find(gs[i].conf.vals, row) < |gs[i].conf.vals|
  }
}
