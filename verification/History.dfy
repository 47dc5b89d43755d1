/** Sequences of commands on one file: runs, retries, resets and runs of single groups. A node
    that has run, or is ready to, always has every dependency Completed. */
module History {
  import opened Options
  import opened Ordering
  import opened Reachability
  import opened Lifecycle
  import opened Tracker
  import opened Scheduler
  import opened RunTheorems
  import opened Targets
  import opened Groups
  import opened Orchestration
  import opened OrchestrationTheorems
  import opened GroupTheorems
  import opened Arrangement
  import opened ArrangedRuns
  import opened Moments

  // ----- the commands, on status maps -----

  // `topo` is the answer of the topological sort, None for a cyclic file. GroupCommand is the run
  // of one target group; `groups` is what the orchestration node of the file lists.
  datatype Command =
    | RunCommand(topo: Option<seq<Id>>, limit: nat, failFast: bool, targets: Option<seq<Id>>, ok: set<Id>)
    | RetryCommand(node: Option<Id>, allFailed: bool, topo: Option<seq<Id>>, ok: set<Id>)
    | ResetCommand(keepCompleted: bool)
    | ResetNodeCommand(id: Id)
    | GroupCommand(groups: Option<seq<Group>>, target: string, limit: nat, failFast: bool, ok: set<Id>)

  /** Is nothing that has run, or is ready to, pulled off its dependency by resetting `x`? */
  predicate ResetHarmless(g: Graph, s: StatusMap, x: Id) {
    x in s && s[x].Completed? ==> forall y :: y in g && x in g[y] ==> y in s && (s[y].Pending? || s[y].Blocked?)
  }

  ghost predicate SortAnswer(g: Graph, topo: Option<seq<Id>>) {
    if topo.Some? then IsTopologicalOrder(g, topo.value) else !Acyclic(g)
  }

  /** The group that a group command runs; none if the groups have no order, or the target is not
      among them or requires another. */
  ghost function TargetOf(c: Command): Option<Group>
    requires c.GroupCommand?
  {
    if c.groups.None? || !Resolvable(c.groups.value) || c.target !in Names(c.groups.value) then None
    else
      var group := GroupNamed(c.groups.value, c.target);
      if group.prerequisites != [] then None else Some(group)
  }

  ghost function GroupResult(g: Graph, s: StatusMap, c: Command): GroupOutcome
    requires c.GroupCommand?
  {
    var group := TargetOf(c);
    if group.None? then GroupOutcome(s, [], false)
    else GroupRun(g, c.ok, c.failFast, s, group.value.nodes, Concurrency(group.value, c.limit))
  }

  /** The two commands that look at no dependency are guarded: a reset of one node must be
      harmless, and a group that is run must be arranged and unable to abort. */
  ghost predicate ValidCommand(g: Graph, s: StatusMap, c: Command) {
    match c
    case RunCommand(topo, _, _, _, _) => SortAnswer(g, topo)
    case RetryCommand(_, _, topo, _) => SortAnswer(g, topo)
    case ResetCommand(_) => true
    case ResetNodeCommand(x) => ResetHarmless(g, s, x)
    case GroupCommand(_, _, limit, failFast, _) =>
      TargetOf(c).Some? ==>
        var group := TargetOf(c).value;
        && NeverAborts(g, failFast, s, group.nodes, Concurrency(group, limit))
        && GroupArranged(g, s, group.nodes, Concurrency(group, limit))
  }

  /** The nodes a retry selects: the named one if it is Failed, or else every Failed one. */
  function RetrySelection(s: StatusMap, node: Option<Id>, allFailed: bool): seq<Id> {
    if node.Some? then (if node.value in s && s[node.value].Failed? then [node.value] else [])
    else if allFailed then SortedKeys(WithStatus(s, Failed))
    else []
  }

  function MadeReady(s: StatusMap, xs: set<Id>): StatusMap {
    map x | x in s :: if x in xs then Ready else s[x]
  }

  function MadePending(s: StatusMap, xs: set<Id>): StatusMap {
    map x | x in s :: if x in xs then Pending else s[x]
  }

  /** The nodes a reset of the file resets, in the order it does. */
  function ResetOrder(s: StatusMap, keepCompleted: bool): seq<Id> {
    SortedKeys(set x | x in s && !(keepCompleted && s[x].Completed?))
  }

  function AfterReset(s: StatusMap, keepCompleted: bool): StatusMap {
    map x | x in s :: if keepCompleted && s[x].Completed? then Completed else Pending
  }

  /** The run a retry starts, and the state it starts from. */
  ghost function RetryPlan(g: Graph, s: StatusMap, c: Command): Plan
    requires c.RetryCommand? && c.topo.Some?
  {
    var xs := RetrySelection(s, c.node, c.allFailed);
    Plan(g, c.topo.value, 1, false, Scope(g, RetryStart(s, c), Some(xs)), c.ok)
  }

  function RetryStart(s: StatusMap, c: Command): StatusMap
    requires c.RetryCommand?
  {
    MadeReady(s, Elems(RetrySelection(s, c.node, c.allFailed)))
  }

  ghost function RunPlan(g: Graph, s: StatusMap, c: Command): Plan
    requires c.RunCommand? && c.topo.Some?
  {
    Plan(g, c.topo.value, c.limit, c.failFast, Scope(g, s, c.targets), c.ok)
  }

  ghost function Apply(g: Graph, s: StatusMap, c: Command): (t: StatusMap)
    requires Closed(g) && s.Keys == g.Keys && ValidCommand(g, s, c)
    ensures t.Keys == s.Keys
  {
    match c
    case RunCommand(topo, _, _, _, _) => if topo.None? then s else Run(RunPlan(g, s, c), s).statuses
    case RetryCommand(node, all, topo, _) =>
      if RetrySelection(s, node, all) == [] then s
      else if topo.None? then RetryStart(s, c)
      else Run(RetryPlan(g, s, c), RetryStart(s, c)).statuses
    case ResetCommand(keepCompleted) => AfterReset(s, keepCompleted)
    case ResetNodeCommand(x) => if x in s then s[x := Pending] else s
    case GroupCommand(_, _, _, _, _) =>
      GroupCommandKeys(g, s, c);
      GroupResult(g, s, c).statuses
  }

  lemma GroupCommandKeys(g: Graph, s: StatusMap, c: Command)
    requires Closed(g) && s.Keys == g.Keys && c.GroupCommand? && ValidCommand(g, s, c)
    ensures var r := GroupResult(g, s, c);
            !r.error && r.statuses.Keys == s.Keys
            && OneDispatch(Unplanned(g, c.ok), s, RunOutcome(r.statuses, r.results))
  {
    if TargetOf(c).None? {
      EmptyDispatch(Unplanned(g, c.ok), s);
    } else {
      var group := TargetOf(c).value;
      NeverAbortsExact(g, c.failFast, s, group.nodes, Concurrency(group, c.limit));
      GroupRunOnce(g, c.ok, c.failFast, s, group.nodes, Concurrency(group, c.limit));
    }
  }

  /** The results of the run that a command contains. */
  ghost function ResultsOf(g: Graph, s: StatusMap, c: Command): seq<NodeResult>
    requires Closed(g) && s.Keys == g.Keys && ValidCommand(g, s, c)
  {
    match c
    case RunCommand(topo, _, _, _, _) => if topo.None? then [] else Run(RunPlan(g, s, c), s).results
    case RetryCommand(node, all, topo, _) =>
      if RetrySelection(s, node, all) == [] || topo.None? then []
      else Run(RetryPlan(g, s, c), RetryStart(s, c)).results
    case GroupCommand(_, _, _, _, _) => GroupResult(g, s, c).results
    case _ => []
  }

  /** `u` is a status map the tracker holds at some moment of the command. */
  ghost predicate Moment(g: Graph, s: StatusMap, c: Command, u: StatusMap)
    requires Closed(g) && s.Keys == g.Keys && ValidCommand(g, s, c)
  {
    match c
    case RunCommand(topo, _, _, _, _) => if topo.None? then u == s else Visits(RunPlan(g, s, c), s, u)
    case RetryCommand(node, all, topo, _) =>
      var xs := RetrySelection(s, node, all);
      || (exists i :: 0 <= i <= |xs| && u == MadeReady(s, Elems(xs[..i])))
      || (xs != [] && topo.Some? && Visits(RetryPlan(g, s, c), RetryStart(s, c), u))
    case ResetCommand(keepCompleted) =>
      var xs := ResetOrder(s, keepCompleted);
      exists i :: 0 <= i <= |xs| && u == MadePending(s, Elems(xs[..i]))
    case ResetNodeCommand(x) => u == s || u == Apply(g, s, c)
    case GroupCommand(_, _, limit, failFast, ok) =>
      var group := TargetOf(c);
      if group.None? then u == s
      else GroupVisits(g, ok, failFast, s, group.value.nodes, Concurrency(group.value, limit), u)
  }

  // ----- histories -----

  ghost predicate ValidHistory(g: Graph, s: StatusMap, cs: seq<Command>)
    requires Closed(g) && s.Keys == g.Keys
    decreases |cs|
  {
    cs == [] || (ValidCommand(g, s, cs[0]) && ValidHistory(g, Apply(g, s, cs[0]), cs[1..]))
  }

  ghost function Play(g: Graph, s: StatusMap, cs: seq<Command>): (t: StatusMap)
    requires Closed(g) && s.Keys == g.Keys && ValidHistory(g, s, cs)
    ensures t.Keys == s.Keys
    decreases |cs|
  {
    if cs == [] then s else Play(g, Apply(g, s, cs[0]), cs[1..])
  }

  /** `u` is a status map the tracker holds at some moment of some command of the history. */
  ghost predicate HistoryVisits(g: Graph, s: StatusMap, cs: seq<Command>, u: StatusMap)
    requires Closed(g) && s.Keys == g.Keys && ValidHistory(g, s, cs)
    decreases |cs|
  {
    cs != [] && (Moment(g, s, cs[0], u) || HistoryVisits(g, Apply(g, s, cs[0]), cs[1..], u))
  }

  /** The results of every command of the history follow the dependencies. */
  ghost predicate HistoryOrderly(g: Graph, s: StatusMap, cs: seq<Command>)
    requires Closed(g) && s.Keys == g.Keys && ValidHistory(g, s, cs)
    decreases |cs|
  {
    cs == [] || (DependencyOrder(g, s, ResultsOf(g, s, cs[0])) && HistoryOrderly(g, Apply(g, s, cs[0]), cs[1..]))
  }

  // ----- safety of one command -----

  lemma ReadySafe(g: Graph, s: StatusMap, xs: set<Id>)
    requires Safe(g, s) && xs <= WithStatus(s, Failed)
    ensures Safe(g, MadeReady(s, xs))
  {
    var t := MadeReady(s, xs);
    forall x | x in t ensures t[x].Pending? || t[x].Blocked? || Settled(g, t, x) {
      if Settled(g, s, x) {
        assert forall d :: d in g[x] ==> t[d].Completed?;
      }
    }
  }

  lemma ResetSafe(g: Graph, s: StatusMap, keepCompleted: bool)
    requires Safe(g, s)
    ensures Safe(g, AfterReset(s, keepCompleted))
  {
    var t := AfterReset(s, keepCompleted);
    forall x | x in t ensures t[x].Pending? || Settled(g, t, x) {
      assert s[x].Completed? ==> Settled(g, s, x);
    }
  }

  /** What a retry selects: the named node if it is Failed, and otherwise, if asked to, every
      Failed node, in key order. */
  lemma RetrySelectionExact(s: StatusMap, node: Option<Id>, allFailed: bool)
    ensures var xs := RetrySelection(s, node, allFailed);
            && NoDup(xs) && Increasing(xs)
            && Elems(xs) == if node.Some? then {node.value} * WithStatus(s, Failed)
                            else if allFailed then WithStatus(s, Failed) else {}
  {
    SortedKeysNoDup(WithStatus(s, Failed));
    SortedKeysIncreasing(WithStatus(s, Failed));
  }

  lemma RetrySelectionFailed(s: StatusMap, node: Option<Id>, allFailed: bool)
    ensures Elems(RetrySelection(s, node, allFailed)) <= WithStatus(s, Failed)
  {
  }

  lemma ResetNodeSafe(g: Graph, s: StatusMap, x: Id)
    requires Safe(g, s) && x in s && ResetHarmless(g, s, x)
    ensures Safe(g, s[x := Pending])
  {
    var t := s[x := Pending];
    forall y | y in t ensures !t[y].Skipped? && (t[y].Pending? || t[y].Blocked? || Settled(g, t, y)) {
      if y != x && Settled(g, s, y) && !t[y].Pending? && !t[y].Blocked? {
        assert forall d :: d in g[y] ==> t[d].Completed?;
      }
    }
  }

  lemma RetryStartSafe(g: Graph, s: StatusMap, c: Command, i: nat)
    requires c.RetryCommand? && AtRest(g, s) && i <= |RetrySelection(s, c.node, c.allFailed)|
    ensures AtRest(g, MadeReady(s, Elems(RetrySelection(s, c.node, c.allFailed)[..i])))
  {
    var xs := RetrySelection(s, c.node, c.allFailed);
    RetrySelectionFailed(s, c.node, c.allFailed);
    assert Elems(xs[..i]) <= Elems(xs);
    ReadySafe(g, s, Elems(xs[..i]));
  }

  lemma RetryStartAtRest(g: Graph, s: StatusMap, c: Command)
    requires c.RetryCommand? && AtRest(g, s)
    ensures AtRest(g, RetryStart(s, c))
  {
    var xs := RetrySelection(s, c.node, c.allFailed);
    RetryStartSafe(g, s, c, |xs|);
    assert xs[..|xs|] == xs;
  }

  lemma RunAtRest(p: Plan, s: StatusMap)
    requires ValidPlan(p) && AtRest(p.g, s)
    ensures AtRest(p.g, Run(p, s).statuses)
  {
    RunSafe(p, s);
    RunIsOneDispatch(p, s);
    DispatchedAtRest(p, s, Run(p, s));
  }

  lemma DispatchedAtRest(p: Plan, s: StatusMap, out: RunOutcome)
    requires OneDispatch(p, s, out) && NoneInProgress(s)
    ensures NoneInProgress(out.statuses)
  {
  }

  /** A guarded group run is ready at every dispatch. */
  lemma GroupCommandReady(g: Graph, s: StatusMap, c: Command)
    requires Closed(g) && s.Keys == g.Keys && c.GroupCommand? && ValidCommand(g, s, c) && TargetOf(c).Some?
    ensures var group := TargetOf(c).value;
            GroupReady(g, c.ok, c.failFast, s, group.nodes, Concurrency(group, c.limit))
  {
    var group := TargetOf(c).value;
    GroupArrangedExact(g, c.failFast, s, group.nodes, Concurrency(group, c.limit));
  }

  lemma GroupAtRest(g: Graph, s: StatusMap, c: Command)
    requires AtRest(g, s) && c.GroupCommand? && ValidCommand(g, s, c)
    ensures AtRest(g, GroupResult(g, s, c).statuses)
  {
    var r := GroupResult(g, s, c);
    GroupCommandKeys(g, s, c);
    DispatchedAtRest(Unplanned(g, c.ok), s, RunOutcome(r.statuses, r.results));
    if TargetOf(c).Some? {
      var group := TargetOf(c).value;
      GroupCommandReady(g, s, c);
      GroupKeepsSafe(g, c.ok, c.failFast, s, group.nodes, Concurrency(group, c.limit));
    }
  }

  /** Every command keeps the safety invariant and leaves no node InProgress. */
  lemma ApplySafe(g: Graph, s: StatusMap, c: Command)
    requires AtRest(g, s) && ValidCommand(g, s, c)
    ensures AtRest(g, Apply(g, s, c))
  {
    match c
    case RunCommand(topo, _, _, _, _) => if topo.Some? { RunAtRest(RunPlan(g, s, c), s); }
    case RetryCommand(node, all, topo, _) =>
      RetryStartAtRest(g, s, c);
      if topo.Some? { RunAtRest(RetryPlan(g, s, c), RetryStart(s, c)); }
    case ResetCommand(keepCompleted) => ResetSafe(g, s, keepCompleted);
    case ResetNodeCommand(x) => if x in s { ResetNodeSafe(g, s, x); }
    case GroupCommand(_, _, _, _, _) => GroupAtRest(g, s, c);
  }

  ghost predicate CompletedDown(g: Graph, s: StatusMap) {
    forall x, y :: x in s && s[x].Completed? && y in TransDeps(g, x) ==> y in s && s[y].Completed?
  }

  ghost predicate RunningSettled(g: Graph, u: StatusMap) {
    forall x :: x in u && u[x].InProgress? ==> x in g && Settled(g, u, x)
  }

  lemma SafeCompletedDown(g: Graph, s: StatusMap)
    requires Safe(g, s)
    ensures CompletedDown(g, s)
  {
    forall x, y | x in s && s[x].Completed? && y in TransDeps(g, x) ensures y in s && s[y].Completed? {
      SettledDown(g, s, x, y);
    }
  }

  /** At every moment of a command a node that is InProgress has all its dependencies Completed. */
  lemma MomentSettled(g: Graph, s: StatusMap, c: Command, u: StatusMap)
    requires AtRest(g, s) && ValidCommand(g, s, c) && Moment(g, s, c, u)
    ensures RunningSettled(g, u)
  {
    match c
    case RunCommand(topo, _, _, _, _) => if topo.Some? { VisitsSafe(RunPlan(g, s, c), s, u); }
    case RetryCommand(_, _, _, _) => RetryMomentSettled(g, s, c, u);
    case ResetCommand(_) =>
    case ResetNodeCommand(_) =>
    case GroupCommand(_, _, limit, failFast, ok) =>
      if TargetOf(c).Some? {
        var group := TargetOf(c).value;
        GroupCommandKeys(g, s, c);
        GroupCommandReady(g, s, c);
        GroupVisitsSafe(g, ok, failFast, s, group.nodes, Concurrency(group, limit), u);
      }
  }

  lemma RetryMomentSettled(g: Graph, s: StatusMap, c: Command, u: StatusMap)
    requires c.RetryCommand? && AtRest(g, s) && ValidCommand(g, s, c) && Moment(g, s, c, u)
    ensures RunningSettled(g, u)
  {
    var xs := RetrySelection(s, c.node, c.allFailed);
    RetryStartAtRest(g, s, c);
    if i :| 0 <= i <= |xs| && u == MadeReady(s, Elems(xs[..i])) {
      RetryStartSafe(g, s, c, i);
    } else {
      VisitsSafe(RetryPlan(g, s, c), RetryStart(s, c), u);
    }
  }

  lemma ResultsOrderly(g: Graph, s: StatusMap, c: Command)
    requires AtRest(g, s) && ValidCommand(g, s, c)
    ensures DependencyOrder(g, s, ResultsOf(g, s, c))
  {
    match c
    case RunCommand(topo, _, _, _, _) => if topo.Some? { RunOrder(RunPlan(g, s, c), s); }
    case RetryCommand(_, _, _, _) => RetryOrderly(g, s, c);
    case ResetCommand(_) =>
    case ResetNodeCommand(_) =>
    case GroupCommand(_, _, limit, failFast, ok) =>
      if TargetOf(c).Some? {
        var group := TargetOf(c).value;
        GroupCommandReady(g, s, c);
        GroupOrderly(g, ok, failFast, s, group.nodes, Concurrency(group, limit));
      }
  }

  lemma RetryOrderly(g: Graph, s: StatusMap, c: Command)
    requires AtRest(g, s) && c.RetryCommand? && ValidCommand(g, s, c)
    ensures DependencyOrder(g, s, ResultsOf(g, s, c))
  {
    RetryStartAtRest(g, s, c);
    RetrySelectionFailed(s, c.node, c.allFailed);
    if c.topo.Some? {
      RunFromOrderly(RetryPlan(g, s, c), RetryStart(s, c), s);
    }
  }

  lemma RunFromOrderly(p: Plan, r: StatusMap, s: StatusMap)
    requires ValidPlan(p) && Safe(p.g, r) && forall d :: d in r && Done(r[d]) ==> d in s && Done(s[d])
    ensures DependencyOrder(p.g, s, Run(p, r).results)
  {
    RunOrder(p, r);
    SameDoneOrder(p.g, r, s, Run(p, r).results);
  }

  lemma SameDoneOrder(g: Graph, r: StatusMap, s: StatusMap, results: seq<NodeResult>)
    requires DependencyOrder(g, r, results) && forall d :: d in r && Done(r[d]) ==> d in s && Done(s[d])
    ensures DependencyOrder(g, s, results)
  {
    forall i, d | 0 <= i < |results| && results[i].id in g && d in g[results[i].id]
      ensures DoneBefore(s, results, i, d)
    {
      assert DoneBefore(r, results, i, d);
    }
  }

  // ----- safety over every history -----

  lemma {:induction false} HistorySafe(g: Graph, s: StatusMap, cs: seq<Command>, u: StatusMap)
    requires AtRest(g, s) && ValidHistory(g, s, cs)
    ensures AtRest(g, Play(g, s, cs)) && HistoryOrderly(g, s, cs)
    ensures HistoryVisits(g, s, cs, u) ==> RunningSettled(g, u)
    decreases |cs|
  {
    if cs != [] {
      ApplySafe(g, s, cs[0]);
      ResultsOrderly(g, s, cs[0]);
      if Moment(g, s, cs[0], u) { MomentSettled(g, s, cs[0], u); }
      HistorySafe(g, Apply(g, s, cs[0]), cs[1..], u);
    }
  }

  /** Over every history from a fresh file: afterwards a Completed node's upstream is all Completed;
      at every moment of every command a node that is InProgress has all its dependencies
      Completed; and the results of every command follow the dependencies. */
  lemma HistorySafety(file: seq<FileNode>, cs: seq<Command>, u: StatusMap)
    requires ValidHistory(BuildGraph(file), StatusesOf(FreshStates(file)), cs)
    ensures var g, s := BuildGraph(file), StatusesOf(FreshStates(file));
            && CompletedDown(g, Play(g, s, cs))
            && (HistoryVisits(g, s, cs, u) ==> RunningSettled(g, u))
            && HistoryOrderly(g, s, cs)
  {
    var g, s := BuildGraph(file), StatusesOf(FreshStates(file));
    FreshSafe(file);
    HistorySafe(g, s, cs, u);
    SafeCompletedDown(g, Play(g, s, cs));
  }

  /** A run only moves nodes that start out Pending or Ready. */
  lemma RunKeepsInactive(p: Plan, s: StatusMap, x: Id)
    requires ValidPlan(p) && s.Keys == p.g.Keys && x in s && !Active(s[x])
    ensures Run(p, s).statuses[x] == s[x]
  {
    RunIsOneDispatch(p, s);
    assert x !in Elems(ResultIds(Run(p, s).results));
  }

  /** Only a reset lifts Blocked: a retry that succeeds leaves the nodes its failure blocked. */
  lemma BlockedSticks(g: Graph, s: StatusMap, c: Command, x: Id)
    requires Closed(g) && s.Keys == g.Keys && ValidCommand(g, s, c) && !c.ResetCommand? && !c.ResetNodeCommand?
    requires x in s && s[x].Blocked?
    ensures Apply(g, s, c)[x].Blocked?
  {
    match c
    case RunCommand(topo, _, _, _, _) => if topo.Some? { RunKeepsInactive(RunPlan(g, s, c), s, x); }
    case RetryCommand(node, all, topo, _) =>
      RetrySelectionFailed(s, node, all);
      assert RetryStart(s, c)[x].Blocked?;
      if topo.Some? { RunKeepsInactive(RetryPlan(g, s, c), RetryStart(s, c), x); }
    case GroupCommand(_, _, _, _, _) =>
      GroupCommandKeys(g, s, c);
      assert x !in Elems(ResultIds(GroupResult(g, s, c).results));
  }

  // ----- where the invariant ends -----

  /** Making a node Ready keeps the invariant exactly when its dependencies are Completed:
      always for a Failed node, which the retry documentation asks for, but the tracker's
      own guard also lets Pending and Blocked nodes through. */
  lemma RetryExact(g: Graph, s: StatusMap, x: Id)
    requires Safe(g, s) && x in s && s[x] in {Pending, Failed, Blocked}
    ensures Safe(g, s[x := Ready]) <==> Settled(g, s, x)
    ensures s[x].Failed? ==> Settled(g, s, x)
  {
    var t := s[x := Ready];
    if Settled(g, s, x) {
      forall y | y in t ensures t[y].Pending? || t[y].Blocked? || Settled(g, t, y) {
        assert Settled(g, s, y) ==> Settled(g, t, y);
      }
    } else {
      var d :| d in g[x] && !(d in s && s[d].Completed?);
      assert !(d in t && t[d].Completed?);
      assert !Settled(g, t, x);
    }
  }

  /** The tracker's retry of a Pending node: it is accepted, and its dependency has not run. */
  lemma RetryPendingBreaks()
    ensures var g: Graph := map["a" := {}, "b" := {"a"}];
            var s := map["a" := Ready, "b" := Pending];
            Safe(g, s) && ValidTransition(s["b"], Ready) && !Safe(g, s["b" := Ready])
  {
    var g: Graph := map["a" := {}, "b" := {"a"}];
    var s := map["a" := Ready, "b" := Pending];
    assert Settled(g, s, "a");
    assert !Settled(g, s["b" := Ready], "b");
  }

  /** Resetting one node keeps the invariant unless a Completed node is pulled from under one
      that has run or is ready to. */
  lemma ResetNodeExact(g: Graph, s: StatusMap, x: Id)
    requires Safe(g, s) && Acyclic(g) && x in s
    ensures Safe(g, s[x := Pending]) <==> ResetHarmless(g, s, x)
  {
    var t := s[x := Pending];
    if s[x].Completed? && exists y :: y in g && x in g[y] && !s[y].Pending? && !s[y].Blocked? {
      var y :| y in g && x in g[y] && !s[y].Pending? && !s[y].Blocked?;
      if y == x { ReachesEdge(g, x, x); }
      assert !t[x].Completed?;
      assert !Settled(g, t, y);
    } else {
      forall y | y in t ensures t[y].Pending? || t[y].Blocked? || Settled(g, t, y) {
        if y != x && Settled(g, s, y) {
          assert forall d :: d in g[y] ==> t[d].Completed? || t[y].Pending? || t[y].Blocked?;
        }
      }
    }
  }

  /** Resetting `a` from under a Completed `b`. */
  lemma ResetNodeBreaks()
    ensures var g: Graph := map["a" := {}, "b" := {"a"}];
            var s := map["a" := Completed, "b" := Completed];
            AtRest(g, s) && !ResetHarmless(g, s, "a") && !Safe(g, s["a" := Pending])
  {
    var g: Graph := map["a" := {}, "b" := {"a"}];
    var s := map["a" := Completed, "b" := Completed];
    assert Settled(g, s, "a") && Settled(g, s, "b");
    assert "a" in g["b"] && !Settled(g, s["a" := Pending], "b");
  }

  // ----- the commands, on a tracker -----

  datatype RetryResult =
    | NotFailed(status: Status) | UnknownNode | NothingNamed | NothingFailed | CyclicFile | Retried(report: RunReport)

  /** Why a retry is refused, if it is. */
  function Refusal(s: StatusMap, node: Option<Id>, allFailed: bool): Option<RetryResult> {
    if node.Some? then
      if node.value !in s then Some(UnknownNode)
      else if !s[node.value].Failed? then Some(NotFailed(s[node.value]))
      else None
    else if !allFailed then Some(NothingNamed)
    else if WithStatus(s, Failed) == {} then Some(NothingFailed)
    else None
  }

  /** A retry is refused exactly when it selects no node. */
  lemma RefusalExact(s: StatusMap, node: Option<Id>, allFailed: bool)
    ensures Refusal(s, node, allFailed).Some? <==> RetrySelection(s, node, allFailed) == []
  {
    assert |SortedKeys(WithStatus(s, Failed))| == |WithStatus(s, Failed)|;
  }

  /** The retry command: refused, or the selected nodes are made Ready and run. `topo` is the
      answer of the topological sort. */
  method Retry(tracker: ExecutionTracker, node: Option<Id>, allFailed: bool, topo: Option<seq<Id>>, agent: Agent)
    returns (r: RetryResult)
    requires tracker.Valid()
    requires topo.Some? ==> IsTopologicalOrder(tracker.graph, topo.value)
    requires topo.None? ==> !Acyclic(tracker.graph)
    modifies tracker`nodes
    ensures tracker.Valid()
    ensures Refusal(old(tracker.Statuses()), node, allFailed).Some? ==>
      tracker.nodes == old(tracker.nodes) && r == Refusal(old(tracker.Statuses()), node, allFailed).value
    ensures node.Some? ==>
      && (r == UnknownNode <==> node.value !in old(tracker.nodes))
      && (r.NotFailed? <==> node.value in old(tracker.nodes) && old(tracker.nodes)[node.value].status != Failed)
      && (r.NotFailed? ==> r.status == old(tracker.nodes)[node.value].status)
    ensures node.None? ==>
      && (r == NothingNamed <==> !allFailed)
      && (r == NothingFailed <==> allFailed && WithStatus(old(tracker.Statuses()), Failed) == {})
    ensures Refusal(old(tracker.Statuses()), node, allFailed).None? && topo.None? ==>
      && r == CyclicFile
      && var s := old(tracker.Statuses());
         tracker.Statuses() == MadeReady(s, if node.Some? then {node.value} else WithStatus(s, Failed))
    ensures Refusal(old(tracker.Statuses()), node, allFailed).None? && topo.Some? ==>
      var c := RetryCommand(node, allFailed, topo, agent.succeeds);
      var run := Run(RetryPlan(tracker.graph, old(tracker.Statuses()), c), RetryStart(old(tracker.Statuses()), c));
      r.Retried? && tracker.Statuses() == run.statuses && ReportOf(run.statuses, run.results, r.report)
  {
    RefusalExact(tracker.Statuses(), node, allFailed);
    RetrySelectionExact(tracker.Statuses(), node, allFailed);
    if node.Some? && node.value !in tracker.nodes {
      return UnknownNode;
    }
    if node.Some? && !tracker.nodes[node.value].status.Failed? {
      return NotFailed(tracker.nodes[node.value].status);
    }
    if node.None? && !allFailed {
      return NothingNamed;
    }
    var xs := RetrySelection(tracker.Statuses(), node, allFailed);
    if xs == [] {
      return NothingFailed;
    }
    var report := RetrySelected(tracker, node, allFailed, topo, agent);
    return if report.None? then CyclicFile else Retried(report.value);
  }

  /** Marks the selected nodes and runs them. */
  method RetrySelected(tracker: ExecutionTracker, node: Option<Id>, allFailed: bool, topo: Option<seq<Id>>,
                       agent: Agent)
    returns (r: Option<RunReport>)
    requires tracker.Valid() && RetrySelection(tracker.Statuses(), node, allFailed) != []
    requires topo.Some? ==> IsTopologicalOrder(tracker.graph, topo.value)
    requires topo.None? ==> !Acyclic(tracker.graph)
    modifies tracker`nodes
    ensures tracker.Valid() && (r.Some? <==> topo.Some?)
    ensures topo.None? ==>
      tracker.Statuses() ==
      MadeReady(old(tracker.Statuses()), Elems(RetrySelection(old(tracker.Statuses()), node, allFailed)))
    ensures topo.Some? ==>
      var c := RetryCommand(node, allFailed, topo, agent.succeeds);
      var run := Run(RetryPlan(tracker.graph, old(tracker.Statuses()), c), RetryStart(old(tracker.Statuses()), c));
      tracker.Statuses() == run.statuses && ReportOf(run.statuses, run.results, r.value)
  {
    var xs := RetrySelection(tracker.Statuses(), node, allFailed);
    MarkForRetry(tracker, node, allFailed);
    if topo.Some? { TopoAcyclic(tracker.graph, topo.value); }
    r := RunTopological(tracker, topo, agent, RunConfig(1, false, Some(xs), None, false));
  }

  /** Retried nodes start over with one more attempt counted. */
  function RetriedStates(nodes: NodeStates, xs: set<Id>): NodeStates {
    map x | x in nodes :: if x in xs then NodeState(Ready, None, None, nodes[x].retryCount + 1) else nodes[x]
  }

  lemma RetriedStep(nodes: NodeStates, xs: seq<Id>, i: nat)
    requires NoDup(xs) && i < |xs| && xs[i] in nodes
    ensures RetriedStates(nodes, Elems(xs[..i + 1])) ==
            RetriedStates(nodes, Elems(xs[..i]))[xs[i] := NodeState(Ready, None, None, nodes[xs[i]].retryCount + 1)]
    ensures RetriedStates(nodes, Elems(xs[..i]))[xs[i]] == nodes[xs[i]]
  {
    assert Elems(xs[..i + 1]) == Elems(xs[..i]) + {xs[i]};
    assert xs[i] !in Elems(xs[..i]);
  }

  lemma RetriedStatuses(nodes: NodeStates, xs: set<Id>)
    ensures StatusesOf(RetriedStates(nodes, xs)) == MadeReady(StatusesOf(nodes), xs)
  {
  }

  method RetryAll(tracker: ExecutionTracker, xs: seq<Id>)
    requires NoDup(xs) && forall x :: x in xs ==> x in tracker.nodes && tracker.nodes[x].status.Failed?
    modifies tracker`nodes
    ensures tracker.nodes == RetriedStates(old(tracker.nodes), Elems(xs))
  {
    ghost var nodes := tracker.nodes;
    for i := 0 to |xs|
      invariant tracker.nodes == RetriedStates(nodes, Elems(xs[..i]))
    {
      RetriedStep(nodes, xs, i);
      var retried := tracker.Retry(xs[i]);
    }
    assert xs[..|xs|] == xs;
  }

  method MarkForRetry(tracker: ExecutionTracker, node: Option<Id>, allFailed: bool)
    requires tracker.Valid()
    modifies tracker`nodes
    ensures tracker.Valid()
    ensures tracker.nodes ==
            RetriedStates(old(tracker.nodes), Elems(RetrySelection(old(tracker.Statuses()), node, allFailed)))
    ensures tracker.Statuses() ==
            MadeReady(old(tracker.Statuses()), Elems(RetrySelection(old(tracker.Statuses()), node, allFailed)))
  {
    ghost var s := tracker.Statuses();
    var xs := RetrySelection(tracker.Statuses(), node, allFailed);
    RetrySelectionFailed(s, node, allFailed);
    RetrySelectionNoDup(s, node, allFailed);
    forall x | x in xs ensures x in s && s[x].Failed? {
      assert x in Elems(xs);
    }
    RetriedStatuses(tracker.nodes, Elems(xs));
    RetryAll(tracker, xs);
  }

  lemma RetrySelectionNoDup(s: StatusMap, node: Option<Id>, allFailed: bool)
    ensures NoDup(RetrySelection(s, node, allFailed))
  {
    SortedKeysNoDup(WithStatus(s, Failed));
  }

  method ResetNodes(tracker: ExecutionTracker, keepCompleted: bool)
    requires tracker.Valid()
    modifies tracker`nodes
    ensures tracker.Valid()
    ensures tracker.Statuses() == AfterReset(old(tracker.Statuses()), keepCompleted)
    ensures tracker.nodes.Keys == old(tracker.nodes).Keys
    ensures forall x :: x in tracker.nodes ==>
      tracker.nodes[x] == (if keepCompleted && old(tracker.nodes)[x].status == Completed then old(tracker.nodes)[x]
                           else NodeState(Pending, None, None, 0))
  {
    if !keepCompleted {
      tracker.Reset();
      return;
    }
    ghost var nodes := tracker.nodes;
    var toReset := SortedKeys(set x | x in tracker.nodes && !tracker.nodes[x].status.Completed?);
    for i := 0 to |toReset|
      invariant tracker.nodes == Cleared(nodes, Elems(toReset[..i]))
    {
      assert toReset[i] in Elems(toReset);
      ClearedStep(nodes, toReset, i);
      var _ := tracker.ResetNode(toReset[i]);
    }
    assert toReset[..|toReset|] == toReset;
    ClearedStatuses(nodes, Elems(toReset));
  }

  lemma ClearedStatuses(nodes: NodeStates, xs: set<Id>)
    requires xs == set x | x in nodes && !nodes[x].status.Completed?
    ensures StatusesOf(Cleared(nodes, xs)) == AfterReset(StatusesOf(nodes), true)
  {
  }

  /** What each command does first: load the saved state and reconcile it with the file. */
  method Reload(file: seq<FileNode>, saved: NodeStates) returns (tracker: ExecutionTracker)
    requires UniqueIds(file) && saved.Keys == Ids(file)
    ensures fresh(tracker) && tracker.Valid()
    ensures tracker.graph == BuildGraph(file) && tracker.nodes == saved
  {
    ReconcileUnchanged(file, saved);
    tracker := new ExecutionTracker(file, Some(saved));
  }

  /** The run of one target group, through the orchestrated runner. */
  lemma GroupCommandRuns(g: Graph, s: StatusMap, c: Command)
    requires Closed(g) && s.Keys == g.Keys && c.GroupCommand? && ValidCommand(g, s, c)
    requires c.groups.Some? && Resolvable(c.groups.value)
    requires IsTopologicalOrder(GroupGraph(c.groups.value), GroupOrder(c.groups.value))
    ensures var o := Setting(g, c.ok, c.groups.value, Some(c.target), c.limit, c.failFast);
            RunGroups(o, s, GroupOrder(c.groups.value), {}).statuses == Apply(g, s, c)
  {
    var o := Setting(g, c.ok, c.groups.value, Some(c.target), c.limit, c.failFast);
    assert c.target in GroupOrder(c.groups.value) <==> c.target in Elems(GroupOrder(c.groups.value));
    GroupCommandKeys(g, s, c);
    TargetGroupExact(o, s, GroupOrder(c.groups.value));
    if c.target in Names(o.groups) { StrategyRunExact(o, s, GroupNamed(o.groups, c.target)); }
  }

  method RunTargetGroup(tracker: ExecutionTracker, c: Command, agent: Agent)
    requires tracker.Valid() && c.GroupCommand? && ValidCommand(tracker.graph, tracker.Statuses(), c)
    requires agent.succeeds == c.ok
    modifies tracker`nodes
    ensures tracker.Valid()
    ensures tracker.Statuses() == Apply(tracker.graph, old(tracker.Statuses()), c)
  {
    var hashOrder := if c.groups.Some? then SortedKeys(Names(c.groups.value)) else [];
    if c.groups.Some? { SortedKeysNoDup(Names(c.groups.value)); }
    ghost var s := tracker.Statuses();
    var _ := RunOrchestrated(tracker, c.groups, hashOrder, agent,
                             RunConfig(c.limit, false, None, Some(c.target), c.failFast));
    if c.groups.Some? && Resolvable(c.groups.value) { GroupCommandRuns(tracker.graph, s, c); }
  }

  method RunNodes(tracker: ExecutionTracker, c: Command, agent: Agent)
    requires tracker.Valid() && c.RunCommand? && ValidCommand(tracker.graph, tracker.Statuses(), c)
    requires agent.succeeds == c.ok
    modifies tracker`nodes
    ensures tracker.Valid()
    ensures tracker.Statuses() == Apply(tracker.graph, old(tracker.Statuses()), c)
    ensures c.topo.None? ==> tracker.nodes == old(tracker.nodes)
    ensures c.topo.Some? ==>
      var s := old(tracker.Statuses());
      tracker.Statuses() == Run(Plan(tracker.graph, c.topo.value, c.limit, c.failFast,
                                     Scope(tracker.graph, s, c.targets), agent.succeeds), s).statuses
  {
    if c.topo.Some? { TopoAcyclic(tracker.graph, c.topo.value); }
    var _ := RunTopological(tracker, c.topo, agent, RunConfig(c.limit, false, c.targets, None, c.failFast));
  }

  method RetryNodes(tracker: ExecutionTracker, c: Command, agent: Agent)
    requires tracker.Valid() && c.RetryCommand? && ValidCommand(tracker.graph, tracker.Statuses(), c)
    requires agent.succeeds == c.ok
    modifies tracker`nodes
    ensures tracker.Valid()
    ensures tracker.Statuses() == Apply(tracker.graph, old(tracker.Statuses()), c)
  {
    RefusalExact(tracker.Statuses(), c.node, c.allFailed);
    var _ := Retry(tracker, c.node, c.allFailed, c.topo, agent);
  }

  method Execute(tracker: ExecutionTracker, c: Command, name: string, output: Id -> string)
    requires tracker.Valid() && ValidCommand(tracker.graph, tracker.Statuses(), c)
    modifies tracker`nodes
    ensures tracker.Valid()
    ensures tracker.Statuses() == Apply(tracker.graph, old(tracker.Statuses()), c)
  {
    match c {
      case RunCommand(topo, limit, failFast, targets, ok) =>
        RunNodes(tracker, c, Agent(name, ok, output));
      case RetryCommand(node, allFailed, topo, ok) =>
        RetryNodes(tracker, c, Agent(name, ok, output));
      case ResetCommand(keepCompleted) =>
        ResetNodes(tracker, keepCompleted);
      case ResetNodeCommand(id) =>
        var _ := tracker.ResetNode(id);
      case GroupCommand(_, _, _, _, ok) =>
        RunTargetGroup(tracker, c, Agent(name, ok, output));
    }
  }

  /** A whole history, each command in a process of its own: it ends as `Play` says, and the
      reloading in between changes nothing. */
  method Session(file: seq<FileNode>, cs: seq<Command>, name: string, output: Id -> string)
    returns (tracker: ExecutionTracker)
    requires UniqueIds(file) && ValidHistory(BuildGraph(file), StatusesOf(FreshStates(file)), cs)
    ensures fresh(tracker) && tracker.Valid() && tracker.graph == BuildGraph(file)
    ensures tracker.Statuses() == Play(BuildGraph(file), StatusesOf(FreshStates(file)), cs)
  {
    ghost var g, s := BuildGraph(file), StatusesOf(FreshStates(file));
    tracker := new ExecutionTracker(file, None);
    for i := 0 to |cs|
      invariant fresh(tracker) && tracker.Valid() && tracker.graph == g
      invariant ValidHistory(g, tracker.Statuses(), cs[i..])
      invariant Play(g, tracker.Statuses(), cs[i..]) == Play(g, s, cs)
    {
      assert cs[i..][0] == cs[i] && cs[i..][1..] == cs[i + 1..];
      tracker := Reload(file, tracker.nodes);
      Execute(tracker, cs[i], name, output);
    }
  }
}
