/** The topological scheduler: node execution, parallel dispatch and the main
    loop, proved against `Run`, a function on status maps. */
module Scheduler {
  import opened Options
  import opened Ordering
  import opened Reachability
  import opened Lifecycle
  import opened Tracker

  // The agent and the verifier together: which nodes succeed, and what they print.
  datatype Agent = Agent(name: string, succeeds: set<Id>, output: Id -> string)

  datatype RunConfig = RunConfig(maxConcurrency: nat, dryRun: bool, targetNodes: Option<seq<Id>>,
                                 targetGroup: Option<string>, failFast: bool)

  datatype RunReport = RunReport(totalNodes: nat, executed: nat, succeeded: nat, failed: nat,
                                 skipped: nat, blocked: nat, nodeResults: seq<NodeResult>)

  // ----- the run as a function -----

  // Everything that stays fixed during one run.
  datatype Plan = Plan(g: Graph, topo: seq<Id>, limit: nat, failFast: bool, scope: Option<set<Id>>, ok: set<Id>)

  ghost predicate ValidPlan(p: Plan) {
    Closed(p.g) && IsTopologicalOrder(p.g, p.topo)
  }

  datatype RunOutcome = RunOutcome(statuses: StatusMap, results: seq<NodeResult>)

  function InScope(scope: Option<set<Id>>, ids: set<Id>): set<Id> {
    if scope.None? then ids else ids * scope.value
  }

  function Candidates(p: Plan, s: StatusMap): set<Id> {
    InScope(p.scope, Eligible(p.g, s))
  }

  /** The first id of `topo` among the candidates, or else the first candidate. */
  function Picked(candidates: seq<Id>, topo: seq<Id>): (r: Id)
    requires candidates != []
    ensures r in candidates
  {
    if topo == [] then candidates[0]
    else if topo[0] in candidates then topo[0]
    else Picked(candidates, topo[1..])
  }

  function Min(a: nat, b: nat): nat {
    if a <= b then a else b
  }

  /** The nodes dispatched next: one in topological order, or the first `limit` in key order. */
  function Batch(p: Plan, candidates: set<Id>): (r: seq<Id>)
    requires candidates != {}
    ensures r != [] && Elems(r) <= candidates
  {
    var sorted := SortedKeys(candidates);
    assert |sorted| == |candidates| > 0;
    if p.limit <= 1 then
      var x := Picked(sorted, p.topo);
      assert x in Elems(sorted);
      [x]
    else
      var r := sorted[..Min(p.limit, |sorted|)];
      assert Elems(r) <= Elems(sorted);
      r
  }

  lemma BatchNoDup(p: Plan, candidates: set<Id>)
    requires candidates != {}
    ensures NoDup(Batch(p, candidates))
  {
    SortedKeysNoDup(candidates);
  }

  /** A batch takes as many candidates as the limit allows, the smallest in key order. */
  lemma BatchExact(p: Plan, candidates: set<Id>)
    requires candidates != {} && p.limit > 1
    ensures var batch := Batch(p, candidates);
            && |batch| == (if p.limit <= |candidates| then p.limit else |candidates|) && NoDup(batch)
            && Increasing(batch)
            && forall x, y :: x in batch && y in candidates && y !in batch ==> Precedes(x, y)
  {
    var sorted, batch := SortedKeys(candidates), Batch(p, candidates);
    BatchNoDup(p, candidates);
    SortedKeysIncreasing(candidates);
    assert forall k :: 0 <= k < |batch| ==> batch[k] == sorted[k] && sorted[k] in batch;
    forall x, y | x in batch && y in candidates && y !in batch ensures Precedes(x, y) {
      assert y in Elems(sorted);
      var i :| 0 <= i < |batch| && sorted[i] == x;
      var j :| 0 <= j < |sorted| && sorted[j] == y;
    }
  }

  lemma {:induction false} PickedFirst(candidates: seq<Id>, topo: seq<Id>) returns (i: nat)
    requires candidates != [] && exists x :: x in candidates && x in topo
    ensures i < |topo| && topo[i] == Picked(candidates, topo)
    ensures forall j :: 0 <= j < i ==> topo[j] !in candidates
  {
    if topo[0] in candidates {
      i := 0;
    } else {
      var x :| x in candidates && x in topo;
      assert topo == [topo[0]] + topo[1..];
      var k := PickedFirst(candidates, topo[1..]);
      i := k + 1;
      forall j | 0 <= j < i ensures topo[j] !in candidates {
        if j > 0 { assert topo[j] == topo[1..][j - 1]; }
      }
    }
  }

  /** At low concurrency a turn takes the one candidate that no other precedes in the order. */
  lemma SerialBatchExact(p: Plan, candidates: set<Id>)
    requires candidates != {} && p.limit <= 1 && NoDup(p.topo) && candidates <= Elems(p.topo)
    ensures |Batch(p, candidates)| == 1
    ensures forall y :: y in candidates ==>
      Batch(p, candidates)[0] in p.topo && y in p.topo && IndexOf(p.topo, Batch(p, candidates)[0]) <= IndexOf(p.topo, y)
  {
    var sorted := SortedKeys(candidates);
    assert |sorted| == |candidates| > 0;
    assert sorted[0] in Elems(sorted);
    var i := PickedFirst(sorted, p.topo);
    forall y | y in candidates
      ensures Batch(p, candidates)[0] in p.topo && y in p.topo
      ensures IndexOf(p.topo, Batch(p, candidates)[0]) <= IndexOf(p.topo, y)
    {
      assert y in Elems(p.topo) && y in Elems(sorted);
      assert IndexOf(p.topo, p.topo[i]) == i;
    }
  }

  ghost function Run(p: Plan, s: StatusMap): (r: RunOutcome)
    requires ValidPlan(p) && s.Keys == p.g.Keys
    ensures r.statuses.Keys == s.Keys
    decreases |ActiveIds(s)|
  {
    var c := Candidates(p, s);
    if c == {} then RunOutcome(s, [])
    else
      var batch := Batch(p, c);
      assert batch[0] in Elems(batch);
      AfterShrinks(p.g, p.ok, s, Elems(batch));
      var t := After(p.g, p.ok, s, Elems(batch));
      if p.failFast && !(Elems(batch) <= p.ok) then RunOutcome(t, Results(p.ok, batch))
      else
        var rest := Run(p, t);
        RunOutcome(rest.statuses, Results(p.ok, batch) + rest.results)
  }

  // ----- executing nodes -----

  /** Execution leaves its record on the nodes that ran and only a status on the others. */
  ghost predicate Records(before: NodeStates, after: NodeStates, ran: set<Id>, agent: Agent) {
    && after.Keys == before.Keys
    && (forall y :: y in before && y !in ran ==> after[y] == before[y].(status := after[y].status))
    && (forall y :: y in before && y in ran ==>
          after[y] == NodeState(after[y].status, Some(agent.name), Some(agent.output(y)), before[y].retryCount))
  }

  ghost predicate OnlyStatuses(before: NodeStates, after: NodeStates) {
    && after.Keys == before.Keys
    && forall y :: y in before ==> after[y] == before[y].(status := after[y].status)
  }

  /** The nodes that have results. */
  function Executed(rs: seq<NodeResult>): set<Id> {
    set r | r in rs :: r.id
  }

  lemma ExecutedAppend(a: seq<NodeResult>, b: seq<NodeResult>)
    ensures Executed(a + b) == Executed(a) + Executed(b)
  {
  }

  lemma ExecutedResults(ok: set<Id>, batch: seq<Id>)
    ensures Executed(Results(ok, batch)) == Elems(batch)
  {
    var rs := Results(ok, batch);
    forall x | x in Elems(batch) ensures x in Executed(rs) {
      var i :| 0 <= i < |batch| && batch[i] == x;
      assert rs[i].id == x && rs[i] in rs;
    }
  }

  lemma RecordsCompose(a: NodeStates, b: NodeStates, c: NodeStates, r: set<Id>, t: set<Id>, agent: Agent)
    requires Records(a, b, r, agent) && Records(b, c, t, agent)
    ensures Records(a, c, r + t, agent)
  {
  }

  /** Moves a node to InProgress, promoting a Pending one to Ready first. */
  method Begin(tracker: ExecutionTracker, x: Id) returns (ok: bool)
    requires tracker.Valid()
    modifies tracker`nodes
    ensures tracker.Valid()
    ensures ok <==> CanBegin(tracker.graph, old(tracker.Statuses()), x)
    ensures tracker.Statuses() == if ok then old(tracker.Statuses())[x := InProgress] else old(tracker.Statuses())
    ensures OnlyStatuses(old(tracker.nodes), tracker.nodes)
  {
    if x in tracker.nodes && tracker.nodes[x].status.Pending? {
      var promoted := tracker.Transition(x, Ready);
      assert promoted;
    }
    ok := tracker.Transition(x, InProgress);
  }

  /** Writes the outcome of a node that has run, and blocks its dependents if it failed. */
  method RecordOutcome(tracker: ExecutionTracker, x: Id, agent: Agent) returns (r: NodeResult)
    requires tracker.Valid() && x in tracker.nodes && tracker.nodes[x].status.InProgress?
    modifies tracker`nodes
    ensures tracker.Valid()
    ensures r == NodeResult(x, Verdict(agent.succeeds, x))
    ensures tracker.Statuses() == Finish(tracker.graph, agent.succeeds, old(tracker.Statuses()), x)
    ensures Records(old(tracker.nodes), tracker.nodes, {x}, agent)
  {
    ghost var s := tracker.Statuses();
    if x in agent.succeeds {
      var marked := tracker.MarkCompleted(x, agent.name, Some(agent.output(x)));
      assert tracker.Statuses() == s[x := Completed];
      r := NodeResult(x, Completed);
    } else {
      var marked := tracker.MarkFailed(x, agent.name, Some(agent.output(x)));
      assert tracker.Statuses() == s[x := Failed];
      var _ := tracker.PropagateBlocked(x);
      r := NodeResult(x, Failed);
    }
  }

  method ExecuteNode(tracker: ExecutionTracker, x: Id, agent: Agent) returns (r: Option<NodeResult>)
    requires tracker.Valid()
    modifies tracker`nodes
    ensures tracker.Valid()
    ensures var d := Dispatch(tracker.graph, agent.succeeds, old(tracker.Statuses()), [x]);
            && tracker.Statuses() == d.statuses
            && r == if d.error then None else Some(d.results[0])
    ensures Records(old(tracker.nodes), tracker.nodes, if r.Some? then {x} else {}, agent)
  {
    SingletonDispatch(tracker.graph, agent.succeeds, tracker.Statuses(), x);
    var begun := Begin(tracker, x);
    if !begun {
      return None;
    }
    ghost var started := tracker.nodes;
    var result := RecordOutcome(tracker, x, agent);
    RecordsCompose(old(tracker.nodes), started, tracker.nodes, {}, {x}, agent);
    assert {} + {x} == {x};
    r := Some(result);
  }

  lemma SingletonDispatch(g: Graph, ok: set<Id>, s: StatusMap, x: Id)
    ensures Dispatch(g, ok, s, [x]) ==
            if CanBegin(g, s, x)
            then Dispatched(Finish(g, ok, s[x := InProgress], x), [NodeResult(x, Verdict(ok, x))], false)
            else Dispatched(s, [], true)
  {
    var t := s[x := InProgress];
    assert [x][1..] == [];
    if CanBegin(g, s, x) {
      assert BeginAll(g, s, [x]) == BeginAll(g, t, []) == Begun(t, false);
      assert FinishAll(g, ok, t, [x]) == FinishAll(g, ok, Finish(g, ok, t, x), []);
      assert Results(ok, [x]) == [NodeResult(x, Verdict(ok, x))];
    }
  }

  /** The first phase of a parallel dispatch: every member enters InProgress, or it fails. */
  method BeginBatch(tracker: ExecutionTracker, batch: seq<Id>) returns (ok: bool)
    requires tracker.Valid()
    modifies tracker`nodes
    ensures tracker.Valid()
    ensures Begun(tracker.Statuses(), !ok) == BeginAll(tracker.graph, old(tracker.Statuses()), batch)
    ensures OnlyStatuses(old(tracker.nodes), tracker.nodes)
  {
    for i := 0 to |batch|
      invariant tracker.Valid()
      invariant BeginAll(tracker.graph, tracker.Statuses(), batch[i..]) ==
                BeginAll(tracker.graph, old(tracker.Statuses()), batch)
      invariant OnlyStatuses(old(tracker.nodes), tracker.nodes)
    {
      assert batch[i..][0] == batch[i] && batch[i..][1..] == batch[i + 1..];
      var begun := Begin(tracker, batch[i]);
      if !begun {
        return false;
      }
    }
    return true;
  }

  /** The last phase: outcomes are recorded in batch order. */
  method RecordBatch(tracker: ExecutionTracker, batch: seq<Id>, agent: Agent) returns (results: seq<NodeResult>)
    requires tracker.Valid() && NoDup(batch)
    requires forall x :: x in batch ==> x in tracker.nodes && tracker.nodes[x].status.InProgress?
    modifies tracker`nodes
    ensures tracker.Valid()
    ensures tracker.Statuses() == FinishAll(tracker.graph, agent.succeeds, old(tracker.Statuses()), batch)
    ensures results == Results(agent.succeeds, batch)
    ensures Records(old(tracker.nodes), tracker.nodes, Elems(batch), agent)
  {
    ghost var g, n, s := tracker.graph, tracker.nodes, tracker.Statuses();
    results := [];
    for i := 0 to |batch|
      invariant tracker.Valid() && Recording(g, agent, n, batch, i, tracker.nodes, results)
    {
      ghost var before := tracker.nodes;
      assert tracker.Statuses()[batch[i]].InProgress?;
      var result := RecordOutcome(tracker, batch[i], agent);
      RecordingStep(g, agent, n, batch, i, before, tracker.nodes, results);
      results := results + [result];
    }
    assert batch[..|batch|] == batch;
  }

  /** The state of the last phase when the first `i` members are recorded. */
  ghost predicate Recording(g: Graph, agent: Agent, start: NodeStates, batch: seq<Id>, i: nat,
                            nodes: NodeStates, results: seq<NodeResult>)
    requires i <= |batch|
  {
    && FinishAll(g, agent.succeeds, StatusesOf(nodes), batch[i..]) ==
       FinishAll(g, agent.succeeds, StatusesOf(start), batch)
    && StillRunning(StatusesOf(nodes), batch, i)
    && results == Results(agent.succeeds, batch[..i])
    && Records(start, nodes, Elems(batch[..i]), agent)
  }

  lemma RecordingStep(g: Graph, agent: Agent, start: NodeStates, batch: seq<Id>, i: nat,
                      before: NodeStates, after: NodeStates, results: seq<NodeResult>)
    requires NoDup(batch) && i < |batch| && Recording(g, agent, start, batch, i, before, results)
    requires StatusesOf(after) == Finish(g, agent.succeeds, StatusesOf(before), batch[i])
    requires Records(before, after, {batch[i]}, agent)
    ensures Recording(g, agent, start, batch, i + 1, after,
                      results + [NodeResult(batch[i], Verdict(agent.succeeds, batch[i]))])
  {
    FinishStep(g, agent.succeeds, StatusesOf(before), batch, i);
    RecordsCompose(start, before, after, Elems(batch[..i]), {batch[i]}, agent);
    PrefixStep(agent.succeeds, batch, i);
  }

  lemma PrefixStep(ok: set<Id>, batch: seq<Id>, i: nat)
    requires i < |batch|
    ensures Elems(batch[..i + 1]) == Elems(batch[..i]) + {batch[i]}
    ensures Results(ok, batch[..i + 1]) == Results(ok, batch[..i]) + [NodeResult(batch[i], Verdict(ok, batch[i]))]
  {
    assert batch[..i + 1] == batch[..i] + [batch[i]];
  }

  ghost predicate StillRunning(s: StatusMap, batch: seq<Id>, i: nat) {
    forall j :: i <= j < |batch| ==> batch[j] in s && s[batch[j]].InProgress?
  }

  lemma FinishStep(g: Graph, ok: set<Id>, s: StatusMap, batch: seq<Id>, i: nat)
    requires NoDup(batch) && i < |batch| && StillRunning(s, batch, i)
    ensures var t := Finish(g, ok, s, batch[i]);
            StillRunning(t, batch, i + 1) && FinishAll(g, ok, s, batch[i..]) == FinishAll(g, ok, t, batch[i + 1..])
  {
    assert batch[i..][0] == batch[i] && batch[i..][1..] == batch[i + 1..];
  }

  method DispatchParallel(tracker: ExecutionTracker, batch: seq<Id>, agent: Agent)
    returns (r: Option<seq<NodeResult>>)
    requires tracker.Valid()
    modifies tracker`nodes
    ensures tracker.Valid()
    ensures var d := Dispatch(tracker.graph, agent.succeeds, old(tracker.Statuses()), batch);
            && tracker.Statuses() == d.statuses
            && r == if d.error then None else Some(d.results)
    ensures Records(old(tracker.nodes), tracker.nodes, if r.Some? then Elems(batch) else {}, agent)
  {
    var begun := BeginBatch(tracker, batch);
    if !begun {
      return None;
    }
    BeginAllExact(tracker.graph, old(tracker.Statuses()), batch);
    ghost var started := tracker.nodes;
    forall x | x in batch ensures x in tracker.nodes && tracker.nodes[x].status.InProgress? {
      assert x in Elems(batch) && CanBegin(tracker.graph, old(tracker.Statuses()), x);
      assert tracker.Statuses()[x].InProgress?;
    }
    var results := RecordBatch(tracker, batch, agent);
    RecordsCompose(old(tracker.nodes), started, tracker.nodes, {}, Elems(batch), agent);
    assert {} + Elems(batch) == Elems(batch);
    return Some(results);
  }

  // ----- reports -----

  function CountStatus(rs: seq<NodeResult>, st: Status): nat {
    if rs == [] then 0 else (if rs[0].status == st then 1 else 0) + CountStatus(rs[1..], st)
  }

  ghost predicate ReportOf(s: StatusMap, results: seq<NodeResult>, r: RunReport) {
    && r.nodeResults == results && r.executed == |results|
    && r.succeeded == CountStatus(results, Completed) && r.failed == CountStatus(results, Failed)
    && r.totalNodes == |s| && r.skipped == |WithStatus(s, Skipped)| && r.blocked == |WithStatus(s, Blocked)|
  }

  method BuildReport(tracker: ExecutionTracker, results: seq<NodeResult>) returns (r: RunReport)
    ensures ReportOf(tracker.Statuses(), results, r)
  {
    var p := tracker.GetProgress();
    assert |tracker.Statuses()| == |tracker.Statuses().Keys| == |tracker.nodes.Keys| == |tracker.nodes|;
    r := RunReport(p.total, |results|, CountStatus(results, Completed), CountStatus(results, Failed),
                   p.skipped, p.blocked, results);
  }

  /** The ids a dry run lists: the topological order restricted to the scope. */
  function DryRunPlan(topo: seq<Id>, scope: Option<set<Id>>): seq<Id> {
    if scope.None? then topo else Keep(topo, scope.value)
  }

  function DryRunReport(topo: seq<Id>, scope: Option<set<Id>>): RunReport {
    var ids := DryRunPlan(topo, scope);
    RunReport(|ids|, 0, 0, 0, |ids|, 0, seq(|ids|, i requires 0 <= i < |ids| => NodeResult(ids[i], Pending)))
  }

  /** The report of a run that executes nothing and lists these nodes as skipped and Pending. */
  ghost predicate Lists(r: RunReport, ids: seq<Id>) {
    && r.executed == 0 && r.succeeded == 0 && r.failed == 0 && r.blocked == 0
    && r.totalNodes == |ids| && r.skipped == |ids| && |r.nodeResults| == |ids|
    && forall i :: 0 <= i < |ids| ==> r.nodeResults[i] == NodeResult(ids[i], Pending)
  }

  // ----- the main loop -----

  /** The targets and their unfinished dependencies, direct or not. */
  ghost function ExecutionSet(g: Graph, s: StatusMap, targets: seq<Id>): set<Id> {
    Elems(targets) + set d | d in s && !Done(s[d]) && exists t :: t in targets && d in TransDeps(g, t)
  }

  ghost function Scope(g: Graph, s: StatusMap, targets: Option<seq<Id>>): Option<set<Id>> {
    if targets.None? then None else Some(ExecutionSet(g, s, targets.value))
  }

  method BuildExecutionSet(tracker: ExecutionTracker, targets: seq<Id>) returns (r: set<Id>)
    requires tracker.Valid()
    ensures r == ExecutionSet(tracker.graph, tracker.Statuses(), targets)
  {
    ghost var g, s := tracker.graph, tracker.Statuses();
    r := {};
    for i := 0 to |targets|
      invariant r == ExecutionSet(g, s, targets[..i])
    {
      assert targets[..i + 1] == targets[..i] + [targets[i]];
      var deps := TransitiveDeps(tracker.graph, targets[i]);
      r := r + {targets[i]} + set d | d in deps && d in tracker.nodes && !Done(tracker.nodes[d].status);
    }
    assert targets[..|targets|] == targets;
  }

  method PickTopoFirst(candidates: seq<Id>, topo: seq<Id>) returns (r: Id)
    requires candidates != []
    ensures r == Picked(candidates, topo)
    ensures (forall k :: 0 <= k < |topo| ==> topo[k] !in candidates) ==> r == candidates[0]
    ensures (exists k :: 0 <= k < |topo| && topo[k] in candidates) ==>
              exists i :: 0 <= i < |topo| && r == topo[i] && r in candidates
                          && forall k :: 0 <= k < i ==> topo[k] !in candidates
  {
    for i := 0 to |topo|
      invariant Picked(candidates, topo[i..]) == Picked(candidates, topo)
      invariant forall k :: 0 <= k < i ==> topo[k] !in candidates
    {
      if topo[i] in candidates {
        return topo[i];
      }
      assert topo[i..][1..] == topo[i + 1..];
    }
    return candidates[0];
  }

  lemma CandidatesSorted(p: Plan, s: StatusMap)
    ensures var ready := Keep(SortedKeys(s.Keys), Eligible(p.g, s));
            (if p.scope.None? then ready else Keep(ready, p.scope.value)) == SortedKeys(Candidates(p, s))
  {
    KeepSortedKeys(s.Keys, Eligible(p.g, s));
    assert s.Keys * Eligible(p.g, s) == Eligible(p.g, s);
    if p.scope.Some? {
      KeepSortedKeys(Eligible(p.g, s), p.scope.value);
    }
  }

  /** Runs nodes in dependency order. `topo` is the answer of the topological sort of the
      graph: an order, or None for a cycle. */
  method RunTopological(tracker: ExecutionTracker, topo: Option<seq<Id>>, agent: Agent, config: RunConfig)
    returns (r: Option<RunReport>)
    requires tracker.Valid()
    requires topo.Some? ==> IsTopologicalOrder(tracker.graph, topo.value)
    requires topo.None? ==> !Acyclic(tracker.graph)
    modifies tracker`nodes
    ensures tracker.Valid()
    ensures r.None? <==> !Acyclic(tracker.graph)
    ensures r.None? || config.dryRun ==> tracker.nodes == old(tracker.nodes)
    ensures r.Some? && config.dryRun ==>
      Lists(r.value, DryRunPlan(topo.value, Scope(tracker.graph, old(tracker.Statuses()), config.targetNodes)))
    ensures r.Some? && !config.dryRun ==>
      var p := Plan(tracker.graph, topo.value, config.maxConcurrency, config.failFast,
                    Scope(tracker.graph, old(tracker.Statuses()), config.targetNodes), agent.succeeds);
      var run := Run(p, old(tracker.Statuses()));
      && tracker.Statuses() == run.statuses && ReportOf(run.statuses, run.results, r.value)
      && Records(old(tracker.nodes), tracker.nodes, Executed(run.results), agent)
  {
    if topo.None? {
      return None;
    }
    TopoAcyclic(tracker.graph, topo.value);
    var scope: Option<set<Id>> := None;
    if config.targetNodes.Some? {
      var e := BuildExecutionSet(tracker, config.targetNodes.value);
      scope := Some(e);
    }
    if config.dryRun {
      return Some(DryRunReport(topo.value, scope));
    }
    var p := Plan(tracker.graph, topo.value, config.maxConcurrency, config.failFast, scope, agent.succeeds);
    var nodeResults := MainLoop(tracker, p, agent);
    var report := BuildReport(tracker, nodeResults);
    return Some(report);
  }

  /** In scope, and Ready, or Pending with all dependencies there and Completed or Skipped. */
  ghost predicate MayRun(p: Plan, s: StatusMap, x: Id) {
    && x in s && (p.scope.Some? ==> x in p.scope.value)
    && match s[x]
       case Ready => true
       case Pending => x in p.g ==> forall d :: d in p.g[x] ==> d in s && s[d] in {Completed, Skipped}
       case _ => false
  }

  lemma CandidatesExact(p: Plan, s: StatusMap, x: Id)
    ensures x in Candidates(p, s) <==> MayRun(p, s, x)
  {
  }

  lemma InSortedKeys(s: set<Id>, x: Id)
    ensures x in SortedKeys(s) <==> x in s
  {
    assert x in SortedKeys(s) <==> x in Elems(SortedKeys(s));
  }

  lemma SortedCandidates(p: Plan, s: StatusMap)
    ensures var r := SortedKeys(Candidates(p, s)); Increasing(r) && NoDup(r) && forall x :: x in r <==> MayRun(p, s, x)
  {
    var c := Candidates(p, s);
    SortedKeysNoDup(c);
    SortedKeysIncreasing(c);
    forall x ensures x in SortedKeys(c) <==> MayRun(p, s, x) {
      InSortedKeys(c, x);
      CandidatesExact(p, s, x);
    }
  }

  /** The ready nodes, in key order, that the run may execute. */
  method ReadyInScope(tracker: ExecutionTracker, p: Plan) returns (candidates: seq<Id>)
    requires p.g == tracker.graph
    ensures candidates == SortedKeys(Candidates(p, tracker.Statuses()))
    ensures candidates != [] <==> Candidates(p, tracker.Statuses()) != {}
    ensures Increasing(candidates) && NoDup(candidates)
    ensures forall x :: x in candidates <==> MayRun(p, tracker.Statuses(), x)
  {
    SortedCandidates(p, tracker.Statuses());
    CandidatesSorted(p, tracker.Statuses());
    var ready := tracker.ReadyNodes();
    candidates := if p.scope.None? then ready else Keep(ready, p.scope.value);
    assert |candidates| == |Candidates(p, tracker.Statuses())|;
  }

  method MainLoop(tracker: ExecutionTracker, p: Plan, agent: Agent) returns (nodeResults: seq<NodeResult>)
    requires tracker.Valid() && ValidPlan(p) && p.g == tracker.graph && p.ok == agent.succeeds
    modifies tracker`nodes
    ensures tracker.Valid()
    ensures RunOutcome(tracker.Statuses(), nodeResults) == Run(p, old(tracker.Statuses()))
    ensures Records(old(tracker.nodes), tracker.nodes, Executed(nodeResults), agent)
  {
    nodeResults := [];
    var hadFailure := false;
    while true
      invariant tracker.Valid()
      invariant hadFailure ==> !p.failFast
      invariant Resumes(p, old(tracker.Statuses()), nodeResults, tracker.Statuses())
      invariant Records(old(tracker.nodes), tracker.nodes, Executed(nodeResults), agent)
      decreases |ActiveIds(tracker.Statuses())|
    {
      ghost var s, before := tracker.Statuses(), tracker.nodes;
      var candidates := ReadyInScope(tracker, p);
      if candidates == [] {
        return;
      }
      ResumeStep(p, old(tracker.Statuses()), nodeResults, s);
      TurnExact(p, s);
      var results := DispatchNext(tracker, p, candidates, agent);
      FailedIn(p.ok, Batch(p, Candidates(p, s)));
      var anyFailed := AnyFailed(results);
      hadFailure := hadFailure || anyFailed;
      RecordsCompose(old(tracker.nodes), before, tracker.nodes, Executed(nodeResults), Executed(results), agent);
      ExecutedAppend(nodeResults, results);
      nodeResults := nodeResults + results;
      if hadFailure && p.failFast {
        return;
      }
    }
  }

  /** The run from `start` is `done` followed by the run from `s`. */
  ghost predicate Resumes(p: Plan, start: StatusMap, done: seq<NodeResult>, s: StatusMap)
    requires ValidPlan(p) && start.Keys == s.Keys == p.g.Keys
  {
    Run(p, start) == RunOutcome(Run(p, s).statuses, done + Run(p, s).results)
  }

  lemma ResumeStep(p: Plan, start: StatusMap, done: seq<NodeResult>, s: StatusMap)
    requires ValidPlan(p) && start.Keys == s.Keys == p.g.Keys
    requires Resumes(p, start, done, s) && Candidates(p, s) != {}
    ensures var batch := Batch(p, Candidates(p, s));
            var t := After(p.g, p.ok, s, Elems(batch));
            && |ActiveIds(t)| < |ActiveIds(s)|
            && if p.failFast && !(Elems(batch) <= p.ok) then Run(p, start) == RunOutcome(t, done + Results(p.ok, batch))
               else Resumes(p, start, done + Results(p.ok, batch), t)
  {
    RunStep(p, s);
    var batch := Batch(p, Candidates(p, s));
    if !(p.failFast && !(Elems(batch) <= p.ok)) {
      AppendAssociative(done, Results(p.ok, batch), Run(p, After(p.g, p.ok, s, Elems(batch))).results);
    }
  }

  lemma AppendAssociative(a: seq<NodeResult>, b: seq<NodeResult>, c: seq<NodeResult>)
    ensures a + (b + c) == a + b + c
  {
  }

  /** One turn of `Run`, and why it ends: the active nodes become fewer. */
  lemma RunStep(p: Plan, s: StatusMap)
    requires ValidPlan(p) && s.Keys == p.g.Keys && Candidates(p, s) != {}
    ensures var batch := Batch(p, Candidates(p, s));
            var t := After(p.g, p.ok, s, Elems(batch));
            && ActiveIds(t) < ActiveIds(s) && |ActiveIds(t)| < |ActiveIds(s)|
            && Run(p, s).statuses == (if p.failFast && !(Elems(batch) <= p.ok) then t else Run(p, t).statuses)
            && Run(p, s).results == Results(p.ok, batch) +
                 (if p.failFast && !(Elems(batch) <= p.ok) then [] else Run(p, t).results)
  {
    var batch := Batch(p, Candidates(p, s));
    assert batch[0] in Elems(batch);
    AfterShrinks(p.g, p.ok, s, Elems(batch));
  }

  method AnyFailed(results: seq<NodeResult>) returns (b: bool)
    ensures b <==> exists j :: 0 <= j < |results| && results[j].status.Failed?
  {
    b := false;
    for i := 0 to |results|
      invariant b <==> exists j :: 0 <= j < i && results[j].status.Failed?
    {
      if results[i].status.Failed? {
        b := true;
      }
    }
  }

  lemma FailedIn(ok: set<Id>, batch: seq<Id>)
    ensures Elems(batch) <= ok <==> !exists j :: 0 <= j < |batch| && Results(ok, batch)[j].status.Failed?
  {
    forall j | 0 <= j < |batch| ensures Results(ok, batch)[j].status.Failed? <==> batch[j] !in ok {
    }
    if Elems(batch) <= ok {
      assert forall j :: 0 <= j < |batch| ==> batch[j] in Elems(batch);
    }
  }

  /** One iteration: a single node at low concurrency, and otherwise a batch. */
  method DispatchNext(tracker: ExecutionTracker, p: Plan, candidates: seq<Id>, agent: Agent)
    returns (results: seq<NodeResult>)
    requires tracker.Valid() && p.g == tracker.graph && p.ok == agent.succeeds
    requires candidates != [] && candidates == SortedKeys(Candidates(p, tracker.Statuses()))
    modifies tracker`nodes
    ensures tracker.Valid()
    ensures Candidates(p, old(tracker.Statuses())) != {}
    ensures Turn(p, old(tracker.Statuses())) == Dispatched(tracker.Statuses(), results, false)
    ensures Records(old(tracker.nodes), tracker.nodes, Executed(results), agent)
  {
    ghost var c := Candidates(p, tracker.Statuses());
    assert candidates[0] in c;
    TurnExact(p, tracker.Statuses());
    if p.limit <= 1 {
      var next := PickTopoFirst(candidates, p.topo);
      assert Batch(p, c) == [next];
      results := DispatchOne(tracker, next, agent);
    } else {
      var batch := candidates[..Min(p.limit, |candidates|)];
      assert Batch(p, c) == batch;
      results := DispatchSeveral(tracker, batch, agent);
    }
  }

  method DispatchOne(tracker: ExecutionTracker, x: Id, agent: Agent) returns (results: seq<NodeResult>)
    requires tracker.Valid() && !Dispatch(tracker.graph, agent.succeeds, tracker.Statuses(), [x]).error
    modifies tracker`nodes
    ensures tracker.Valid()
    ensures Dispatch(tracker.graph, agent.succeeds, old(tracker.Statuses()), [x])
            == Dispatched(tracker.Statuses(), results, false)
    ensures Records(old(tracker.nodes), tracker.nodes, Executed(results), agent)
  {
    ExecutedResults(agent.succeeds, [x]);
    assert Elems([x]) == {x};
    var result := ExecuteNode(tracker, x, agent);
    results := [result.value];
  }

  method DispatchSeveral(tracker: ExecutionTracker, batch: seq<Id>, agent: Agent) returns (results: seq<NodeResult>)
    requires tracker.Valid() && !Dispatch(tracker.graph, agent.succeeds, tracker.Statuses(), batch).error
    modifies tracker`nodes
    ensures tracker.Valid()
    ensures Dispatch(tracker.graph, agent.succeeds, old(tracker.Statuses()), batch)
            == Dispatched(tracker.Statuses(), results, false)
    ensures Records(old(tracker.nodes), tracker.nodes, Executed(results), agent)
  {
    ExecutedResults(agent.succeeds, batch);
    var r := DispatchParallel(tracker, batch, agent);
    results := r.value;
  }

  /** What one iteration does to the status map and what it reports. */
  ghost function Turn(p: Plan, s: StatusMap): Dispatched
    requires Candidates(p, s) != {}
  {
    Dispatch(p.g, p.ok, s, Batch(p, Candidates(p, s)))
  }

  lemma TurnExact(p: Plan, s: StatusMap)
    requires Closed(p.g) && s.Keys == p.g.Keys && Candidates(p, s) != {}
    ensures var batch := Batch(p, Candidates(p, s));
            Turn(p, s) == Dispatched(After(p.g, p.ok, s, Elems(batch)), Results(p.ok, batch), false)
  {
    CandidatesDispatchable(p, s);
    DispatchExact(p.g, p.ok, s, Batch(p, Candidates(p, s)));
  }

  lemma CandidatesDispatchable(p: Plan, s: StatusMap)
    requires s.Keys == p.g.Keys && Candidates(p, s) != {}
    ensures Dispatchable(p.g, s, Batch(p, Candidates(p, s)))
  {
    var batch := Batch(p, Candidates(p, s));
    BatchNoDup(p, Candidates(p, s));
    forall x | x in batch ensures CanBegin(p.g, s, x) {
      assert x in Elems(batch);
    }
  }
}
