/** Orchestrated runs: groups in `requires` order, each executed one node at a
    time or in parallel chunks. */
module Orchestration {
  import opened Options
  import opened Ordering
  import opened Reachability
  import opened Lifecycle
  import opened Tracker
  import opened Scheduler
  import opened Groups

  // What happens to a group: its results, or an invalid transition that ends the run.
  datatype GroupOutcome = GroupOutcome(statuses: StatusMap, results: seq<NodeResult>, error: bool)

  // ----- one group, on status maps -----

  predicate SkipInGroup(st: Status) {
    st.Completed? || st.Skipped? || st.Blocked? || st.Failed?
  }

  ghost function Prepend(results: seq<NodeResult>, rest: GroupOutcome): GroupOutcome {
    if rest.error then rest else rest.(results := results + rest.results)
  }

  /** One node after the other, in list order; `depends` is not looked at. */
  ghost function SequentialGroup(g: Graph, ok: set<Id>, failFast: bool, s: StatusMap, ids: seq<Id>): GroupOutcome
    decreases |ids|
  {
    if ids == [] then GroupOutcome(s, [], false)
    else if (ids[0] in s && SkipInGroup(s[ids[0]])) || ids[0] !in g then
      SequentialGroup(g, ok, failFast, s, ids[1..])
    else
      var d := Dispatch(g, ok, s, [ids[0]]);
      if d.error then GroupOutcome(d.statuses, [], true)
      else if failFast && ids[0] !in ok then GroupOutcome(d.statuses, d.results, false)
      else Prepend(d.results, SequentialGroup(g, ok, failFast, d.statuses, ids[1..]))
  }

  /** The members that are Pending or Ready, in list order and with repeats. */
  function StillActive(s: StatusMap, ids: seq<Id>): seq<Id> {
    Keep(ids, ActiveIds(s))
  }

  function Head(ids: seq<Id>, c: nat): seq<Id> {
    ids[..Min(c, |ids|)]
  }

  function Tail(ids: seq<Id>, c: nat): seq<Id> {
    ids[Min(c, |ids|)..]
  }

  ghost function ParallelChunks(g: Graph, ok: set<Id>, failFast: bool, s: StatusMap, ids: seq<Id>, c: nat): GroupOutcome
    requires c > 0
    decreases |ids|
  {
    if ids == [] then GroupOutcome(s, [], false)
    else
      var d := Dispatch(g, ok, s, Head(ids, c));
      if d.error then GroupOutcome(d.statuses, [], true)
      else if failFast && !(Elems(Head(ids, c)) <= ok) then GroupOutcome(d.statuses, d.results, false)
      else Prepend(d.results, ParallelChunks(g, ok, failFast, d.statuses, Tail(ids, c), c))
  }

  ghost function GroupRun(g: Graph, ok: set<Id>, failFast: bool, s: StatusMap, ids: seq<Id>, c: nat): GroupOutcome {
    if c <= 1 then SequentialGroup(g, ok, failFast, s, ids)
    else ParallelChunks(g, ok, failFast, s, StillActive(s, ids), c)
  }

  // ----- the groups of a run -----

  datatype GroupTrace = GroupTrace(name: string, results: seq<NodeResult>)

  datatype OrchError = NoError | GateClosed(group: string, missing: string) | InvalidTransition

  datatype OrchOutcome = OrchOutcome(statuses: StatusMap, trace: seq<GroupTrace>, error: OrchError)

  datatype Setting = Setting(g: Graph, ok: set<Id>, groups: seq<Group>, target: Option<string>,
                             limit: nat, failFast: bool)

  function GroupNamed(groups: seq<Group>, name: string): (r: Group)
    requires name in Names(groups)
    ensures r in groups && r.name == name
  {
    assert groups == [groups[0]] + groups[1..];
    if groups[0].name == name then groups[0] else GroupNamed(groups[1..], name)
  }

  function Concurrency(group: Group, limit: nat): nat {
    match group.strategy
    case Sequential => 1
    case Parallel => if group.maxConcurrency.Some? then group.maxConcurrency.value else limit
  }

  /** What a group does in a run: a sequential one goes one by one, whatever the run's limit; a
      parallel one goes in chunks of its own maximum, or of the limit if it has none. */
  ghost function StrategyRun(o: Setting, s: StatusMap, group: Group): GroupOutcome {
    match group.strategy
    case Sequential => SequentialGroup(o.g, o.ok, o.failFast, s, group.nodes)
    case Parallel =>
      var c := if group.maxConcurrency.Some? then group.maxConcurrency.value else o.limit;
      if c > 1 then ParallelChunks(o.g, o.ok, o.failFast, s, StillActive(s, group.nodes), c)
      else SequentialGroup(o.g, o.ok, o.failFast, s, group.nodes)
  }

  lemma StrategyRunExact(o: Setting, s: StatusMap, group: Group)
    ensures GroupRun(o.g, o.ok, o.failFast, s, group.nodes, Concurrency(group, o.limit)) == StrategyRun(o, s, group)
  {
  }

  function FirstMissing(required: seq<string>, completed: set<string>): Option<string> {
    if required == [] then None
    else if required[0] !in completed then Some(required[0])
    else FirstMissing(required[1..], completed)
  }

  predicate SomeFailed(rs: seq<NodeResult>) {
    exists j :: 0 <= j < |rs| && rs[j].status.Failed?
  }

  ghost function RunGroups(o: Setting, s: StatusMap, names: seq<string>, completed: set<string>): OrchOutcome
    requires Elems(names) <= Names(o.groups)
    decreases |names|
  {
    if names == [] then OrchOutcome(s, [], NoError)
    else
      assert names == [names[0]] + names[1..];
      if o.target.Some? && names[0] != o.target.value then RunGroups(o, s, names[1..], completed)
      else
        assert names[0] in Elems(names);
        var group := GroupNamed(o.groups, names[0]);
        var missing := FirstMissing(group.prerequisites, completed);
        if missing.Some? then OrchOutcome(s, [], GateClosed(names[0], missing.value))
        else
          var r := GroupRun(o.g, o.ok, o.failFast, s, group.nodes, Concurrency(group, o.limit));
          if r.error then OrchOutcome(r.statuses, [], InvalidTransition)
          else if o.failFast && SomeFailed(r.results) then
            OrchOutcome(r.statuses, [GroupTrace(names[0], r.results)], NoError)
          else
            var rest := RunGroups(o, r.statuses, names[1..], completed + {names[0]});
            rest.(trace := [GroupTrace(names[0], r.results)] + rest.trace)
  }

  ghost function AllResults(trace: seq<GroupTrace>): seq<NodeResult> {
    if trace == [] then [] else trace[0].results + AllResults(trace[1..])
  }

  // ----- the methods -----

  method ExecuteGroup(tracker: ExecutionTracker, ids: seq<Id>, c: nat, agent: Agent, failFast: bool)
    returns (r: Option<seq<NodeResult>>)
    requires tracker.Valid()
    modifies tracker`nodes
    ensures tracker.Valid()
    ensures var d := GroupRun(tracker.graph, agent.succeeds, failFast, old(tracker.Statuses()), ids, c);
            && tracker.Statuses() == d.statuses
            && r == if d.error then None else Some(d.results)
  {
    if c <= 1 {
      r := ExecuteSequential(tracker, ids, agent, failFast);
    } else {
      r := ExecuteChunks(tracker, StillActive(tracker.Statuses(), ids), c, agent, failFast);
    }
  }

  /** A group run resumed after `results`: what is left ends as the whole does. */
  ghost predicate Continues(whole: GroupOutcome, results: seq<NodeResult>, rest: GroupOutcome) {
    whole == Prepend(results, rest)
  }

  lemma ContinuesStep(whole: GroupOutcome, a: seq<NodeResult>, b: seq<NodeResult>, rest: GroupOutcome)
    requires Continues(whole, a, Prepend(b, rest))
    ensures Continues(whole, a + b, rest)
  {
    assert a + b + rest.results == a + (b + rest.results);
  }

  method ExecuteSequential(tracker: ExecutionTracker, ids: seq<Id>, agent: Agent, failFast: bool)
    returns (r: Option<seq<NodeResult>>)
    requires tracker.Valid()
    modifies tracker`nodes
    ensures tracker.Valid()
    ensures var d := SequentialGroup(tracker.graph, agent.succeeds, failFast, old(tracker.Statuses()), ids);
            && tracker.Statuses() == d.statuses
            && r == if d.error then None else Some(d.results)
  {
    ghost var g, ok := tracker.graph, agent.succeeds;
    ghost var whole := SequentialGroup(g, ok, failFast, tracker.Statuses(), ids);
    var results: seq<NodeResult> := [];
    for i := 0 to |ids|
      invariant tracker.Valid()
      invariant Continues(whole, results, SequentialGroup(g, ok, failFast, tracker.Statuses(), ids[i..]))
    {
      var x := ids[i];
      ghost var s := tracker.Statuses();
      assert ids[i..][0] == x && ids[i..][1..] == ids[i + 1..];
      if x in tracker.nodes && SkipInGroup(tracker.nodes[x].status) {
        continue;
      }
      if x !in tracker.graph {
        continue;
      }
      SingletonDispatch(g, ok, s, x);
      var result := ExecuteMember(tracker, x, agent);
      if result.None? {
        return None;
      }
      if result.value.status.Failed? && failFast {
        return Some(results + [result.value]);
      }
      ContinuesStep(whole, results, [result.value], SequentialGroup(g, ok, failFast, tracker.Statuses(), ids[i + 1..]));
      results := results + [result.value];
    }
    assert ids[|ids|..] == [] && results + [] == results;
    return Some(results);
  }

  /** A sequential group promotes a Pending member itself before executing it. */
  method ExecuteMember(tracker: ExecutionTracker, x: Id, agent: Agent) returns (r: Option<NodeResult>)
    requires tracker.Valid() && x in tracker.nodes
    modifies tracker`nodes
    ensures tracker.Valid()
    ensures var d := Dispatch(tracker.graph, agent.succeeds, old(tracker.Statuses()), [x]);
            && tracker.Statuses() == d.statuses
            && r == if d.error then None else Some(d.results[0])
  {
    ghost var s := tracker.Statuses();
    if tracker.nodes[x].status.Pending? {
      PromotedDispatch(tracker.graph, agent.succeeds, s, x);
      var promoted := tracker.Transition(x, Ready);
      assert tracker.Statuses() == s[x := Ready];
    }
    r := ExecuteNode(tracker, x, agent);
  }

  /** Promoting a Pending node first makes no difference to its dispatch. */
  lemma PromotedDispatch(g: Graph, ok: set<Id>, s: StatusMap, x: Id)
    requires x in s && s[x].Pending?
    ensures Dispatch(g, ok, s[x := Ready], [x]) ==
            if x in g then Dispatch(g, ok, s, [x]) else Dispatched(s[x := Ready], [], true)
  {
    SingletonDispatch(g, ok, s, x);
    SingletonDispatch(g, ok, s[x := Ready], x);
    assert s[x := Ready][x := InProgress] == s[x := InProgress];
  }

  method ExecuteChunks(tracker: ExecutionTracker, ids: seq<Id>, c: nat, agent: Agent, failFast: bool)
    returns (r: Option<seq<NodeResult>>)
    requires tracker.Valid() && c > 0
    modifies tracker`nodes
    ensures tracker.Valid()
    ensures var d := ParallelChunks(tracker.graph, agent.succeeds, failFast, old(tracker.Statuses()), ids, c);
            && tracker.Statuses() == d.statuses
            && r == if d.error then None else Some(d.results)
  {
    ghost var g, ok := tracker.graph, agent.succeeds;
    ghost var whole := ParallelChunks(g, ok, failFast, tracker.Statuses(), ids, c);
    var results: seq<NodeResult> := [];
    var rest := ids;
    while rest != []
      invariant tracker.Valid()
      invariant Continues(whole, results, ParallelChunks(g, ok, failFast, tracker.Statuses(), rest, c))
      decreases |rest|
    {
      var batchResults := DispatchParallel(tracker, Head(rest, c), agent);
      if batchResults.None? {
        return None;
      }
      FailedIn(ok, Head(rest, c));
      var failed := AnyFailed(batchResults.value);
      if failed && failFast {
        return Some(results + batchResults.value);
      }
      ContinuesStep(whole, results, batchResults.value,
                    ParallelChunks(g, ok, failFast, tracker.Statuses(), Tail(rest, c), c));
      results := results + batchResults.value;
      rest := Tail(rest, c);
    }
    assert results + [] == results;
    return Some(results);
  }

  datatype OrchResult = Finished(report: RunReport) | NoGroups | Unordered(why: OrderResult) | Aborted(error: OrchError)

  function DryRunGroups(groups: seq<Group>, order: seq<string>): seq<NodeResult>
    requires Elems(order) <= Names(groups)
  {
    if order == [] then []
    else
      assert order == [order[0]] + order[1..];
      assert order[0] in Elems(order);
      var nodes := GroupNamed(groups, order[0]).nodes;
      seq(|nodes|, i requires 0 <= i < |nodes| => NodeResult(nodes[i], Pending)) + DryRunGroups(groups, order[1..])
  }

  method RunOrchestrated(tracker: ExecutionTracker, groups: Option<seq<Group>>, hashOrder: seq<string>,
                         agent: Agent, config: RunConfig) returns (r: OrchResult)
    requires tracker.Valid()
    requires groups.Some? ==> NoDup(hashOrder) && Elems(hashOrder) == Names(groups.value)
    modifies tracker`nodes
    ensures tracker.Valid()
    ensures groups.None? ==> r == NoGroups
    ensures groups.Some? && !Resolvable(groups.value) ==> r.Unordered?
    ensures r.NoGroups? || r.Unordered? || config.dryRun ==> tracker.nodes == old(tracker.nodes)
    ensures groups.Some? && Resolvable(groups.value) ==>
      && IsTopologicalOrder(GroupGraph(groups.value), GroupOrder(groups.value))
      && if config.dryRun then
           var rs := DryRunGroups(groups.value, GroupOrder(groups.value));
           r == Finished(RunReport(|rs|, 0, 0, 0, |rs|, 0, rs))
         else
           var o := Setting(tracker.graph, agent.succeeds, groups.value, config.targetGroup,
                            config.maxConcurrency, config.failFast);
           var out := RunGroups(o, old(tracker.Statuses()), GroupOrder(groups.value), {});
           && tracker.Statuses() == out.statuses
           && (out.error != NoError ==> r == Aborted(out.error))
           && (out.error == NoError ==> r.Finished? && ReportOf(out.statuses, AllResults(out.trace), r.report))
  {
    if groups.None? {
      return NoGroups;
    }
    var resolved := ResolveGroupOrder(groups.value, hashOrder);
    if !resolved.Ordered? {
      return Unordered(resolved);
    }
    if config.dryRun {
      var rs := DryRunGroups(groups.value, resolved.order);
      return Finished(RunReport(|rs|, 0, 0, 0, |rs|, 0, rs));
    }
    ghost var o := Setting(tracker.graph, agent.succeeds, groups.value, config.targetGroup,
                           config.maxConcurrency, config.failFast);
    var error, results := GroupLoop(tracker, groups.value, resolved.order, agent, config);
    if error != NoError {
      return Aborted(error);
    }
    var report := BuildReport(tracker, results);
    return Finished(report);
  }

  /** Does the run get to execute the first of these groups? */
  ghost predicate Executes(o: Setting, s: StatusMap, names: seq<string>, completed: set<string>)
    requires Elems(names) <= Names(o.groups)
  {
    && names != [] && (o.target.None? || names[0] == o.target.value)
    && names[0] in Elems(names)
    && var group := GroupNamed(o.groups, names[0]);
       && FirstMissing(group.prerequisites, completed).None?
       && !GroupRun(o.g, o.ok, o.failFast, s, group.nodes, Concurrency(group, o.limit)).error
  }

  ghost function FirstRun(o: Setting, s: StatusMap, names: seq<string>): GroupOutcome
    requires Elems(names) <= Names(o.groups) && names != []
  {
    assert names[0] in Elems(names);
    var group := GroupNamed(o.groups, names[0]);
    GroupRun(o.g, o.ok, o.failFast, s, group.nodes, Concurrency(group, o.limit))
  }

  /** The run after its first group. */
  ghost function NextGroups(o: Setting, s: StatusMap, names: seq<string>, completed: set<string>): OrchOutcome
    requires Elems(names) <= Names(o.groups) && names != []
  {
    assert names == [names[0]] + names[1..];
    var r := FirstRun(o, s, names);
    if o.failFast && SomeFailed(r.results) then OrchOutcome(r.statuses, [], NoError)
    else RunGroups(o, r.statuses, names[1..], completed + {names[0]})
  }

  lemma GroupTurn(o: Setting, s: StatusMap, names: seq<string>, completed: set<string>)
    requires Elems(names) <= Names(o.groups) && Executes(o, s, names, completed)
    ensures var next := NextGroups(o, s, names, completed);
            RunGroups(o, s, names, completed) ==
            next.(trace := [GroupTrace(names[0], FirstRun(o, s, names).results)] + next.trace)
  {
    var t := GroupTrace(names[0], FirstRun(o, s, names).results);
    assert [t] + [] == [t];
  }

  ghost predicate OrchContinues(whole: OrchOutcome, done: seq<NodeResult>, rest: OrchOutcome) {
    && whole.statuses == rest.statuses && whole.error == rest.error
    && AllResults(whole.trace) == done + AllResults(rest.trace)
  }

  lemma OrchContinuesStep(whole: OrchOutcome, done: seq<NodeResult>, t: GroupTrace, rest: OrchOutcome)
    requires OrchContinues(whole, done, rest.(trace := [t] + rest.trace))
    ensures OrchContinues(whole, done + t.results, rest)
  {
    assert ([t] + rest.trace)[1..] == rest.trace;
    assert done + t.results + AllResults(rest.trace) == done + (t.results + AllResults(rest.trace));
  }

  method GroupLoop(tracker: ExecutionTracker, groups: seq<Group>, order: seq<string>, agent: Agent, config: RunConfig)
    returns (error: OrchError, allResults: seq<NodeResult>)
    requires tracker.Valid() && Elems(order) <= Names(groups)
    modifies tracker`nodes
    ensures tracker.Valid()
    ensures var o := Setting(tracker.graph, agent.succeeds, groups, config.targetGroup,
                             config.maxConcurrency, config.failFast);
            var out := RunGroups(o, old(tracker.Statuses()), order, {});
            && tracker.Statuses() == out.statuses && error == out.error
            && (error == NoError ==> allResults == AllResults(out.trace))
  {
    ghost var o := Setting(tracker.graph, agent.succeeds, groups, config.targetGroup,
                           config.maxConcurrency, config.failFast);
    ghost var whole := RunGroups(o, tracker.Statuses(), order, {});
    var completed: set<string> := {};
    allResults := [];
    for i := 0 to |order|
      invariant tracker.Valid()
      invariant Elems(order[i..]) <= Names(groups)
      invariant OrchContinues(whole, allResults, RunGroups(o, tracker.Statuses(), order[i..], completed))
    {
      var name := order[i];
      ghost var s := tracker.Statuses();
      assert order[i..] == [name] + order[i + 1..] && name in Elems(order[i..]);
      assert order[i..][1..] == order[i + 1..];
      if config.targetGroup.Some? && name != config.targetGroup.value {
        continue;
      }
      var group := GroupNamed(groups, name);
      var missing := FirstMissing(group.prerequisites, completed);
      if missing.Some? {
        return GateClosed(name, missing.value), allResults;
      }
      var results := ExecuteGroup(tracker, group.nodes, Concurrency(group, config.maxConcurrency),
                                   agent, config.failFast);
      if results.None? {
        return InvalidTransition, allResults;
      }
      var failed := AnyFailed(results.value);
      GroupTurn(o, s, order[i..], completed);
      OrchContinuesStep(whole, allResults, GroupTrace(name, results.value), NextGroups(o, s, order[i..], completed));
      allResults := allResults + results.value;
      if failed && config.failFast {
        return NoError, allResults;
      }
      completed := completed + {name};
    }
    return NoError, allResults;
  }
}
