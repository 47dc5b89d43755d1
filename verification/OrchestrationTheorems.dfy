/** What orchestrated runs guarantee, and the exact conditions under which they
    respect the dependencies of nodes and never hit an invalid transition. */
module OrchestrationTheorems {
  import opened Ordering
  import opened Reachability
  import opened Lifecycle
  import opened Groups
  import opened Orchestration

  // ----- the order of groups -----

  /** The gate is open exactly when every required group is completed, and otherwise names the
      first in the list that is not. */
  lemma {:induction false} FirstMissingExact(required: seq<string>, completed: set<string>)
    ensures FirstMissing(required, completed).None? <==> Elems(required) <= completed
    ensures FirstMissing(required, completed).Some? ==>
            exists j: nat :: FirstOutside(required, completed, j, FirstMissing(required, completed).value)
  {
    if required != [] {
      FirstMissingExact(required[1..], completed);
      assert required == [required[0]] + required[1..];
      assert required[0] in Elems(required);
      if required[0] !in completed {
        assert FirstOutside(required, completed, 0, required[0]);
      } else if FirstMissing(required, completed).Some? {
        var x := FirstMissing(required, completed).value;
        var j: nat :| FirstOutside(required[1..], completed, j, x);
        FirstOutsideCons(required, completed, j, x);
      }
    }
  }

  lemma FirstOutsideCons(xs: seq<string>, names: set<string>, j: nat, x: string)
    requires xs != [] && xs[0] in names && FirstOutside(xs[1..], names, j, x)
    ensures FirstOutside(xs, names, j + 1, x)
  {
    forall k | 0 <= k < j + 1 ensures xs[k] in names {
      if k > 0 { assert xs[1..][k - 1] == xs[k]; }
    }
  }

  /** In an unrestricted run the requires gate is open at every group's turn. */
  lemma GateOpen(o: Setting, order: seq<string>, i: nat)
    requires IsTopologicalOrder(GroupGraph(o.groups), order) && i < |order|
    ensures order[i] in Names(o.groups)
    ensures FirstMissing(GroupNamed(o.groups, order[i]).prerequisites, Elems(order[..i])).None?
  {
    var name := order[i];
    assert name in Elems(order) && DepsBefore(GroupGraph(o.groups), order, i);
    var group := GroupNamed(o.groups, name);
    assert Elems(group.prerequisites) <= RequiredBy(o.groups, name);
    FirstMissingExact(group.prerequisites, Elems(order[..i]));
  }

  /** The trace is an initial part of the order, and with fail-fast only its last group may
      contain a failure. */
  ghost predicate TraceFollows(trace: seq<GroupTrace>, order: seq<string>, failFast: bool) {
    && |trace| <= |order|
    && (forall k :: 0 <= k < |trace| ==> trace[k].name == order[k])
    && (failFast ==> forall k :: 0 <= k < |trace| - 1 ==> !SomeFailed(trace[k].results))
  }

  lemma TraceCons(t: GroupTrace, rest: seq<GroupTrace>, names: seq<string>, failFast: bool)
    requires names != [] && t.name == names[0] && TraceFollows(rest, names[1..], failFast)
    requires failFast && SomeFailed(t.results) ==> rest == []
    ensures TraceFollows([t] + rest, names, failFast)
  {
    var all := [t] + rest;
    forall k | 0 <= k < |all| ensures all[k].name == names[k] {
      if k > 0 { assert all[k] == rest[k - 1] && names[1..][k - 1] == names[k]; }
    }
    if failFast {
      forall k | 0 <= k < |all| - 1 ensures !SomeFailed(all[k].results) {
        if k > 0 { assert all[k] == rest[k - 1]; }
      }
    }
  }

  lemma OrderTurn(order: seq<string>, i: nat)
    requires i < |order|
    ensures order[i..] == [order[i]] + order[i + 1..] && order[i..][0] == order[i] && order[i..][1..] == order[i + 1..]
    ensures Elems(order[..i + 1]) == Elems(order[..i]) + {order[i]} && order[i] in Elems(order[i..])
  {
    assert order[..i + 1] == order[..i] + [order[i]];
  }

  lemma {:induction false} GroupsInOrderFrom(o: Setting, s: StatusMap, order: seq<string>, i: nat)
    requires IsTopologicalOrder(GroupGraph(o.groups), order) && o.target.None? && i <= |order|
    requires Elems(order[i..]) <= Names(o.groups)
    ensures var out := RunGroups(o, s, order[i..], Elems(order[..i]));
            !out.error.GateClosed? && TraceFollows(out.trace, order[i..], o.failFast)
    decreases |order| - i
  {
    if i < |order| {
      var names, completed := order[i..], Elems(order[..i]);
      GateOpen(o, order, i);
      OrderTurn(order, i);
      var r := FirstRun(o, s, names);
      if !r.error {
        var next := NextGroups(o, s, names, completed);
        GroupTurn(o, s, names, completed);
        if !(o.failFast && SomeFailed(r.results)) {
          GroupsInOrderFrom(o, r.statuses, order, i + 1);
        }
        TraceCons(GroupTrace(order[i], r.results), next.trace, names, o.failFast);
      }
    }
  }

  /** One group of a run, from one status map to the next. */
  ghost predicate Link(o: Setting, s: StatusMap, name: string, t: GroupTrace, u: StatusMap) {
    && name in Names(o.groups)
    && var r := StrategyRun(o, s, GroupNamed(o.groups, name));
       !r.error && t == GroupTrace(name, r.results) && u == r.statuses
  }

  /** The groups of the trace run one after the other, through the status maps `ss`. */
  ghost predicate Chain(o: Setting, ss: seq<StatusMap>, names: seq<string>, trace: seq<GroupTrace>) {
    && |ss| == |trace| + 1 && |trace| <= |names|
    && forall k :: 0 <= k < |trace| ==> Link(o, ss[k], names[k], trace[k], ss[k + 1])
  }

  /** A run ends with the last group, behind a failure with fail-fast, or in a group that aborts. */
  ghost predicate Ends(o: Setting, u: StatusMap, names: seq<string>, out: OrchOutcome) {
    var n := |out.trace|;
    if n >= |names| || (o.failFast && n > 0 && SomeFailed(out.trace[n - 1].results)) then
      out.error == NoError && out.statuses == u
    else
      && names[n] in Names(o.groups) && out.error == InvalidTransition
      && var r := StrategyRun(o, u, GroupNamed(o.groups, names[n]));
         r.error && out.statuses == r.statuses
  }

  lemma ChainCons(o: Setting, s: StatusMap, ss: seq<StatusMap>, names: seq<string>, t: GroupTrace, rest: OrchOutcome)
    requires names != [] && ss != [] && Link(o, s, names[0], t, ss[0]) && Chain(o, ss, names[1..], rest.trace)
    ensures Chain(o, [s] + ss, names, [t] + rest.trace)
  {
    var all := [t] + rest.trace;
    forall k | 0 <= k < |all| ensures Link(o, ([s] + ss)[k], names[k], all[k], ([s] + ss)[k + 1]) {
      if k > 0 { assert Link(o, ss[k - 1], names[1..][k - 1], rest.trace[k - 1], ss[k]); }
    }
  }

  lemma EndsCons(o: Setting, u: StatusMap, names: seq<string>, t: GroupTrace, rest: OrchOutcome)
    requires names != [] && !(o.failFast && SomeFailed(t.results)) && Ends(o, u, names[1..], rest)
    ensures Ends(o, u, names, rest.(trace := [t] + rest.trace))
  {
    var n := |rest.trace|;
    assert n > 0 ==> ([t] + rest.trace)[n] == rest.trace[n - 1];
    assert n + 1 < |names| ==> names[n + 1] == names[1..][n];
  }

  lemma {:induction false} GroupsChain(o: Setting, s: StatusMap, order: seq<string>, i: nat)
    returns (ss: seq<StatusMap>)
    requires IsTopologicalOrder(GroupGraph(o.groups), order) && o.target.None? && i <= |order|
    requires Elems(order[i..]) <= Names(o.groups)
    ensures var out := RunGroups(o, s, order[i..], Elems(order[..i]));
            Chain(o, ss, order[i..], out.trace) && ss[0] == s && Ends(o, ss[|ss| - 1], order[i..], out)
    decreases |order| - i
  {
    ss := [s];
    if i < |order| {
      var names, completed := order[i..], Elems(order[..i]);
      GateOpen(o, order, i);
      OrderTurn(order, i);
      var r, next := FirstRun(o, s, names), NextGroups(o, s, names, completed);
      StrategyRunExact(o, s, GroupNamed(o.groups, names[0]));
      if !r.error {
        var t := GroupTrace(order[i], r.results);
        GroupTurn(o, s, names, completed);
        var rest := [r.statuses];
        if !(o.failFast && SomeFailed(r.results)) {
          rest := GroupsChain(o, r.statuses, order, i + 1);
          EndsCons(o, rest[|rest| - 1], names, t, next);
        }
        ChainCons(o, s, rest, names, t, next);
        ss := [s] + rest;
      }
    }
  }

  /** In a run without a target group the gate never fails, every group starts after all the
      groups it requires have been run to their end, and with fail-fast none starts after a
      failure. Each group does what its strategy says to the state that the one before it left,
      and only an aborting group or a failure under fail-fast ends the run early. */
  lemma GroupsInOrder(o: Setting, s: StatusMap, order: seq<string>)
    requires IsTopologicalOrder(GroupGraph(o.groups), order) && o.target.None?
    ensures Elems(order) == Names(o.groups)
    ensures var out := RunGroups(o, s, order, {});
            && !out.error.GateClosed?
            && TraceFollows(out.trace, order, o.failFast)
            && (forall k :: 0 <= k < |out.trace| ==> DepsBefore(GroupGraph(o.groups), order, k))
            && exists ss :: Chain(o, ss, order, out.trace) && ss[0] == s && Ends(o, ss[|ss| - 1], order, out)
  {
    assert order[0..] == order && Elems(order[..0]) == {};
    GroupsInOrderFrom(o, s, order, 0);
    var ss := GroupsChain(o, s, order, 0);
  }

  lemma {:induction false} NotTargeted(o: Setting, s: StatusMap, names: seq<string>, completed: set<string>)
    requires Elems(names) <= Names(o.groups) && o.target.Some? && o.target.value !in names
    ensures RunGroups(o, s, names, completed) == OrchOutcome(s, [], NoError)
  {
    if names != [] {
      assert names == [names[0]] + names[1..];
      NotTargeted(o, s, names[1..], completed);
    }
  }

  /** The run of one target group: nothing happens for an unknown name, a group that requires
      another is refused before it starts, and any other group just runs. */
  lemma {:induction false} TargetGroupExact(o: Setting, s: StatusMap, names: seq<string>)
    requires Elems(names) <= Names(o.groups) && NoDup(names) && o.target.Some?
    ensures var t := o.target.value;
            var out := RunGroups(o, s, names, {});
            if t !in names then out == OrchOutcome(s, [], NoError)
            else
              assert t in Elems(names);
              var group := GroupNamed(o.groups, t);
              var r := StrategyRun(o, s, group);
              if group.prerequisites != [] then out == OrchOutcome(s, [], GateClosed(t, group.prerequisites[0]))
              else if r.error then out == OrchOutcome(r.statuses, [], InvalidTransition)
              else out == OrchOutcome(r.statuses, [GroupTrace(t, r.results)], NoError)
  {
    var t := o.target.value;
    if t !in names {
      NotTargeted(o, s, names, {});
    } else if names[0] != t {
      assert names == [names[0]] + names[1..];
      NoDupTail(names);
      TargetGroupExact(o, s, names[1..]);
    } else {
      assert names == [names[0]] + names[1..];
      assert t in Elems(names);
      var group := GroupNamed(o.groups, t);
      StrategyRunExact(o, s, group);
      if group.prerequisites == [] {
        var r := FirstRun(o, s, names);
        NoDupTail(names);
        NotTargeted(o, r.statuses, names[1..], {} + {t});
        assert [GroupTrace(t, r.results)] + [] == [GroupTrace(t, r.results)];
      }
    }
  }
}
