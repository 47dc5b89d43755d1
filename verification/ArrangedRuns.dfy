/** Whole orchestrated runs against `depends`: exactly when they respect it and never abort,
    whatever the outcomes. */
module ArrangedRuns {
  import opened Ordering
  import opened Reachability
  import opened Lifecycle
  import opened Tracker
  import opened Scheduler
  import opened RunTheorems
  import opened Targets
  import opened Groups
  import opened Orchestration
  import opened GroupTheorems
  import opened Arrangement

  // ----- chunk by chunk -----

  /** The turn of the first chunk. */
  lemma ChunkTurn(g: Graph, ok: set<Id>, failFast: bool, u: StatusMap, ids: seq<Id>, c: nat)
    requires Closed(g) && u.Keys == g.Keys && c > 0 && ids != []
    ensures var batch := Head(ids, c);
            var t := After(g, ok, u, Elems(batch));
            var r := ParallelChunks(g, ok, failFast, u, ids, c);
            && t.Keys == g.Keys
            && if !Dispatchable(g, u, batch) then r.error && r.results == []
               else if failFast && !(Elems(batch) <= ok) then r == GroupOutcome(t, Results(ok, batch), false)
               else r == Prepend(Results(ok, batch), ParallelChunks(g, ok, failFast, t, Tail(ids, c), c))
  {
    DispatchExact(g, ok, u, Head(ids, c));
  }

  lemma ReadyEligible(g: Graph, u: StatusMap, batch: seq<Id>)
    requires u.Keys == g.Keys && Dispatchable(g, u, batch) && forall x :: x in batch ==> DepsDone(g, u, x)
    ensures Elems(batch) <= Eligible(g, u)
  {
    forall x | x in Elems(batch) ensures x in Eligible(g, u) {
      assert CanBegin(g, u, x);
    }
  }

  // ----- the safety invariant through groups that are ready -----

  lemma {:induction false} SequentialKeepsSafe(g: Graph, ok: set<Id>, failFast: bool, u: StatusMap, ids: seq<Id>)
    requires Safe(g, u) && SequentialReady(g, ok, failFast, u, ids) && !SequentialGroup(g, ok, failFast, u, ids).error
    ensures Safe(g, SequentialGroup(g, ok, failFast, u, ids).statuses)
    decreases |ids|
  {
    if ids != [] {
      if CanBegin(g, u, ids[0]) {
        SequentialStep(g, ok, failFast, u, ids);
        assert {ids[0]} <= Eligible(g, u);
        AfterSafe(g, ok, u, {ids[0]});
        if !(failFast && ids[0] !in ok) {
          SequentialKeepsSafe(g, ok, failFast, After(g, ok, u, {ids[0]}), ids[1..]);
        }
      } else {
        SequentialPass(g, ok, failFast, u, ids);
        SequentialKeepsSafe(g, ok, failFast, u, ids[1..]);
      }
    }
  }

  lemma {:induction false} ChunksKeepSafe(g: Graph, ok: set<Id>, failFast: bool, u: StatusMap, ids: seq<Id>, c: nat)
    requires Safe(g, u) && c > 0 && ChunksReady(g, ok, failFast, u, ids, c)
    requires !ParallelChunks(g, ok, failFast, u, ids, c).error
    ensures Safe(g, ParallelChunks(g, ok, failFast, u, ids, c).statuses)
    decreases |ids|
  {
    if ids != [] {
      var batch := Head(ids, c);
      ChunkTurn(g, ok, failFast, u, ids, c);
      ReadyEligible(g, u, batch);
      AfterSafe(g, ok, u, Elems(batch));
      if !(failFast && !(Elems(batch) <= ok)) {
        ChunksKeepSafe(g, ok, failFast, After(g, ok, u, Elems(batch)), Tail(ids, c), c);
      }
    }
  }

  lemma GroupKeepsSafe(g: Graph, ok: set<Id>, failFast: bool, u: StatusMap, ids: seq<Id>, c: nat)
    requires Safe(g, u) && GroupReady(g, ok, failFast, u, ids, c) && !GroupRun(g, ok, failFast, u, ids, c).error
    ensures Safe(g, GroupRun(g, ok, failFast, u, ids, c).statuses)
  {
    if c <= 1 { SequentialKeepsSafe(g, ok, failFast, u, ids); }
    else { ChunksKeepSafe(g, ok, failFast, u, StillActive(u, ids), c); }
  }

  // ----- results in dependency order -----

  lemma {:induction false} SequentialOrder(g: Graph, ok: set<Id>, failFast: bool, u: StatusMap, ids: seq<Id>)
    requires Safe(g, u) && SequentialReady(g, ok, failFast, u, ids)
    ensures DependencyOrder(g, u, SequentialGroup(g, ok, failFast, u, ids).results)
    decreases |ids|
  {
    if ids != [] {
      if CanBegin(g, u, ids[0]) {
        var t := After(g, ok, u, {ids[0]});
        var rest := SequentialGroup(g, ok, failFast, t, ids[1..]);
        SequentialStep(g, ok, failFast, u, ids);
        assert {ids[0]} <= Eligible(g, u);
        AfterSafe(g, ok, u, {ids[0]});
        OrderCons(g, ok, u, ids[0], []);
        assert [NodeResult(ids[0], Verdict(ok, ids[0]))] + [] == [NodeResult(ids[0], Verdict(ok, ids[0]))];
        if !(failFast && ids[0] !in ok) {
          SequentialOrder(g, ok, failFast, t, ids[1..]);
          OrderCons(g, ok, u, ids[0], rest.results);
          ErrorLosesResults(g, ok, failFast, t, ids[1..]);
        }
      } else {
        SequentialPass(g, ok, failFast, u, ids);
        if !Stale(u, ids[0]) { SequentialOrder(g, ok, failFast, u, ids[1..]); }
      }
    }
  }

  lemma {:induction false} ErrorLosesResults(g: Graph, ok: set<Id>, failFast: bool, u: StatusMap, ids: seq<Id>)
    ensures SequentialGroup(g, ok, failFast, u, ids).error ==> SequentialGroup(g, ok, failFast, u, ids).results == []
    decreases |ids|
  {
    if ids != [] {
      ErrorLosesResults(g, ok, failFast, u, ids[1..]);
      ErrorLosesResults(g, ok, failFast, Dispatch(g, ok, u, [ids[0]]).statuses, ids[1..]);
    }
  }

  lemma {:induction false} ChunksOrder(g: Graph, ok: set<Id>, failFast: bool, u: StatusMap, ids: seq<Id>, c: nat)
    requires Safe(g, u) && c > 0 && ChunksReady(g, ok, failFast, u, ids, c)
    ensures DependencyOrder(g, u, ParallelChunks(g, ok, failFast, u, ids, c).results)
    ensures ParallelChunks(g, ok, failFast, u, ids, c).error ==>
            ParallelChunks(g, ok, failFast, u, ids, c).results == []
    decreases |ids|
  {
    if ids != [] {
      var batch := Head(ids, c);
      var t := After(g, ok, u, Elems(batch));
      ChunkTurn(g, ok, failFast, u, ids, c);
      if Dispatchable(g, u, batch) {
        ReadyEligible(g, u, batch);
        AfterSafe(g, ok, u, Elems(batch));
        OrderedBatch(Unplanned(g, ok), u, batch, []);
        assert Results(ok, batch) + [] == Results(ok, batch);
        if !(failFast && !(Elems(batch) <= ok)) {
          ChunksOrder(g, ok, failFast, t, Tail(ids, c), c);
          OrderedBatch(Unplanned(g, ok), u, batch, ParallelChunks(g, ok, failFast, t, Tail(ids, c), c).results);
        }
      }
    }
  }

  lemma GroupOrderly(g: Graph, ok: set<Id>, failFast: bool, u: StatusMap, ids: seq<Id>, c: nat)
    requires Safe(g, u) && GroupReady(g, ok, failFast, u, ids, c)
    ensures DependencyOrder(g, u, GroupRun(g, ok, failFast, u, ids, c).results)
  {
    if c <= 1 { SequentialOrder(g, ok, failFast, u, ids); }
    else { ChunksOrder(g, ok, failFast, u, StillActive(u, ids), c); }
  }

  lemma OrderAppend(g: Graph, s: StatusMap, t: StatusMap, a: seq<NodeResult>, b: seq<NodeResult>)
    requires DependencyOrder(g, s, a) && DependencyOrder(g, t, b)
    requires forall d :: d in t && Done(t[d]) ==> (d in s && Done(s[d])) || NodeResult(d, Completed) in a
    ensures DependencyOrder(g, s, a + b)
  {
    var all := a + b;
    forall i, d | 0 <= i < |all| && all[i].id in g && d in g[all[i].id] ensures DoneBefore(s, all, i, d) {
      if i < |a| {
        assert all[i] == a[i] && all[..i] == a[..i] && DoneBefore(s, a, i, d);
      } else {
        var k := i - |a|;
        assert all[i] == b[k] && all[..i] == a + b[..k] && DoneBefore(t, b, k, d);
      }
    }
  }

  lemma OnceDone(p: Plan, s: StatusMap, out: RunOutcome, d: Id)
    requires OneDispatch(p, s, out) && d in out.statuses && Done(out.statuses[d])
    ensures (d in s && Done(s[d])) || NodeResult(d, Completed) in out.results
  {
    var ids := ResultIds(out.results);
    if d in Elems(ids) {
      var i :| 0 <= i < |ids| && ids[i] == d;
      assert out.results[i] == NodeResult(d, Verdict(p.ok, d));
    }
  }

  // ----- whole runs -----

  /** In this orchestrated run no node is dispatched before its dependencies are done. */
  ghost predicate RunReady(o: Setting, u: StatusMap, names: seq<string>, completed: set<string>)
    requires Elems(names) <= Names(o.groups)
    decreases |names|
  {
    names == [] ||
    (assert names == [names[0]] + names[1..];
     if o.target.Some? && names[0] != o.target.value then RunReady(o, u, names[1..], completed)
     else
       assert names[0] in Elems(names);
       var group := GroupNamed(o.groups, names[0]);
       var c := Concurrency(group, o.limit);
       var r := GroupRun(o.g, o.ok, o.failFast, u, group.nodes, c);
       FirstMissing(group.prerequisites, completed).Some? ||
       (&& GroupReady(o.g, o.ok, o.failFast, u, group.nodes, c)
        && (r.error || (o.failFast && SomeFailed(r.results))
            || RunReady(o, r.statuses, names[1..], completed + {names[0]}))))
  }

  ghost predicate RunFine(o: Setting, u: StatusMap, names: seq<string>, completed: set<string>)
    requires Elems(names) <= Names(o.groups)
  {
    RunReady(o, u, names, completed) && RunGroups(o, u, names, completed).error != InvalidTransition
  }

  /** One group of a run whose earlier groups have listed `done`. A sequential group has no stale
      member and lists every active member behind its active dependencies. A parallel one repeats
      no active member, and has the dependencies of its members in earlier groups, or with
      fail-fast in earlier chunks. */
  ghost predicate GroupSound(g: Graph, failFast: bool, s: StatusMap, done: set<Id>, ids: seq<Id>, c: nat) {
    if c <= 1 then (forall x :: x in ids ==> !Stale(s, x)) && SequentialArranged(g, s, done, ids)
    else
      var l := Keep(ids, ActiveIds(s) - done);
      && NoDup(l)
      && if failFast then ChunksArranged(g, s, done, l, c) else forall x :: x in l ==> DepsArranged(g, s, done, x)
  }

  ghost predicate RunSound(o: Setting, s: StatusMap, done: set<Id>, names: seq<string>, completed: set<string>)
    requires Elems(names) <= Names(o.groups)
    decreases |names|
  {
    names == [] ||
    (assert names == [names[0]] + names[1..];
     if o.target.Some? && names[0] != o.target.value then RunSound(o, s, done, names[1..], completed)
     else
       assert names[0] in Elems(names);
       var group := GroupNamed(o.groups, names[0]);
       FirstMissing(group.prerequisites, completed).Some? ||
       (&& GroupSound(o.g, o.failFast, s, done, group.nodes, Concurrency(group, o.limit))
        && RunSound(o, s, done + Elems(group.nodes) * ActiveIds(s), names[1..], completed + {names[0]})))
  }

  /** The results of such a run follow the dependencies. */
  lemma {:induction false} RunReadyOrder(o: Setting, u: StatusMap, names: seq<string>, completed: set<string>)
    requires Safe(o.g, u) && Elems(names) <= Names(o.groups) && RunReady(o, u, names, completed)
    ensures DependencyOrder(o.g, u, AllResults(RunGroups(o, u, names, completed).trace))
    decreases |names|
  {
    if names != [] {
      assert names == [names[0]] + names[1..];
      assert names[0] in Elems(names);
      if o.target.Some? && names[0] != o.target.value {
        RunReadyOrder(o, u, names[1..], completed);
      } else if Executes(o, u, names, completed) {
        var group := GroupNamed(o.groups, names[0]);
        var c := Concurrency(group, o.limit);
        var r := FirstRun(o, u, names);
        GroupTurn(o, u, names, completed);
        GroupOrderly(o.g, o.ok, o.failFast, u, group.nodes, c);
        GroupKeepsSafe(o.g, o.ok, o.failFast, u, group.nodes, c);
        var next := NextGroups(o, u, names, completed);
        if !(o.failFast && SomeFailed(r.results)) {
          RunReadyOrder(o, r.statuses, names[1..], completed + {names[0]});
        }
        OrderGroups(o, u, group.nodes, c, AllResults(next.trace));
        AllResultsCons(GroupTrace(names[0], r.results), next.trace);
      }
    }
  }

  lemma OrderGroups(o: Setting, u: StatusMap, ids: seq<Id>, c: nat, rest: seq<NodeResult>)
    requires Closed(o.g) && u.Keys == o.g.Keys
    requires var r := GroupRun(o.g, o.ok, o.failFast, u, ids, c);
             !r.error && DependencyOrder(o.g, u, r.results) && DependencyOrder(o.g, r.statuses, rest)
    ensures DependencyOrder(o.g, u, GroupRun(o.g, o.ok, o.failFast, u, ids, c).results + rest)
  {
    var r := GroupRun(o.g, o.ok, o.failFast, u, ids, c);
    GroupRunOnce(o.g, o.ok, o.failFast, u, ids, c);
    forall d | d in r.statuses && Done(r.statuses[d])
      ensures (d in u && Done(u[d])) || NodeResult(d, Completed) in r.results
    {
      OnceDone(Unplanned(o.g, o.ok), u, RunOutcome(r.statuses, r.results), d);
    }
    OrderAppend(o.g, u, r.statuses, r.results, rest);
  }

  // ----- where a group leaves off -----

  /** A group that was not cut short has used up its members, and with no failure only them. */
  ghost predicate LeavesOff(g: Graph, s: StatusMap, u: StatusMap, ids: set<Id>, r: GroupOutcome) {
    && Progressed(g, s, r.statuses) && Spent(r.statuses, ids)
    && ActiveIds(r.statuses) <= ActiveIds(u)
    && (!SomeFailed(r.results) ==> ActiveIds(u) - ids <= ActiveIds(r.statuses))
  }

  ghost predicate RanOut(failFast: bool, r: GroupOutcome) {
    !r.error && !(failFast && SomeFailed(r.results))
  }

  lemma PrependRanOut(failFast: bool, ok: set<Id>, batch: seq<Id>, rest: GroupOutcome)
    requires RanOut(failFast, Prepend(Results(ok, batch), rest))
    ensures RanOut(failFast, rest)
    ensures !SomeFailed(Prepend(Results(ok, batch), rest).results) ==> !SomeFailed(rest.results) && Elems(batch) <= ok
  {
    var r := Results(ok, batch) + rest.results;
    assert forall j :: 0 <= j < |rest.results| ==> r[|batch| + j] == rest.results[j];
    assert forall j :: 0 <= j < |batch| ==> r[j] == NodeResult(batch[j], Verdict(ok, batch[j]));
    if !SomeFailed(r) {
      forall x | x in Elems(batch) ensures x in ok {
        var j :| 0 <= j < |batch| && batch[j] == x;
        assert !r[j].status.Failed?;
      }
    }
  }

  lemma OneResult(ok: set<Id>, x: Id)
    ensures Results(ok, [x]) == [NodeResult(x, Verdict(ok, x))]
    ensures Elems([x]) == {x}
  {
  }

  lemma LeavesOffCons(g: Graph, ok: set<Id>, s: StatusMap, u: StatusMap, batch: set<Id>, rest: set<Id>,
                      a: GroupOutcome, r: GroupOutcome)
    requires batch <= ActiveIds(u) && Progressed(g, s, u)
    requires LeavesOff(g, s, After(g, ok, u, batch), rest, a) && r.statuses == a.statuses
    requires !SomeFailed(r.results) ==> !SomeFailed(a.results) && batch <= ok
    ensures LeavesOff(g, s, u, batch + rest, r)
  {
    var t := After(g, ok, u, batch);
    assert ActiveIds(t) <= ActiveIds(u) - batch;
    forall x | x in batch + rest && x in r.statuses ensures !Active(r.statuses[x]) {
      assert x in batch ==> x !in ActiveIds(t);
    }
    if batch <= ok {
      forall x | x in ActiveIds(u) - batch ensures x in ActiveIds(t) {
        assert !HitBy(g, ok, batch, x);
      }
    }
  }

  lemma LeavesOffNone(g: Graph, s: StatusMap, u: StatusMap)
    requires Progressed(g, s, u)
    ensures LeavesOff(g, s, u, {}, GroupOutcome(u, [], false))
  {
  }

  lemma {:induction false} SequentialLeavesOff(g: Graph, ok: set<Id>, failFast: bool, s: StatusMap, u: StatusMap,
                                               ids: seq<Id>)
    requires Closed(g) && Progressed(g, s, u) && RanOut(failFast, SequentialGroup(g, ok, failFast, u, ids))
    ensures LeavesOff(g, s, u, Elems(ids), SequentialGroup(g, ok, failFast, u, ids))
    decreases |ids|
  {
    if ids == [] {
      LeavesOffNone(g, s, u);
    } else {
      var x, r := ids[0], SequentialGroup(g, ok, failFast, u, ids);
      assert ids == [x] + ids[1..];
      assert Elems(ids) == {x} + Elems(ids[1..]);
      if CanBegin(g, u, x) {
        var t := After(g, ok, u, {x});
        var rest := SequentialGroup(g, ok, failFast, t, ids[1..]);
        SequentialStep(g, ok, failFast, u, ids);
        OneResult(ok, x);
        ProgressedAfter(g, ok, s, u, {x});
        OneFailure(x);
        PrependRanOut(failFast, ok, [x], rest);
        SequentialLeavesOff(g, ok, failFast, s, t, ids[1..]);
        LeavesOffCons(g, ok, s, u, {x}, Elems(ids[1..]), rest, r);
      } else {
        SequentialPass(g, ok, failFast, u, ids);
        SequentialLeavesOff(g, ok, failFast, s, u, ids[1..]);
        assert x in ActiveIds(r.statuses) ==> x in ActiveIds(u);
      }
    }
  }

  lemma OneFailure(x: Id)
    ensures SomeFailed([NodeResult(x, Failed)])
  {
    assert [NodeResult(x, Failed)][0].status.Failed?;
  }

  lemma {:induction false} ChunksLeaveOff(g: Graph, ok: set<Id>, failFast: bool, s: StatusMap, u: StatusMap,
                                          ids: seq<Id>, c: nat)
    requires Closed(g) && Progressed(g, s, u) && c > 0 && RanOut(failFast, ParallelChunks(g, ok, failFast, u, ids, c))
    ensures LeavesOff(g, s, u, Elems(ids), ParallelChunks(g, ok, failFast, u, ids, c))
    decreases |ids|
  {
    if ids == [] {
      LeavesOffNone(g, s, u);
    } else {
      var batch, r := Head(ids, c), ParallelChunks(g, ok, failFast, u, ids, c);
      var t := After(g, ok, u, Elems(batch));
      var rest := ParallelChunks(g, ok, failFast, t, Tail(ids, c), c);
      HeadTail(ids, c);
      assert Elems(ids) == Elems(batch) + Elems(Tail(ids, c));
      ChunkTurn(g, ok, failFast, u, ids, c);
      DispatchableActive(g, u, batch);
      ProgressedAfter(g, ok, s, u, Elems(batch));
      FailedIn(ok, batch);
      PrependRanOut(failFast, ok, batch, rest);
      ChunksLeaveOff(g, ok, failFast, s, t, Tail(ids, c), c);
      LeavesOffCons(g, ok, s, u, Elems(batch), Elems(Tail(ids, c)), rest, r);
    }
  }

  lemma GroupLeavesOff(g: Graph, ok: set<Id>, failFast: bool, s: StatusMap, u: StatusMap, ids: seq<Id>, c: nat)
    requires Closed(g) && Progressed(g, s, u) && RanOut(failFast, GroupRun(g, ok, failFast, u, ids, c))
    ensures LeavesOff(g, s, u, Elems(ids) * ActiveIds(s), GroupRun(g, ok, failFast, u, ids, c))
  {
    var r := GroupRun(g, ok, failFast, u, ids, c);
    assert ActiveIds(u) <= ActiveIds(s) by {
      forall x | x in ActiveIds(u) ensures x in ActiveIds(s) { assert Advanced(g, s, u, x); }
    }
    if c <= 1 {
      SequentialLeavesOff(g, ok, failFast, s, u, ids);
    } else {
      ChunksLeaveOff(g, ok, failFast, s, u, StillActive(u, ids), c);
      assert Elems(StillActive(u, ids)) == Elems(ids) * ActiveIds(u);
      forall x | x in Elems(ids) * ActiveIds(s) && x in r.statuses ensures !Active(r.statuses[x]) {
        assert x in ActiveIds(r.statuses) ==> x in ActiveIds(u);
      }
    }
  }
}
