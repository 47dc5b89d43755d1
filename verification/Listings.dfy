/** The dry run of an orchestrated run against the run itself: exactly when the nodes that the
    listing names are the nodes that run, in the same order. */
module Listings {
  import opened Ordering
  import opened Reachability
  import opened Lifecycle
  import opened Scheduler
  import opened RunTheorems
  import opened Groups
  import opened Orchestration
  import opened OrchestrationTheorems
  import opened GroupTheorems
  import opened ArrangedRuns
  import opened AbortFreeRuns

  /** The nodes of the groups, group after group. */
  function Listing(groups: seq<Group>, order: seq<string>): seq<Id>
    requires Elems(order) <= Names(groups)
  {
    if order == [] then []
    else
      assert order == [order[0]] + order[1..];
      assert order[0] in Elems(order);
      GroupNamed(groups, order[0]).nodes + Listing(groups, order[1..])
  }

  /** The dry run names just these. */
  lemma {:induction false} DryRunLists(groups: seq<Group>, order: seq<string>)
    requires Elems(order) <= Names(groups)
    ensures ResultIds(DryRunGroups(groups, order)) == Listing(groups, order)
    ensures forall r :: r in DryRunGroups(groups, order) ==> r.status == Pending
  {
    if order != [] {
      assert order == [order[0]] + order[1..];
      assert order[0] in Elems(order);
      DryRunLists(groups, order[1..]);
      var nodes := GroupNamed(groups, order[0]).nodes;
      var head := seq(|nodes|, i requires 0 <= i < |nodes| => NodeResult(nodes[i], Pending));
      assert ResultIds(head) == nodes;
      IdsAppend(head, DryRunGroups(groups, order[1..]));
    }
  }

  lemma IdsAppend(a: seq<NodeResult>, b: seq<NodeResult>)
    ensures ResultIds(a + b) == ResultIds(a) + ResultIds(b)
  {
  }

  lemma IdsOfResults(ok: set<Id>, batch: seq<Id>)
    ensures ResultIds(Results(ok, batch)) == batch
  {
  }

  // ----- groups whose members all run -----

  /** The group ran every listed member, in list order, and all succeeded. */
  ghost predicate RanList(g: Graph, ok: set<Id>, u: StatusMap, ids: seq<Id>, r: GroupOutcome) {
    && !r.error && ResultIds(r.results) == ids && !SomeFailed(r.results)
    && r.statuses.Keys == g.Keys && ActiveIds(r.statuses) == ActiveIds(u) - Elems(ids)
  }

  lemma ListTurn(g: Graph, ok: set<Id>, u: StatusMap, batch: seq<Id>)
    requires u.Keys == g.Keys && NoDup(batch) && Elems(batch) <= ActiveIds(u) && g.Keys <= ok
    ensures Dispatchable(g, u, batch) && Elems(batch) <= ok
    ensures var t := After(g, ok, u, Elems(batch));
            t.Keys == g.Keys && ActiveIds(t) == ActiveIds(u) - Elems(batch)
  {
    var t := After(g, ok, u, Elems(batch));
    forall x | x in batch ensures CanBegin(g, u, x) {
      assert x in Elems(batch);
    }
    forall x | x in u ensures Active(t[x]) <==> Active(u[x]) && x !in Elems(batch) {
      assert !HitBy(g, ok, Elems(batch), x);
    }
    assert Elems(batch) <= g.Keys by {
      forall x | x in Elems(batch) ensures x in g { assert CanBegin(g, u, x); }
    }
  }

  lemma RanListCons(g: Graph, ok: set<Id>, u: StatusMap, t: StatusMap, batch: seq<Id>, ids: seq<Id>, rest: GroupOutcome)
    requires RanList(g, ok, t, ids, rest) && Elems(batch) <= ok && ActiveIds(t) == ActiveIds(u) - Elems(batch)
    ensures RanList(g, ok, u, batch + ids, Prepend(Results(ok, batch), rest))
  {
    var r := Prepend(Results(ok, batch), rest);
    IdsAppend(Results(ok, batch), rest.results);
    IdsOfResults(ok, batch);
    assert Elems(batch + ids) == Elems(batch) + Elems(ids);
    forall j | 0 <= j < |r.results| ensures !r.results[j].status.Failed? {
      if j < |batch| { assert batch[j] in Elems(batch); }
      else { assert r.results[j] == rest.results[j - |batch|]; }
    }
  }

  lemma {:induction false} SequentialRanList(g: Graph, ok: set<Id>, failFast: bool, u: StatusMap, ids: seq<Id>)
    requires Closed(g) && u.Keys == g.Keys && NoDup(ids) && Elems(ids) <= ActiveIds(u) && g.Keys <= ok
    ensures RanList(g, ok, u, ids, SequentialGroup(g, ok, failFast, u, ids))
    decreases |ids|
  {
    if ids != [] {
      var x, rest := ids[0], ids[1..];
      assert ids == [x] + rest;
      NoDupParts([x], rest);
      OneResult(ok, x);
      assert Elems(ids) == {x} + Elems(rest);
      ListTurn(g, ok, u, [x]);
      assert x in [x];
      SequentialStep(g, ok, failFast, u, ids);
      var t := After(g, ok, u, {x});
      SequentialRanList(g, ok, failFast, t, rest);
      RanListCons(g, ok, u, t, [x], rest, SequentialGroup(g, ok, failFast, t, rest));
    }
  }

  lemma {:induction false} ChunksRanList(g: Graph, ok: set<Id>, failFast: bool, u: StatusMap, ids: seq<Id>, c: nat)
    requires Closed(g) && u.Keys == g.Keys && NoDup(ids) && Elems(ids) <= ActiveIds(u) && g.Keys <= ok && c > 0
    ensures RanList(g, ok, u, ids, ParallelChunks(g, ok, failFast, u, ids, c))
    decreases |ids|
  {
    if ids != [] {
      var batch, rest := Head(ids, c), Tail(ids, c);
      HeadTail(ids, c);
      NoDupParts(batch, rest);
      assert Elems(ids) == Elems(batch) + Elems(rest);
      ListTurn(g, ok, u, batch);
      ChunkTurn(g, ok, failFast, u, ids, c);
      var t := After(g, ok, u, Elems(batch));
      ChunksRanList(g, ok, failFast, t, rest, c);
      RanListCons(g, ok, u, t, batch, rest, ParallelChunks(g, ok, failFast, t, rest, c));
    }
  }

  lemma GroupRanList(g: Graph, ok: set<Id>, failFast: bool, u: StatusMap, ids: seq<Id>, c: nat)
    requires Closed(g) && u.Keys == g.Keys && NoDup(ids) && Elems(ids) <= ActiveIds(u) && g.Keys <= ok
    ensures RanList(g, ok, u, ids, GroupRun(g, ok, failFast, u, ids, c))
  {
    if c <= 1 {
      SequentialRanList(g, ok, failFast, u, ids);
    } else {
      KeepWhole(ids, ActiveIds(u));
      ChunksRanList(g, ok, failFast, u, ids, c);
    }
  }

  // ----- runs without a target group -----

  lemma {:induction false} RunLists(o: Setting, u: StatusMap, order: seq<string>, i: nat)
    requires Closed(o.g) && u.Keys == o.g.Keys && o.g.Keys <= o.ok && o.target.None? && i <= |order|
    requires IsTopologicalOrder(GroupGraph(o.groups), order) && Elems(order[i..]) <= Names(o.groups)
    requires var l := Listing(o.groups, order[i..]); NoDup(l) && Elems(l) <= ActiveIds(u)
    ensures var out := RunGroups(o, u, order[i..], Elems(order[..i]));
            out.error.NoError? && ResultIds(AllResults(out.trace)) == Listing(o.groups, order[i..])
    decreases |order| - i
  {
    if i < |order| {
      var names, completed := order[i..], Elems(order[..i]);
      GateOpen(o, order, i);
      OrderTurn(order, i);
      var group := GroupNamed(o.groups, order[i]);
      var rest := Listing(o.groups, order[i + 1..]);
      assert Listing(o.groups, names) == group.nodes + rest;
      NoDupParts(group.nodes, rest);
      assert Elems(group.nodes + rest) == Elems(group.nodes) + Elems(rest);
      GroupRanList(o.g, o.ok, o.failFast, u, group.nodes, Concurrency(group, o.limit));
      var r := FirstRun(o, u, names);
      GroupTurn(o, u, names, completed);
      RunLists(o, r.statuses, order, i + 1);
      var next := NextGroups(o, u, names, completed);
      AllResultsCons(GroupTrace(order[i], r.results), next.trace);
      IdsAppend(r.results, AllResults(next.trace));
    }
  }

  /** When everything succeeds, a run without a target group executes exactly the nodes that the
      dry run lists, in that order, exactly when no listed node repeats and all are active. */
  lemma DryRunListsRun(o: Setting, s: StatusMap, order: seq<string>)
    requires Closed(o.g) && s.Keys == o.g.Keys && o.g.Keys <= o.ok && o.target.None?
    requires IsTopologicalOrder(GroupGraph(o.groups), order) && Elems(order) <= Names(o.groups)
    ensures var out := RunGroups(o, s, order, {});
            var l := ResultIds(DryRunGroups(o.groups, order));
            out.error.NoError? && ResultIds(AllResults(out.trace)) == l <==> NoDup(l) && Elems(l) <= ActiveIds(s)
  {
    var out := RunGroups(o, s, order, {});
    DryRunLists(o.groups, order);
    if NoDup(Listing(o.groups, order)) && Elems(Listing(o.groups, order)) <= ActiveIds(s) {
      assert order[0..] == order && Elems(order[..0]) == {};
      RunLists(o, s, order, 0);
    } else if out.error.NoError? {
      OrchestratedOnce(o, s, order, {});
    }
  }

  // ----- runs of one target group -----

  lemma {:induction false} SequentialListed(g: Graph, ok: set<Id>, failFast: bool, u: StatusMap, ids: seq<Id>)
    requires Closed(g) && u.Keys == g.Keys
    ensures Executed(SequentialGroup(g, ok, failFast, u, ids).results) <= Elems(ids)
    decreases |ids|
  {
    if ids != [] {
      assert ids == [ids[0]] + ids[1..];
      assert Elems(ids) == {ids[0]} + Elems(ids[1..]);
      if CanBegin(g, u, ids[0]) {
        var t := After(g, ok, u, {ids[0]});
        SequentialStep(g, ok, failFast, u, ids);
        SequentialListed(g, ok, failFast, t, ids[1..]);
        OneResult(ok, ids[0]);
        ExecutedResults(ok, [ids[0]]);
        ExecutedAppend(Results(ok, [ids[0]]), SequentialGroup(g, ok, failFast, t, ids[1..]).results);
      } else {
        SequentialPass(g, ok, failFast, u, ids);
        SequentialListed(g, ok, failFast, u, ids[1..]);
      }
    }
  }

  lemma {:induction false} ChunksListed(g: Graph, ok: set<Id>, failFast: bool, u: StatusMap, ids: seq<Id>, c: nat)
    requires Closed(g) && u.Keys == g.Keys && c > 0
    ensures Executed(ParallelChunks(g, ok, failFast, u, ids, c).results) <= Elems(ids)
    decreases |ids|
  {
    if ids != [] {
      var batch, rest := Head(ids, c), Tail(ids, c);
      var t := After(g, ok, u, Elems(batch));
      HeadTail(ids, c);
      assert Elems(ids) == Elems(batch) + Elems(rest);
      ChunkTurn(g, ok, failFast, u, ids, c);
      ChunksListed(g, ok, failFast, t, rest, c);
      ExecutedResults(ok, batch);
      ExecutedAppend(Results(ok, batch), ParallelChunks(g, ok, failFast, t, rest, c).results);
    }
  }

  /** A group executes no other nodes than its members. */
  lemma GroupListed(g: Graph, ok: set<Id>, failFast: bool, u: StatusMap, ids: seq<Id>, c: nat)
    requires Closed(g) && u.Keys == g.Keys
    ensures Executed(GroupRun(g, ok, failFast, u, ids, c).results) <= Elems(ids)
  {
    if c <= 1 { SequentialListed(g, ok, failFast, u, ids); }
    else { ChunksListed(g, ok, failFast, u, StillActive(u, ids), c); }
  }

  /** The listing of all groups contains the target's nodes, and nothing else exactly when all
      other groups are empty. */
  lemma {:induction false} ListingOnly(groups: seq<Group>, order: seq<string>, t: string)
    requires Elems(order) <= Names(groups) && NoDup(order) && t in Names(groups)
    ensures |Listing(groups, order)| >= if t in order then |GroupNamed(groups, t).nodes| else 0
    ensures Listing(groups, order) == (if t in order then GroupNamed(groups, t).nodes else []) <==>
            |Listing(groups, order)| == (if t in order then |GroupNamed(groups, t).nodes| else 0)
    ensures |Listing(groups, order)| == (if t in order then |GroupNamed(groups, t).nodes| else 0) <==>
            forall n :: n in order && n != t ==> n in Names(groups) && GroupNamed(groups, n).nodes == []
    decreases |order|
  {
    if order != [] {
      var n, rest := order[0], order[1..];
      assert order == [n] + rest;
      assert n in Elems(order);
      NoDupTail(order);
      ListingOnly(groups, rest, t);
      assert forall m :: m in order <==> m == n || m in rest;
      assert forall m :: m in order ==> m in Elems(order);
    }
  }

  /** With a target group the listing still names the nodes of every group. When everything
      succeeds, it agrees with the run exactly when the target requires no group, all other groups
      are empty, and no member of the target repeats or is inactive. */
  lemma TargetListing(o: Setting, s: StatusMap, order: seq<string>)
    requires Closed(o.g) && s.Keys == o.g.Keys && o.g.Keys <= o.ok && o.target.Some?
    requires Elems(order) <= Names(o.groups) && NoDup(order) && o.target.value in Names(o.groups)
    requires o.target.value in order
    ensures var out := RunGroups(o, s, order, {});
            var l := ResultIds(DryRunGroups(o.groups, order));
            var group := GroupNamed(o.groups, o.target.value);
            (out.error.NoError? && ResultIds(AllResults(out.trace)) == l <==>
             && group.prerequisites == [] && l == group.nodes
             && NoDup(group.nodes) && Elems(group.nodes) <= ActiveIds(s))
  {
    var t := o.target.value;
    var group := GroupNamed(o.groups, t);
    var c := Concurrency(group, o.limit);
    var r := GroupRun(o.g, o.ok, o.failFast, s, group.nodes, c);
    DryRunLists(o.groups, order);
    TargetGroupExact(o, s, order);
    StrategyRunExact(o, s, group);
    GroupRunOnce(o.g, o.ok, o.failFast, s, group.nodes, c);
    assert AllResults([GroupTrace(t, r.results)]) == r.results + [];
    assert r.results + [] == r.results;
    if NoDup(group.nodes) && Elems(group.nodes) <= ActiveIds(s) {
      GroupRanList(o.g, o.ok, o.failFast, s, group.nodes, c);
    }
    if !r.error && ResultIds(r.results) == Listing(o.groups, order) {
      OnlyTarget(o, s, order, r);
    }
  }

  lemma OnlyTarget(o: Setting, s: StatusMap, order: seq<string>, r: GroupOutcome)
    requires Closed(o.g) && s.Keys == o.g.Keys && o.target.Some? && o.target.value in Names(o.groups)
    requires Elems(order) <= Names(o.groups) && NoDup(order) && o.target.value in order
    requires var group := GroupNamed(o.groups, o.target.value);
             r == GroupRun(o.g, o.ok, o.failFast, s, group.nodes, Concurrency(group, o.limit))
    requires !r.error && ResultIds(r.results) == Listing(o.groups, order)
    ensures Listing(o.groups, order) == GroupNamed(o.groups, o.target.value).nodes
    ensures NoDup(Listing(o.groups, order)) && Elems(Listing(o.groups, order)) <= ActiveIds(s)
  {
    var group := GroupNamed(o.groups, o.target.value);
    var ids := ResultIds(r.results);
    GroupRunOnce(o.g, o.ok, o.failFast, s, group.nodes, Concurrency(group, o.limit));
    GroupListed(o.g, o.ok, o.failFast, s, group.nodes, Concurrency(group, o.limit));
    forall x | x in Elems(ids) ensures x in Elems(group.nodes) {
      var i :| 0 <= i < |ids| && ids[i] == x;
      assert r.results[i] in r.results;
    }
    NoDupSize(ids);
    SubsetSize(Elems(ids), Elems(group.nodes));
    ElemsSize(group.nodes);
    ListingOnly(o.groups, order, o.target.value);
  }
}
