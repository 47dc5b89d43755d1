/** Single groups: no node runs twice, when parallel chunks cannot fail, and when
    a sequential group respects the dependencies of its members. */
module GroupTheorems {
  import opened Options
  import opened Ordering
  import opened Reachability
  import opened Lifecycle
  import opened Tracker
  import opened Scheduler
  import opened RunTheorems
  import opened Targets
  import opened Groups
  import opened Orchestration

  // ----- at most once -----

  // The plan under which a group is one dispatch: no scope, no schedule.
  function Unplanned(g: Graph, ok: set<Id>): Plan {
    Plan(g, [], 0, false, None, ok)
  }

  lemma DispatchOnce(g: Graph, ok: set<Id>, s: StatusMap, batch: seq<Id>, rest: RunOutcome)
    requires Closed(g) && s.Keys == g.Keys && !Dispatch(g, ok, s, batch).error
    requires OneDispatch(Unplanned(g, ok), Dispatch(g, ok, s, batch).statuses, rest)
    ensures OneDispatch(Unplanned(g, ok), s, 
              RunOutcome(rest.statuses, Dispatch(g, ok, s, batch).results + rest.results))
    ensures Dispatch(g, ok, s, batch).statuses.Keys == s.Keys
  {
    DispatchExact(g, ok, s, batch);
    assert Elems(batch) <= ActiveIds(s) by {
      forall x | x in Elems(batch) ensures x in ActiveIds(s) { assert CanBegin(g, s, x); }
    }
    OneDispatchCompose(Unplanned(g, ok), s, batch, rest);
  }

  lemma DispatchAlone(g: Graph, ok: set<Id>, s: StatusMap, batch: seq<Id>)
    requires Closed(g) && s.Keys == g.Keys && !Dispatch(g, ok, s, batch).error
    ensures var d := Dispatch(g, ok, s, batch);
            OneDispatch(Unplanned(g, ok), s, RunOutcome(d.statuses, d.results)) && d.statuses.Keys == s.Keys
  {
    var d := Dispatch(g, ok, s, batch);
    EmptyDispatch(Unplanned(g, ok), d.statuses);
    DispatchOnce(g, ok, s, batch, RunOutcome(d.statuses, []));
    assert d.results + [] == d.results;
  }

  ghost predicate GroupOnce(g: Graph, ok: set<Id>, s: StatusMap, out: GroupOutcome) {
    !out.error ==>
      OneDispatch(Unplanned(g, ok), s, RunOutcome(out.statuses, out.results)) && out.statuses.Keys == s.Keys
  }

  lemma {:induction false} SequentialOnce(g: Graph, ok: set<Id>, failFast: bool, s: StatusMap, ids: seq<Id>)
    requires Closed(g) && s.Keys == g.Keys
    ensures GroupOnce(g, ok, s, SequentialGroup(g, ok, failFast, s, ids))
    decreases |ids|
  {
    if ids == [] {
      EmptyDispatch(Unplanned(g, ok), s);
    } else if (ids[0] in s && SkipInGroup(s[ids[0]])) || ids[0] !in g {
      SequentialOnce(g, ok, failFast, s, ids[1..]);
    } else {
      var d := Dispatch(g, ok, s, [ids[0]]);
      if !d.error {
        DispatchAlone(g, ok, s, [ids[0]]);
        if !(failFast && ids[0] !in ok) {
          var rest := SequentialGroup(g, ok, failFast, d.statuses, ids[1..]);
          SequentialOnce(g, ok, failFast, d.statuses, ids[1..]);
          if !rest.error { DispatchOnce(g, ok, s, [ids[0]], RunOutcome(rest.statuses, rest.results)); }
        }
      }
    }
  }

  lemma {:induction false} ChunksOnce(g: Graph, ok: set<Id>, failFast: bool, s: StatusMap, ids: seq<Id>, c: nat)
    requires Closed(g) && s.Keys == g.Keys && c > 0
    ensures GroupOnce(g, ok, s, ParallelChunks(g, ok, failFast, s, ids, c))
    decreases |ids|
  {
    if ids == [] {
      EmptyDispatch(Unplanned(g, ok), s);
    } else {
      var batch := Head(ids, c);
      var d := Dispatch(g, ok, s, batch);
      if !d.error {
        DispatchAlone(g, ok, s, batch);
        if !(failFast && !(Elems(batch) <= ok)) {
          var rest := ParallelChunks(g, ok, failFast, d.statuses, Tail(ids, c), c);
          ChunksOnce(g, ok, failFast, d.statuses, Tail(ids, c), c);
          if !rest.error { DispatchOnce(g, ok, s, batch, RunOutcome(rest.statuses, rest.results)); }
        }
      }
    }
  }

  lemma GroupRunOnce(g: Graph, ok: set<Id>, failFast: bool, s: StatusMap, ids: seq<Id>, c: nat)
    requires Closed(g) && s.Keys == g.Keys
    ensures GroupOnce(g, ok, s, GroupRun(g, ok, failFast, s, ids, c))
  {
    if c <= 1 {
      SequentialOnce(g, ok, failFast, s, ids);
    } else {
      ChunksOnce(g, ok, failFast, s, StillActive(s, ids), c);
    }
  }

  lemma ComposeOutcomes(p: Plan, s: StatusMap, a: RunOutcome, b: RunOutcome)
    requires OneDispatch(p, s, a) && OneDispatch(p, a.statuses, b)
    ensures OneDispatch(p, s, RunOutcome(b.statuses, a.results + b.results))
  {
    OneDispatchCompose(p, s, ResultIds(a.results), b);
  }

  /** A whole orchestrated run that does not abort is one dispatch of the nodes it executed. */
  lemma {:induction false} OrchestratedOnce(o: Setting, s: StatusMap, names: seq<string>, completed: set<string>)
    requires Closed(o.g) && s.Keys == o.g.Keys && Elems(names) <= Names(o.groups)
    ensures var out := RunGroups(o, s, names, completed);
            out.error.NoError? ==> OneDispatch(Unplanned(o.g, o.ok), s, RunOutcome(out.statuses, AllResults(out.trace)))
    decreases |names|
  {
    var p := Unplanned(o.g, o.ok);
    if names == [] {
      EmptyDispatch(p, s);
    } else {
      assert names == [names[0]] + names[1..];
      if o.target.Some? && names[0] != o.target.value {
        OrchestratedOnce(o, s, names[1..], completed);
      } else if Executes(o, s, names, completed) {
        var r := FirstRun(o, s, names);
        var group := GroupNamed(o.groups, names[0]);
        GroupRunOnce(o.g, o.ok, o.failFast, s, group.nodes, Concurrency(group, o.limit));
        GroupTurn(o, s, names, completed);
        var next := NextGroups(o, s, names, completed);
        if o.failFast && SomeFailed(r.results) {
          EmptyDispatch(p, r.statuses);
        } else {
          OrchestratedOnce(o, r.statuses, names[1..], completed + {names[0]});
        }
        if next.error.NoError? {
          ComposeOutcomes(p, s, RunOutcome(r.statuses, r.results), RunOutcome(next.statuses, AllResults(next.trace)));
          AllResultsCons(GroupTrace(names[0], r.results), next.trace);
        }
      } else {
        assert names[0] in Elems(names);
      }
    }
  }

  lemma AllResultsCons(t: GroupTrace, trace: seq<GroupTrace>)
    ensures AllResults([t] + trace) == t.results + AllResults(trace)
  {
    assert ([t] + trace)[1..] == trace;
  }

  /** In an orchestrated run, executed = succeeded + failed, and no node has two results. */
  lemma OrchestratedConserves(o: Setting, s: StatusMap, names: seq<string>, r: RunReport)
    requires Closed(o.g) && s.Keys == o.g.Keys && Elems(names) <= Names(o.groups)
    requires var out := RunGroups(o, s, names, {});
             out.error.NoError? && ReportOf(out.statuses, AllResults(out.trace), r)
    ensures r.executed == r.succeeded + r.failed
    ensures NoDup(ResultIds(r.nodeResults))
  {
    OrchestratedOnce(o, s, names, {});
    var ids := ResultIds(r.nodeResults);
    ResultCounts(o.ok, ids);
    NoDupSize(ids);
    assert Elems(ids) == (Elems(ids) * o.ok) + (Elems(ids) - o.ok);
  }

  // ----- when parallel chunks cannot fail -----

  /** Members of a chunk are distinct, and no later member is, or depends on, one of them. */
  ghost predicate ChunkFree(g: Graph, ids: seq<Id>, c: nat)
    requires c > 0
    decreases |ids|
  {
    ids == [] ||
    (&& NoDup(Head(ids, c))
     && (forall x, y :: x in Head(ids, c) && y in Tail(ids, c) ==> x != y && !Reaches(g, y, x))
     && ChunkFree(g, Tail(ids, c), c))
  }

  ghost predicate AllActive(g: Graph, s: StatusMap, ids: seq<Id>) {
    forall x :: x in ids ==> CanBegin(g, s, x)
  }

  /** A chunk has as many members as the limit allows, from the front of the list. */
  lemma HeadSize(ids: seq<Id>, c: nat)
    ensures Head(ids, c) <= ids && |Head(ids, c)| == if |ids| < c then |ids| else c
  {
  }

  lemma HeadTail(ids: seq<Id>, c: nat)
    ensures ids == Head(ids, c) + Tail(ids, c)
  {
  }

  lemma {:induction false} ChunkFreeSafe(g: Graph, ok: set<Id>, failFast: bool, s: StatusMap, ids: seq<Id>, c: nat)
    requires Closed(g) && s.Keys == g.Keys && c > 0 && AllActive(g, s, ids) && ChunkFree(g, ids, c)
    ensures !ParallelChunks(g, ok, failFast, s, ids, c).error
    decreases |ids|
  {
    if ids != [] {
      var batch, rest := Head(ids, c), Tail(ids, c);
      HeadTail(ids, c);
      ActiveParts(g, s, batch, rest);
      DispatchExact(g, ok, s, batch);
      StaysActive(g, ok, s, batch, rest);
      ChunkFreeSafe(g, ok, failFast, After(g, ok, s, Elems(batch)), rest, c);
    }
  }

  lemma ActiveParts(g: Graph, s: StatusMap, a: seq<Id>, b: seq<Id>)
    requires AllActive(g, s, a + b)
    ensures AllActive(g, s, a) && AllActive(g, s, b)
  {
    assert forall x :: x in a || x in b ==> x in a + b;
  }

  lemma StaysActive(g: Graph, ok: set<Id>, s: StatusMap, batch: seq<Id>, rest: seq<Id>)
    requires AllActive(g, s, rest)
    requires forall x, y :: x in batch && y in rest ==> x != y && !Reaches(g, y, x)
    ensures AllActive(g, After(g, ok, s, Elems(batch)), rest)
  {
    forall y | y in rest ensures CanBegin(g, After(g, ok, s, Elems(batch)), y) {
      assert CanBegin(g, s, y) && y !in Elems(batch) && !HitBy(g, ok, Elems(batch), y);
    }
  }

  /** A member that is no longer active makes the run fail when its chunk comes; with fail-fast
      its chunk comes for sure when all nodes succeed. */
  lemma {:induction false} InactiveFails(g: Graph, ok: set<Id>, failFast: bool, s: StatusMap, ids: seq<Id>, c: nat,
                                         y: Id)
    requires Closed(g) && s.Keys == g.Keys && c > 0 && y in ids && !CanBegin(g, s, y)
    requires failFast ==> g.Keys <= ok
    ensures ParallelChunks(g, ok, failFast, s, ids, c).error
    decreases |ids|
  {
    var batch, rest := Head(ids, c), Tail(ids, c);
    HeadTail(ids, c);
    DispatchExact(g, ok, s, batch);
    if Dispatchable(g, s, batch) {
      assert y !in batch && y in rest;
      InactiveFails(g, ok, failFast, After(g, ok, s, Elems(batch)), rest, c, y);
    }
  }

  /** Outcomes under which a list that is not chunk-free fails: one earlier member fails. */
  ghost function BadOutcome(g: Graph, ids: seq<Id>, c: nat): set<Id>
    requires c > 0
    decreases |ids|
  {
    if ids == [] then {}
    else if exists x, y :: x in Head(ids, c) && y in Tail(ids, c) && Reaches(g, y, x) then
      var x, y :| x in Head(ids, c) && y in Tail(ids, c) && Reaches(g, y, x);
      g.Keys - {x}
    else BadOutcome(g, Tail(ids, c), c)
  }

  /** A later member that depends on a failed one of this chunk makes the run fail. */
  lemma DependentFails(g: Graph, ok: set<Id>, s: StatusMap, batch: seq<Id>, rest: seq<Id>, c: nat, x: Id, y: Id)
    requires Closed(g) && s.Keys == g.Keys && c > 0
    requires x in batch && x !in ok && y in rest && Reaches(g, y, x)
    ensures ParallelChunks(g, ok, false, After(g, ok, s, Elems(batch)), rest, c).error
  {
    assert HitBy(g, ok, Elems(batch), y);
    InactiveFails(g, ok, false, After(g, ok, s, Elems(batch)), rest, c, y);
  }

  lemma RepeatFails(g: Graph, ok: set<Id>, s: StatusMap, batch: seq<Id>, rest: seq<Id>, c: nat, x: Id)
    requires Closed(g) && s.Keys == g.Keys && c > 0 && x in batch && x in rest
    ensures ParallelChunks(g, ok, false, After(g, ok, s, Elems(batch)), rest, c).error
  {
    InactiveFails(g, ok, false, After(g, ok, s, Elems(batch)), rest, c, x);
  }

  lemma {:induction false} NotFreeFails(g: Graph, s: StatusMap, ids: seq<Id>, c: nat)
    requires Closed(g) && s.Keys == g.Keys && c > 0 && !ChunkFree(g, ids, c)
    ensures ParallelChunks(g, BadOutcome(g, ids, c), false, s, ids, c).error
    decreases |ids|
  {
    var ok := BadOutcome(g, ids, c);
    var batch, rest := Head(ids, c), Tail(ids, c);
    DispatchExact(g, ok, s, batch);
    if Dispatchable(g, s, batch) {
      if exists x, y :: x in batch && y in rest && Reaches(g, y, x) {
        var x, y :| x in batch && y in rest && Reaches(g, y, x) && ok == g.Keys - {x};
        DependentFails(g, ok, s, batch, rest, c, x, y);
      } else if exists x :: x in batch && x in rest {
        var x :| x in batch && x in rest;
        RepeatFails(g, ok, s, batch, rest, c, x);
      } else {
        NotFreeFails(g, After(g, ok, s, Elems(batch)), rest, c);
      }
    }
  }

  /** Without fail-fast, the chunks run without an invalid transition under every outcome
      exactly when no member repeats or depends on a member of an earlier chunk. */
  lemma ChunksExact(g: Graph, s: StatusMap, ids: seq<Id>, c: nat)
    requires Closed(g) && s.Keys == g.Keys && c > 0 && AllActive(g, s, ids)
    ensures (forall ok :: !ParallelChunks(g, ok, false, s, ids, c).error) <==> ChunkFree(g, ids, c)
  {
    if ChunkFree(g, ids, c) {
      forall ok ensures !ParallelChunks(g, ok, false, s, ids, c).error {
        ChunkFreeSafe(g, ok, false, s, ids, c);
      }
    } else {
      NotFreeFails(g, s, ids, c);
    }
  }

  // ----- with fail-fast -----

  lemma SuccessKeepsActive(g: Graph, ok: set<Id>, s: StatusMap, batch: seq<Id>, rest: seq<Id>)
    requires AllActive(g, s, rest) && Elems(batch) <= ok && Elems(batch) !! Elems(rest)
    ensures AllActive(g, After(g, ok, s, Elems(batch)), rest)
  {
    forall y | y in rest ensures CanBegin(g, After(g, ok, s, Elems(batch)), y) {
      assert CanBegin(g, s, y) && y in Elems(rest);
    }
  }

  lemma NoDupSplit(ids: seq<Id>, c: nat)
    ensures NoDup(ids) <==> NoDup(Head(ids, c)) && NoDup(Tail(ids, c)) && Elems(Head(ids, c)) !! Elems(Tail(ids, c))
  {
    HeadTail(ids, c);
    if NoDup(ids) {
      NoDupParts(Head(ids, c), Tail(ids, c));
    } else if NoDup(Head(ids, c)) && NoDup(Tail(ids, c)) && Elems(Head(ids, c)) !! Elems(Tail(ids, c)) {
      NoDupConcat(Head(ids, c), Tail(ids, c));
    }
  }

  lemma {:induction false} DistinctFailFastSafe(g: Graph, ok: set<Id>, s: StatusMap, ids: seq<Id>, c: nat)
    requires Closed(g) && s.Keys == g.Keys && c > 0 && AllActive(g, s, ids) && NoDup(ids)
    ensures !ParallelChunks(g, ok, true, s, ids, c).error
    decreases |ids|
  {
    if ids != [] {
      var batch, rest := Head(ids, c), Tail(ids, c);
      HeadTail(ids, c);
      NoDupSplit(ids, c);
      ActiveParts(g, s, batch, rest);
      DispatchExact(g, ok, s, batch);
      if Elems(batch) <= ok {
        SuccessKeepsActive(g, ok, s, batch, rest);
        DistinctFailFastSafe(g, ok, After(g, ok, s, Elems(batch)), rest, c);
      }
    }
  }

  lemma {:induction false} RepeatsAbort(g: Graph, failFast: bool, s: StatusMap, ids: seq<Id>, c: nat)
    requires Closed(g) && s.Keys == g.Keys && c > 0 && AllActive(g, s, ids) && !NoDup(ids)
    ensures ParallelChunks(g, g.Keys, failFast, s, ids, c).error
    decreases |ids|
  {
    var batch, rest := Head(ids, c), Tail(ids, c);
    HeadTail(ids, c);
    NoDupSplit(ids, c);
    ActiveParts(g, s, batch, rest);
    DispatchExact(g, g.Keys, s, batch);
    if Dispatchable(g, s, batch) {
      assert Elems(batch) <= g.Keys by {
        forall x | x in Elems(batch) ensures x in g { assert CanBegin(g, s, x); }
      }
      var t := After(g, g.Keys, s, Elems(batch));
      if x :| x in Elems(batch) && x in Elems(rest) {
        InactiveFails(g, g.Keys, failFast, t, rest, c, x);
      } else {
        SuccessKeepsActive(g, g.Keys, s, batch, rest);
        RepeatsAbort(g, failFast, t, rest, c);
      }
    }
  }

  /** With fail-fast, the chunks run without an invalid transition under every outcome exactly
      when no member repeats: a failure ends the group before it can reach a dependent. */
  lemma FailFastChunksExact(g: Graph, s: StatusMap, ids: seq<Id>, c: nat)
    requires Closed(g) && s.Keys == g.Keys && c > 0 && AllActive(g, s, ids)
    ensures (forall ok :: !ParallelChunks(g, ok, true, s, ids, c).error) <==> NoDup(ids)
  {
    if NoDup(ids) {
      forall ok ensures !ParallelChunks(g, ok, true, s, ids, c).error {
        DistinctFailFastSafe(g, ok, s, ids, c);
      }
    } else {
      RepeatsAbort(g, true, s, ids, c);
    }
  }

  // ----- sequential groups and stale members -----

  lemma StaleStays(g: Graph, ok: set<Id>, s: StatusMap, batch: set<Id>, x: Id)
    requires batch <= ActiveIds(s)
    ensures Stale(After(g, ok, s, batch), x) <==> Stale(s, x)
  {
  }

  /** The turn of an active member of a sequential group. */
  lemma SequentialStep(g: Graph, ok: set<Id>, failFast: bool, s: StatusMap, ids: seq<Id>)
    requires Closed(g) && s.Keys == g.Keys && ids != [] && CanBegin(g, s, ids[0])
    ensures var t := After(g, ok, s, {ids[0]});
            && t.Keys == g.Keys
            && SequentialGroup(g, ok, failFast, s, ids) ==
               if failFast && ids[0] !in ok then GroupOutcome(t, [NodeResult(ids[0], Verdict(ok, ids[0]))], false)
               else Prepend([NodeResult(ids[0], Verdict(ok, ids[0]))], SequentialGroup(g, ok, failFast, t, ids[1..]))
  {
    DispatchExact(g, ok, s, [ids[0]]);
    assert Dispatchable(g, s, [ids[0]]);
    assert Elems([ids[0]]) == {ids[0]};
    assert Results(ok, [ids[0]]) == [NodeResult(ids[0], Verdict(ok, ids[0]))];
  }

  /** The turn of any other member: a stale one ends the run, the rest are passed over. */
  lemma SequentialPass(g: Graph, ok: set<Id>, failFast: bool, s: StatusMap, ids: seq<Id>)
    requires Closed(g) && s.Keys == g.Keys && ids != [] && !CanBegin(g, s, ids[0])
    ensures SequentialGroup(g, ok, failFast, s, ids) ==
            if Stale(s, ids[0]) then GroupOutcome(s, [], true) else SequentialGroup(g, ok, failFast, s, ids[1..])
  {
    SingletonDispatch(g, ok, s, ids[0]);
  }

  lemma {:induction false} SequentialSucceeds(g: Graph, ok: set<Id>, failFast: bool, s: StatusMap, ids: seq<Id>)
    requires Closed(g) && s.Keys == g.Keys && forall x :: x in ids ==> !Stale(s, x)
    ensures !SequentialGroup(g, ok, failFast, s, ids).error
    decreases |ids|
  {
    if ids != [] {
      assert forall x :: x in ids[1..] ==> x in ids;
      if CanBegin(g, s, ids[0]) {
        SequentialStep(g, ok, failFast, s, ids);
        SequentialSucceeds(g, ok, failFast, After(g, ok, s, {ids[0]}), ids[1..]);
      } else {
        SequentialPass(g, ok, failFast, s, ids);
        SequentialSucceeds(g, ok, failFast, s, ids[1..]);
      }
    }
  }

  lemma {:induction false} StaleAborts(g: Graph, ok: set<Id>, failFast: bool, s: StatusMap, ids: seq<Id>, x: Id)
    requires Closed(g) && s.Keys == g.Keys && x in ids && Stale(s, x)
    requires failFast ==> g.Keys <= ok
    ensures SequentialGroup(g, ok, failFast, s, ids).error
    decreases |ids|
  {
    assert ids == [ids[0]] + ids[1..];
    if CanBegin(g, s, ids[0]) {
      SequentialStep(g, ok, failFast, s, ids);
      StaleStays(g, ok, s, {ids[0]}, x);
      StaleAborts(g, ok, failFast, After(g, ok, s, {ids[0]}), ids[1..], x);
    } else {
      SequentialPass(g, ok, failFast, s, ids);
      if ids[0] != x { StaleAborts(g, ok, failFast, s, ids[1..], x); }
    }
  }

  /** Without fail-fast a sequential group aborts exactly when one of its members was left
      InProgress, whatever the outcomes. */
  lemma SequentialErrorExact(g: Graph, ok: set<Id>, s: StatusMap, ids: seq<Id>)
    requires Closed(g) && s.Keys == g.Keys
    ensures SequentialGroup(g, ok, false, s, ids).error <==> exists x :: x in ids && Stale(s, x)
  {
    if x :| x in ids && Stale(s, x) {
      StaleAborts(g, ok, false, s, ids, x);
    } else {
      SequentialSucceeds(g, ok, false, s, ids);
    }
  }

  // ----- when a group never aborts -----

  /** Nothing in the group can meet an invalid transition. */
  ghost predicate NeverAborts(g: Graph, failFast: bool, s: StatusMap, ids: seq<Id>, c: nat) {
    if c <= 1 then forall x :: x in ids ==> !Stale(s, x)
    else if failFast then NoDup(StillActive(s, ids))
    else ChunkFree(g, StillActive(s, ids), c)
  }

  /** The exact condition for a group to run without an invalid transition under every outcome:
      sequential, no member left InProgress; parallel with fail-fast, no active member repeated;
      parallel without, also none depending on a member of an earlier chunk. */
  lemma NeverAbortsExact(g: Graph, failFast: bool, s: StatusMap, ids: seq<Id>, c: nat)
    requires Closed(g) && s.Keys == g.Keys
    ensures (forall ok :: !GroupRun(g, ok, failFast, s, ids, c).error) <==> NeverAborts(g, failFast, s, ids, c)
  {
    var active := StillActive(s, ids);
    StillActiveAll(g, s, ids);
    if NeverAborts(g, failFast, s, ids, c) {
      forall ok ensures !GroupRun(g, ok, failFast, s, ids, c).error {
        if c <= 1 { SequentialSucceeds(g, ok, failFast, s, ids); }
        else if failFast { DistinctFailFastSafe(g, ok, s, active, c); }
        else { ChunkFreeSafe(g, ok, failFast, s, active, c); }
      }
    } else if c <= 1 {
      var x :| x in ids && Stale(s, x);
      StaleAborts(g, g.Keys, failFast, s, ids, x);
      assert GroupRun(g, g.Keys, failFast, s, ids, c).error;
    } else if failFast {
      RepeatsAbort(g, failFast, s, active, c);
      assert GroupRun(g, g.Keys, failFast, s, ids, c).error;
    } else {
      NotFreeFails(g, s, active, c);
      assert GroupRun(g, BadOutcome(g, active, c), failFast, s, ids, c).error;
    }
  }

  lemma StillActiveAll(g: Graph, s: StatusMap, ids: seq<Id>)
    requires s.Keys == g.Keys
    ensures AllActive(g, s, StillActive(s, ids))
  {
    forall x | x in StillActive(s, ids) ensures CanBegin(g, s, x) {
      assert x in Elems(StillActive(s, ids));
    }
  }

  ghost predicate Independent(g: Graph, ids: seq<Id>) {
    NoDup(ids) && forall x, y :: x in ids && y in ids ==> !Reaches(g, y, x)
  }

  lemma {:induction false} IndependentChunkFree(g: Graph, ids: seq<Id>, c: nat)
    requires Independent(g, ids) && c > 0
    ensures ChunkFree(g, ids, c)
    decreases |ids|
  {
    if ids != [] {
      var k := Min(c, |ids|);
      HeadTail(ids, c);
      forall x, y | x in Head(ids, c) && y in Tail(ids, c) ensures x != y {
        var i :| 0 <= i < k && ids[i] == x;
        var j :| 0 <= j < |ids| - k && ids[k..][j] == y;
        assert ids[k + j] == y;
      }
      assert forall x :: x in Tail(ids, c) ==> x in ids;
      forall i, j | 0 <= i < j < |ids| - k ensures ids[k..][i] != ids[k..][j] {
        assert ids[k..][i] == ids[k + i] && ids[k..][j] == ids[k + j];
      }
      IndependentChunkFree(g, Tail(ids, c), c);
    }
  }

  lemma {:induction false} KeepIndependent(g: Graph, ids: seq<Id>, t: set<Id>)
    requires Independent(g, ids)
    ensures Independent(g, Keep(ids, t))
  {
    if ids != [] {
      NoDupTail(ids);
      assert forall x :: x in ids[1..] ==> x in ids;
      KeepIndependent(g, ids[1..], t);
      KeepNoDup(ids, t);
      forall x | x in Keep(ids, t) ensures x in ids { assert x in Elems(Keep(ids, t)); }
    }
  }

  /** A parallel group of distinct, mutually independent members never fails, whatever the
      outcomes, the state it starts in and the chunk size. */
  lemma IndependentGroupNeverFails(g: Graph, ok: set<Id>, failFast: bool, s: StatusMap, ids: seq<Id>, c: nat)
    requires Closed(g) && s.Keys == g.Keys && c > 1 && Independent(g, ids)
    ensures !GroupRun(g, ok, failFast, s, ids, c).error
  {
    var active := StillActive(s, ids);
    KeepIndependent(g, ids, ActiveIds(s));
    IndependentChunkFree(g, active, c);
    StillActiveAll(g, s, ids);
    ChunkFreeSafe(g, ok, failFast, s, active, c);
  }

  // ----- when a sequential group respects dependencies -----

  /** Each active member has every dependency done already or listed before it as an active member. */
  ghost predicate DepsListed(g: Graph, s: StatusMap, ids: seq<Id>) {
    forall i :: 0 <= i < |ids| && CanBegin(g, s, ids[i]) ==> DepsListedAt(g, s, ids, i)
  }

  ghost predicate DepsListedAt(g: Graph, s: StatusMap, ids: seq<Id>, i: nat)
    requires i < |ids|
  {
    ids[i] in g ==> forall d :: d in g[ids[i]] ==> (d in s && Done(s[d])) || (d in ids[..i] && CanBegin(g, s, d))
  }

  lemma DepsListedTail(g: Graph, s: StatusMap, ids: seq<Id>)
    requires ids != [] && DepsListed(g, s, ids) && !CanBegin(g, s, ids[0])
    ensures DepsListed(g, s, ids[1..])
  {
    var rest := ids[1..];
    forall i | 0 <= i < |rest| && CanBegin(g, s, rest[i]) ensures DepsListedAt(g, s, rest, i) {
      assert rest[i] == ids[i + 1] && DepsListedAt(g, s, ids, i + 1);
      assert ids[..i + 1] == [ids[0]] + rest[..i];
    }
  }

  lemma DepsListedAfter(g: Graph, ok: set<Id>, s: StatusMap, ids: seq<Id>)
    requires Closed(g) && s.Keys == g.Keys && ids != [] && DepsListed(g, s, ids) && CanBegin(g, s, ids[0])
    ensures DepsListed(g, After(g, ok, s, {ids[0]}), ids[1..])
  {
    var x, rest := ids[0], ids[1..];
    var t := After(g, ok, s, {x});
    forall i | 0 <= i < |rest| && CanBegin(g, t, rest[i]) ensures DepsListedAt(g, t, rest, i) {
      var y := rest[i];
      assert y == ids[i + 1] && DepsListedAt(g, s, ids, i + 1);
      assert ids[..i + 1] == [x] + rest[..i];
      assert !HitBy(g, ok, {x}, y);
      forall d | d in g[y] ensures Done(t[d]) || (d in rest[..i] && CanBegin(g, t, d)) {
        ReachesEdge(g, y, d);
        if d != x && HitBy(g, ok, {x}, d) { ReachesCons(g, y, d, x); }
      }
    }
  }

  /** Prefixing one executed node whose dependencies are done keeps the dependency order. */
  lemma OrderCons(g: Graph, ok: set<Id>, s: StatusMap, x: Id, rest: seq<NodeResult>)
    requires s.Keys == g.Keys && CanBegin(g, s, x) && DepsDone(g, s, x)
    requires DependencyOrder(g, After(g, ok, s, {x}), rest)
    ensures DependencyOrder(g, s, [NodeResult(x, Verdict(ok, x))] + rest)
  {
    var t := After(g, ok, s, {x});
    var head := NodeResult(x, Verdict(ok, x));
    var all := [head] + rest;
    forall i, d | 0 <= i < |all| && all[i].id in g && d in g[all[i].id] ensures DoneBefore(s, all, i, d) {
      if i > 0 {
        assert all[i] == rest[i - 1] && DoneBefore(t, rest, i - 1, d);
        assert all[..i] == [head] + rest[..i - 1];
      }
    }
  }

  lemma {:induction false} ListedOrder(g: Graph, ok: set<Id>, failFast: bool, s: StatusMap, ids: seq<Id>)
    requires Closed(g) && s.Keys == g.Keys && NoneInProgress(s) && DepsListed(g, s, ids)
    ensures DependencyOrder(g, s, SequentialGroup(g, ok, failFast, s, ids).results)
    decreases |ids|
  {
    if ids == [] {
    } else if !CanBegin(g, s, ids[0]) {
      DepsListedTail(g, s, ids);
      ListedOrder(g, ok, failFast, s, ids[1..]);
    } else {
      var x := ids[0];
      var t := After(g, ok, s, {x});
      SequentialTurn(g, ok, failFast, s, ids);
      assert DepsListedAt(g, s, ids, 0);
      DepsListedAfter(g, ok, s, ids);
      ListedOrder(g, ok, failFast, t, ids[1..]);
      SequentialSucceeds(g, ok, failFast, t, ids[1..]);
      OrderCons(g, ok, s, x, []);
      assert [NodeResult(x, Verdict(ok, x))] + [] == [NodeResult(x, Verdict(ok, x))];
      OrderCons(g, ok, s, x, SequentialGroup(g, ok, failFast, t, ids[1..]).results);
    }
  }

  lemma SequentialTurn(g: Graph, ok: set<Id>, failFast: bool, s: StatusMap, ids: seq<Id>)
    requires Closed(g) && s.Keys == g.Keys && NoneInProgress(s) && ids != [] && CanBegin(g, s, ids[0])
    ensures var t := After(g, ok, s, {ids[0]});
            && t.Keys == g.Keys && NoneInProgress(t)
            && SequentialGroup(g, ok, failFast, s, ids) ==
               if failFast && ids[0] !in ok then GroupOutcome(t, [NodeResult(ids[0], Verdict(ok, ids[0]))], false)
               else Prepend([NodeResult(ids[0], Verdict(ok, ids[0]))], SequentialGroup(g, ok, failFast, t, ids[1..]))
  {
    SequentialStep(g, ok, failFast, s, ids);
  }

  lemma OrderUncons(g: Graph, s: StatusMap, x: Id, rest: seq<NodeResult>)
    requires s.Keys == g.Keys && CanBegin(g, s, x)
    requires DependencyOrder(g, s, [NodeResult(x, Completed)] + rest)
    ensures DepsDone(g, s, x) && DependencyOrder(g, After(g, g.Keys, s, {x}), rest)
  {
    var t := After(g, g.Keys, s, {x});
    var all := [NodeResult(x, Completed)] + rest;
    assert all[0].id == x;
    forall d | d in g[x] ensures d in s && Done(s[d]) {
      assert DoneBefore(s, all, 0, d);
    }
    forall i, d | 0 <= i < |rest| && rest[i].id in g && d in g[rest[i].id] ensures DoneBefore(t, rest, i, d) {
      assert all[i + 1] == rest[i] && DoneBefore(s, all, i + 1, d);
      assert all[..i + 1] == [all[0]] + rest[..i];
    }
  }

  lemma DepsListedCons(g: Graph, s: StatusMap, ids: seq<Id>)
    requires Closed(g) && s.Keys == g.Keys && ids != [] && CanBegin(g, s, ids[0]) && DepsDone(g, s, ids[0])
    requires DepsListed(g, After(g, g.Keys, s, {ids[0]}), ids[1..])
    ensures DepsListed(g, s, ids)
  {
    var x, rest := ids[0], ids[1..];
    var t := After(g, g.Keys, s, {x});
    forall i | 0 <= i < |ids| && CanBegin(g, s, ids[i]) ensures DepsListedAt(g, s, ids, i) {
      if ids[i] != x {
        assert CanBegin(g, t, rest[i - 1]) && DepsListedAt(g, t, rest, i - 1);
        assert ids[..i] == [x] + rest[..i - 1];
      }
    }
  }

  lemma {:induction false} OrderListed(g: Graph, failFast: bool, s: StatusMap, ids: seq<Id>)
    requires Closed(g) && s.Keys == g.Keys && NoneInProgress(s)
    requires DependencyOrder(g, s, SequentialGroup(g, g.Keys, failFast, s, ids).results)
    ensures DepsListed(g, s, ids)
    decreases |ids|
  {
    if ids == [] {
    } else if !CanBegin(g, s, ids[0]) {
      OrderListed(g, failFast, s, ids[1..]);
      forall i | 0 <= i < |ids| && CanBegin(g, s, ids[i]) ensures DepsListedAt(g, s, ids, i) {
        assert ids[1..][i - 1] == ids[i] && DepsListedAt(g, s, ids[1..], i - 1);
        assert ids[..i] == [ids[0]] + ids[1..][..i - 1];
      }
    } else {
      var t := After(g, g.Keys, s, {ids[0]});
      SequentialTurn(g, g.Keys, failFast, s, ids);
      SequentialSucceeds(g, g.Keys, failFast, t, ids[1..]);
      OrderUncons(g, s, ids[0], SequentialGroup(g, g.Keys, failFast, t, ids[1..]).results);
      OrderListed(g, failFast, t, ids[1..]);
      DepsListedCons(g, s, ids);
    }
  }

  /** Every member this sequential run executes follows the success of its unfinished dependencies. */
  ghost predicate RunsInOrder(g: Graph, ok: set<Id>, failFast: bool, s: StatusMap, ids: seq<Id>) {
    DependencyOrder(g, s, SequentialGroup(g, ok, failFast, s, ids).results)
  }

  /** A sequential group never looks at `depends`. It executes its members after their
      dependencies, under every outcome, exactly when the list itself arranges that. */
  lemma SequentialExact(g: Graph, failFast: bool, s: StatusMap, ids: seq<Id>)
    requires Closed(g) && s.Keys == g.Keys && NoneInProgress(s)
    ensures (forall ok :: RunsInOrder(g, ok, failFast, s, ids)) <==> DepsListed(g, s, ids)
  {
    if DepsListed(g, s, ids) {
      forall ok ensures RunsInOrder(g, ok, failFast, s, ids) {
        ListedOrder(g, ok, failFast, s, ids);
      }
    }
    if RunsInOrder(g, g.Keys, failFast, s, ids) {
      OrderListed(g, failFast, s, ids);
    }
  }
}
