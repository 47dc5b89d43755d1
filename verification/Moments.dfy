/** The status maps a tracker holds inside a run: while members begin, while outcomes are
    written, and while the dependents of a failure are blocked one by one. */
module Moments {
  import opened Ordering
  import opened Reachability
  import opened Lifecycle
  import opened Scheduler
  import opened RunTheorems
  import opened Orchestration
  import opened Arrangement
  import opened ArrangedRuns

  // ----- inside a dispatch -----

  ghost predicate During(g: Graph, ok: set<Id>, s: StatusMap, batch: seq<Id>, u: StatusMap) {
    exists i :: 0 <= i <= |batch| && DuringAt(g, ok, s, batch, i, u)
  }

  /** Member `i` is up: the ones before it have begun, or it has just been promoted, or all have
      begun and the outcomes of the ones before it are written, or its own outcome is being. */
  ghost predicate DuringAt(g: Graph, ok: set<Id>, s: StatusMap, batch: seq<Id>, i: nat, u: StatusMap)
    requires i <= |batch|
  {
    var begun := BeginAll(g, s, batch[..i]).statuses;
    var all := BeginAll(g, s, batch);
    || u == begun
    || (i < |batch| && u == begun[batch[i] := Ready])
    || (!all.error && u == FinishAll(g, ok, all.statuses, batch[..i]))
    || (!all.error && i < |batch| && Writing(g, ok, FinishAll(g, ok, all.statuses, batch[..i]), batch[i], u))
  }

  function BlockSome(s: StatusMap, hit: set<Id>): StatusMap {
    map y | y in s :: if y in hit && Active(s[y]) then Blocked else s[y]
  }

  /** The outcome of `x` is written, and of a failure some dependents are blocked already. */
  ghost predicate Writing(g: Graph, ok: set<Id>, s: StatusMap, x: Id, u: StatusMap) {
    exists hit :: WritingHit(g, ok, s, x, hit, u)
  }

  ghost predicate WritingHit(g: Graph, ok: set<Id>, s: StatusMap, x: Id, hit: set<Id>, u: StatusMap) {
    hit <= TransDependents(g, x) && (x in ok ==> hit == {}) && u == BlockSome(s[x := Verdict(ok, x)], hit)
  }

  // ----- inside a run -----

  ghost predicate Visits(p: Plan, s: StatusMap, u: StatusMap)
    requires ValidPlan(p) && s.Keys == p.g.Keys
    decreases |ActiveIds(s)|
  {
    if Candidates(p, s) == {} then u == s
    else
      var batch := Batch(p, Candidates(p, s));
      var t := After(p.g, p.ok, s, Elems(batch));
      RunStep(p, s);
      During(p.g, p.ok, s, batch, u) || (!(p.failFast && !(Elems(batch) <= p.ok)) && Visits(p, t, u))
  }

  ghost predicate SequentialVisits(g: Graph, ok: set<Id>, failFast: bool, s: StatusMap, ids: seq<Id>, u: StatusMap)
    decreases |ids|
  {
    if ids == [] then u == s
    else if CanBegin(g, s, ids[0]) then
      || During(g, ok, s, [ids[0]], u)
      || (!(failFast && ids[0] !in ok) && SequentialVisits(g, ok, failFast, After(g, ok, s, {ids[0]}), ids[1..], u))
    else if Stale(s, ids[0]) then u == s
    else SequentialVisits(g, ok, failFast, s, ids[1..], u)
  }

  ghost predicate ChunksVisit(g: Graph, ok: set<Id>, failFast: bool, s: StatusMap, ids: seq<Id>, c: nat, u: StatusMap)
    requires c > 0
    decreases |ids|
  {
    if ids == [] then u == s
    else
      var batch := Head(ids, c);
      || During(g, ok, s, batch, u)
      || (Dispatchable(g, s, batch) && !(failFast && !(Elems(batch) <= ok))
          && ChunksVisit(g, ok, failFast, After(g, ok, s, Elems(batch)), Tail(ids, c), c, u))
  }

  ghost predicate GroupVisits(g: Graph, ok: set<Id>, failFast: bool, s: StatusMap, ids: seq<Id>, c: nat, u: StatusMap) {
    if c <= 1 then SequentialVisits(g, ok, failFast, s, ids, u)
    else ChunksVisit(g, ok, failFast, s, StillActive(s, ids), c, u)
  }

  // ----- the safety invariant at every moment -----

  lemma StartedSafe(g: Graph, s: StatusMap, xs: set<Id>)
    requires Safe(g, s) && xs <= Eligible(g, s)
    ensures Safe(g, Started(s, xs))
  {
    var t := Started(s, xs);
    forall x | x in t ensures !t[x].Skipped? && (t[x].Pending? || t[x].Blocked? || Settled(g, t, x)) {
      if x in xs { EligibleSettled(g, s, x); }
      if Settled(g, s, x) {
        assert forall d :: d in g[x] ==> t[d].Completed?;
      }
    }
  }

  lemma FinishedSafe(g: Graph, ok: set<Id>, s: StatusMap, xs: set<Id>)
    requires Safe(g, s) && forall x :: x in xs ==> x in s && s[x].InProgress?
    ensures Safe(g, After(g, ok, s, xs))
  {
    var t := After(g, ok, s, xs);
    forall x | x in t ensures !t[x].Skipped? && (t[x].Pending? || t[x].Blocked? || Settled(g, t, x)) {
      if Settled(g, s, x) {
        assert forall d :: d in g[x] ==> t[d].Completed?;
      }
    }
  }

  lemma PromotedSafe(g: Graph, s: StatusMap, x: Id)
    requires Safe(g, s) && x in g && Active(s[x]) && Settled(g, s, x)
    ensures Safe(g, s[x := Ready])
  {
    var t := s[x := Ready];
    forall y | y in t ensures t[y].Pending? || t[y].Blocked? || Settled(g, t, y) {
      if Settled(g, s, y) {
        assert forall d :: d in g[y] ==> t[d].Completed?;
      }
    }
  }

  lemma BlockSomeSafe(g: Graph, s: StatusMap, hit: set<Id>)
    requires Safe(g, s)
    ensures Safe(g, BlockSome(s, hit))
  {
    var t := BlockSome(s, hit);
    forall x | x in t ensures !t[x].Skipped? && (t[x].Pending? || t[x].Blocked? || Settled(g, t, x)) {
      if Settled(g, s, x) {
        assert forall d :: d in g[x] ==> t[d].Completed?;
      }
    }
  }

  lemma VerdictSafe(g: Graph, ok: set<Id>, s: StatusMap, x: Id)
    requires Safe(g, s) && x in s && s[x].InProgress?
    ensures Safe(g, s[x := Verdict(ok, x)])
  {
    var t := s[x := Verdict(ok, x)];
    forall y | y in t ensures !t[y].Skipped? && (t[y].Pending? || t[y].Blocked? || Settled(g, t, y)) {
      if Settled(g, s, y) {
        assert forall d :: d in g[y] ==> t[d].Completed?;
      }
    }
  }

  lemma EligibleBegins(g: Graph, s: StatusMap, batch: seq<Id>)
    requires Safe(g, s) && NoDup(batch) && forall x :: x in batch ==> x in Eligible(g, s)
    ensures !BeginAll(g, s, batch).error && BeginAll(g, s, batch).statuses == Started(s, Elems(batch))
  {
    BeginAllExact(g, s, batch);
  }

  lemma PromotingSafe(g: Graph, s: StatusMap, front: seq<Id>, x: Id)
    requires Safe(g, s) && Elems(front) <= Eligible(g, s) && x in Eligible(g, s) && x !in front
    ensures Safe(g, Started(s, Elems(front))[x := Ready])
  {
    StartedSafe(g, s, Elems(front));
    EligibleSettled(g, s, x);
    assert Settled(g, Started(s, Elems(front)), x);
    PromotedSafe(g, Started(s, Elems(front)), x);
  }

  lemma FinishingSafe(g: Graph, ok: set<Id>, s: StatusMap, batch: seq<Id>, i: nat)
    requires Safe(g, s) && NoDup(batch) && Elems(batch) <= Eligible(g, s) && i <= |batch|
    ensures var t := FinishAll(g, ok, Started(s, Elems(batch)), batch[..i]);
            Safe(g, t) && (i < |batch| ==> batch[i] in t && t[batch[i]].InProgress?)
  {
    StartedSafe(g, s, Elems(batch));
    assert forall x :: x in batch[..i] ==> x in Elems(batch);
    FinishAllIsAfter(g, ok, Started(s, Elems(batch)), batch[..i]);
    FinishedSafe(g, ok, Started(s, Elems(batch)), Elems(batch[..i]));
    if i < |batch| {
      assert batch[i] in Elems(batch) && batch[i] !in Elems(batch[..i]);
    }
  }

  lemma WritingSafe(g: Graph, ok: set<Id>, s: StatusMap, x: Id, u: StatusMap)
    requires Safe(g, s) && x in s && s[x].InProgress? && Writing(g, ok, s, x, u)
    ensures Safe(g, u)
  {
    var hit :| WritingHit(g, ok, s, x, hit, u);
    VerdictSafe(g, ok, s, x);
    BlockSomeSafe(g, s[x := Verdict(ok, x)], hit);
  }

  lemma DuringSafe(g: Graph, ok: set<Id>, s: StatusMap, batch: seq<Id>, u: StatusMap)
    requires Safe(g, s) && NoDup(batch) && Elems(batch) <= Eligible(g, s) && During(g, ok, s, batch, u)
    ensures Safe(g, u)
  {
    var i :| 0 <= i <= |batch| && DuringAt(g, ok, s, batch, i, u);
    var front := batch[..i];
    EligibleBegins(g, s, front);
    EligibleBegins(g, s, batch);
    StartedSafe(g, s, Elems(front));
    FinishingSafe(g, ok, s, batch, i);
    var t := FinishAll(g, ok, Started(s, Elems(batch)), front);
    if u != Started(s, Elems(front)) && u != t && i < |batch| {
      if Writing(g, ok, t, batch[i], u) {
        WritingSafe(g, ok, t, batch[i], u);
      } else {
        PromotingSafe(g, s, front, batch[i]);
      }
    }
  }

  /** The safety invariant holds at every moment of a run, not only between its dispatches. */
  lemma {:induction false} VisitsSafe(p: Plan, s: StatusMap, u: StatusMap)
    requires ValidPlan(p) && Safe(p.g, s) && Visits(p, s, u)
    ensures Safe(p.g, u)
    decreases |ActiveIds(s)|
  {
    if Candidates(p, s) != {} {
      var batch := Batch(p, Candidates(p, s));
      RunStep(p, s);
      BatchEligible(p, s);
      BatchNoDup(p, Candidates(p, s));
      if During(p.g, p.ok, s, batch, u) {
        DuringSafe(p.g, p.ok, s, batch, u);
      } else {
        AfterSafe(p.g, p.ok, s, Elems(batch));
        VisitsSafe(p, After(p.g, p.ok, s, Elems(batch)), u);
      }
    }
  }

  lemma {:induction false} SequentialVisitsSafe(g: Graph, ok: set<Id>, failFast: bool, s: StatusMap, ids: seq<Id>,
                                                u: StatusMap)
    requires Safe(g, s) && SequentialReady(g, ok, failFast, s, ids) && SequentialVisits(g, ok, failFast, s, ids, u)
    ensures Safe(g, u)
    decreases |ids|
  {
    if ids != [] {
      if CanBegin(g, s, ids[0]) {
        OneResult(ok, ids[0]);
        assert {ids[0]} <= Eligible(g, s);
        if During(g, ok, s, [ids[0]], u) {
          DuringSafe(g, ok, s, [ids[0]], u);
        } else {
          AfterSafe(g, ok, s, {ids[0]});
          SequentialVisitsSafe(g, ok, failFast, After(g, ok, s, {ids[0]}), ids[1..], u);
        }
      } else if !Stale(s, ids[0]) {
        SequentialVisitsSafe(g, ok, failFast, s, ids[1..], u);
      }
    }
  }

  lemma {:induction false} ChunksVisitSafe(g: Graph, ok: set<Id>, failFast: bool, s: StatusMap, ids: seq<Id>, c: nat,
                                           u: StatusMap)
    requires Safe(g, s) && c > 0 && ChunksReady(g, ok, failFast, s, ids, c)
    requires ChunksVisit(g, ok, failFast, s, ids, c, u)
    requires !ParallelChunks(g, ok, failFast, s, ids, c).error
    ensures Safe(g, u)
    decreases |ids|
  {
    if ids != [] {
      var batch := Head(ids, c);
      ChunkTurn(g, ok, failFast, s, ids, c);
      ReadyEligible(g, s, batch);
      if During(g, ok, s, batch, u) {
        DuringSafe(g, ok, s, batch, u);
      } else {
        AfterSafe(g, ok, s, Elems(batch));
        ChunksVisitSafe(g, ok, failFast, After(g, ok, s, Elems(batch)), Tail(ids, c), c, u);
      }
    }
  }

  /** Likewise for a group that is ready and does not abort. */
  lemma GroupVisitsSafe(g: Graph, ok: set<Id>, failFast: bool, s: StatusMap, ids: seq<Id>, c: nat, u: StatusMap)
    requires Safe(g, s) && GroupReady(g, ok, failFast, s, ids, c) && !GroupRun(g, ok, failFast, s, ids, c).error
    requires GroupVisits(g, ok, failFast, s, ids, c, u)
    ensures Safe(g, u)
  {
    if c <= 1 { SequentialVisitsSafe(g, ok, failFast, s, ids, u); }
    else { ChunksVisitSafe(g, ok, failFast, s, StillActive(s, ids), c, u); }
  }

  lemma BatchEndVisited(g: Graph, ok: set<Id>, s: StatusMap, batch: seq<Id>)
    requires !Dispatch(g, ok, s, batch).error
    ensures During(g, ok, s, batch, Dispatch(g, ok, s, batch).statuses)
  {
    assert batch[..|batch|] == batch;
    assert DuringAt(g, ok, s, batch, |batch|, Dispatch(g, ok, s, batch).statuses);
  }

  /** The run's last status map is one of those it visits. */
  lemma {:induction false} RunEndVisited(p: Plan, s: StatusMap)
    requires ValidPlan(p) && s.Keys == p.g.Keys
    ensures Visits(p, s, Run(p, s).statuses)
    decreases |ActiveIds(s)|
  {
    if Candidates(p, s) != {} {
      var batch := Batch(p, Candidates(p, s));
      RunStep(p, s);
      if p.failFast && !(Elems(batch) <= p.ok) {
        TurnExact(p, s);
        BatchEndVisited(p.g, p.ok, s, batch);
      } else {
        RunEndVisited(p, After(p.g, p.ok, s, Elems(batch)));
      }
    }
  }
}
