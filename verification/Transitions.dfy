/** The transition table against what the tracker does: every change of status in a run, a group
    run or a retry is an edge of the table, although the propagation of Blocked does not ask it. */
module Transitions {
  import opened Ordering
  import opened Reachability
  import opened Lifecycle
  import opened Tracker
  import opened Scheduler
  import opened RunTheorems
  import opened Orchestration
  import opened Arrangement
  import opened ArrangedRuns
  import opened Moments
  import opened History

  /** Every node whose status differs has moved along an edge of the table. */
  ghost predicate ByTable(s: StatusMap, t: StatusMap) {
    forall y :: y in s && y in t && t[y] != s[y] ==> ValidTransition(s[y], t[y])
  }

  // ----- propagation by itself -----

  /** Blocking the dependents of `x` follows the table exactly when none of them is Ready. */
  lemma PropagateByTable(g: Graph, s: StatusMap, x: Id)
    ensures ByTable(s, Propagate(g, s, x)) <==> forall y :: y in s && y in TransDependents(g, x) ==> !s[y].Ready?
  {
    var t := Propagate(g, s, x);
    forall y | y in s ensures t[y] != s[y] <==> y in TransDependents(g, x) && Active(s[y]) {
    }
    forall y | y in s && y in TransDependents(g, x) && s[y].Ready? ensures !ValidTransition(s[y], t[y]) {
    }
  }

  /** A Ready node above a Failed one, which a retry of a Pending or Blocked node can lead to. */
  lemma PropagateLeavesTable()
    ensures var g: Graph := map["a" := {}, "b" := {"a"}];
            var s := map["a" := Failed, "b" := Ready];
            Propagate(g, s, "a")["b"].Blocked? && !ByTable(s, Propagate(g, s, "a")) && !Safe(g, s)
  {
    var g: Graph := map["a" := {}, "b" := {"a"}];
    var s := map["a" := Failed, "b" := Ready];
    ReachesEdge(g, "b", "a");
    assert Propagate(g, s, "a")["b"].Blocked?;
    assert !Settled(g, s, "b");
  }

  /** In a safe state no Ready node depends on one that is not Completed. */
  lemma ReadyNotAbove(g: Graph, s: StatusMap, x: Id, y: Id)
    requires Safe(g, s) && x in s && !s[x].Completed? && y in s && s[y].Ready?
    ensures y !in TransDependents(g, x)
  {
    if y in TransDependents(g, x) {
      SettledDown(g, s, y, x);
    }
  }

  /** So from a safe state no run blocks a Ready node. */
  lemma RunKeepsReadyUnblocked(p: Plan, s: StatusMap, y: Id)
    requires ValidPlan(p) && Safe(p.g, s) && y in s && s[y].Ready?
    ensures !Run(p, s).statuses[y].Blocked?
  {
    RunIsOneDispatch(p, s);
    AfterKeepsReady(p.g, p.ok, s, Elems(ResultIds(Run(p, s).results)), y);
  }

  lemma AfterKeepsReady(g: Graph, ok: set<Id>, s: StatusMap, ran: set<Id>, y: Id)
    requires Safe(g, s) && ran <= ActiveIds(s) && y in s && s[y].Ready?
    ensures !After(g, ok, s, ran)[y].Blocked?
  {
    forall f | f in ran ensures !Reaches(g, y, f) {
      if Reaches(g, y, f) { SettledDown(g, s, y, f); }
    }
    assert !HitBy(g, ok, ran, y);
  }

  // ----- one change at a time, inside a dispatch -----

  /** From `u` to `v` the tracker changes one status while member `i` of the batch is up: it
      promotes it, starts it, writes its outcome, or blocks one more of its dependents. */
  ghost predicate ChangeAt(g: Graph, ok: set<Id>, s: StatusMap, batch: seq<Id>, i: nat, u: StatusMap, v: StatusMap)
    requires i < |batch|
  {
    || (!BeginAll(g, s, batch[..i]).error
        && BeginChange(g, BeginAll(g, s, batch[..i]).statuses, batch[i], u, v))
    || (!BeginAll(g, s, batch).error
        && OutcomeChange(g, ok, FinishAll(g, ok, BeginAll(g, s, batch).statuses, batch[..i]), batch[i], u, v))
  }

  ghost predicate Change(g: Graph, ok: set<Id>, s: StatusMap, batch: seq<Id>, u: StatusMap, v: StatusMap) {
    exists i :: 0 <= i < |batch| && ChangeAt(g, ok, s, batch, i, u, v)
  }

  /** `x` is promoted if it is Pending, and then started. */
  ghost predicate BeginChange(g: Graph, begun: StatusMap, x: Id, u: StatusMap, v: StatusMap) {
    CanBegin(g, begun, x) &&
    if begun[x].Pending?
    then (u == begun && v == begun[x := Ready]) || (u == begun[x := Ready] && v == u[x := InProgress])
    else u == begun && v == begun[x := InProgress]
  }

  /** The outcome of `x` is written, or, after a failure, one more dependent is blocked. */
  ghost predicate OutcomeChange(g: Graph, ok: set<Id>, t: StatusMap, x: Id, u: StatusMap, v: StatusMap) {
    || (u == t && v == t[x := Verdict(ok, x)])
    || (x !in ok && BlocksOne(g, t[x := Failed], x, u, v))
  }

  ghost predicate BlocksOne(g: Graph, t: StatusMap, x: Id, u: StatusMap, v: StatusMap) {
    exists hit, y :: BlockChange(g, t, x, hit, y, u, v)
  }

  ghost predicate BlockChange(g: Graph, t: StatusMap, x: Id, hit: set<Id>, y: Id, u: StatusMap, v: StatusMap) {
    hit + {y} <= TransDependents(g, x) && u == BlockSome(t, hit) && v == BlockSome(t, hit + {y})
  }

  lemma BlockByTable(g: Graph, t: StatusMap, x: Id, hit: set<Id>, y: Id, u: StatusMap, v: StatusMap)
    requires Safe(g, t) && x in t && t[x].Failed? && BlockChange(g, t, x, hit, y, u, v)
    ensures ByTable(u, v)
  {
    BlockSomeSafe(g, t, hit);
    forall z | z in u && z in v && v[z] != u[z] ensures ValidTransition(u[z], v[z]) {
      if u[z].Ready? { ReadyNotAbove(g, u, x, z); }
    }
  }

  lemma BeginByTable(g: Graph, begun: StatusMap, x: Id, u: StatusMap, v: StatusMap)
    requires BeginChange(g, begun, x, u, v)
    ensures ByTable(u, v)
  {
  }

  lemma OutcomeByTable(g: Graph, ok: set<Id>, t: StatusMap, x: Id, u: StatusMap, v: StatusMap)
    requires Safe(g, t) && x in t && t[x].InProgress? && OutcomeChange(g, ok, t, x, u, v)
    ensures ByTable(u, v)
  {
    if !(u == t && v == t[x := Verdict(ok, x)]) {
      var hit, y :| BlockChange(g, t[x := Failed], x, hit, y, u, v);
      VerdictSafe(g, ok, t, x);
      BlockByTable(g, t[x := Failed], x, hit, y, u, v);
    }
  }

  /** Dispatching nodes whose dependencies are done changes statuses along the table only. */
  lemma ChangeByTable(g: Graph, ok: set<Id>, s: StatusMap, batch: seq<Id>, u: StatusMap, v: StatusMap)
    requires Safe(g, s) && NoDup(batch) && Elems(batch) <= Eligible(g, s) && Change(g, ok, s, batch, u, v)
    ensures ByTable(u, v)
  {
    var i :| 0 <= i < |batch| && ChangeAt(g, ok, s, batch, i, u, v);
    if !BeginAll(g, s, batch[..i]).error && BeginChange(g, BeginAll(g, s, batch[..i]).statuses, batch[i], u, v) {
      BeginByTable(g, BeginAll(g, s, batch[..i]).statuses, batch[i], u, v);
    } else {
      EligibleBegins(g, s, batch);
      FinishingSafe(g, ok, s, batch, i);
      OutcomeByTable(g, ok, FinishAll(g, ok, BeginAll(g, s, batch).statuses, batch[..i]), batch[i], u, v);
    }
  }

  // ----- the changes join the moments -----

  lemma {:induction false} BeginSnoc(g: Graph, s: StatusMap, batch: seq<Id>, x: Id)
    ensures BeginAll(g, s, batch + [x]) ==
            var b := BeginAll(g, s, batch);
            if b.error then b else if CanBegin(g, b.statuses, x) then Begun(b.statuses[x := InProgress], false)
            else Begun(b.statuses, true)
    decreases |batch|
  {
    var all := batch + [x];
    if batch == [] {
      assert all == [x] && [x][1..] == [];
      assert BeginAll(g, s[x := InProgress], []) == Begun(s[x := InProgress], false);
    } else {
      assert all[0] == batch[0] && all[1..] == batch[1..] + [x];
      BeginSnoc(g, s[batch[0] := InProgress], batch[1..], x);
    }
  }

  lemma {:induction false} FinishSnoc(g: Graph, ok: set<Id>, s: StatusMap, batch: seq<Id>, x: Id)
    ensures FinishAll(g, ok, s, batch + [x]) == Finish(g, ok, FinishAll(g, ok, s, batch), x)
    decreases |batch|
  {
    var all := batch + [x];
    if batch == [] {
      assert all == [x] && [x][1..] == [];
      assert FinishAll(g, ok, Finish(g, ok, s, x), []) == Finish(g, ok, s, x);
    } else {
      assert all[0] == batch[0] && all[1..] == batch[1..] + [x];
      FinishSnoc(g, ok, Finish(g, ok, s, batch[0]), batch[1..], x);
    }
  }

  /** A walk: consecutive status maps are one change of the dispatch apart. */
  ghost predicate Walk(g: Graph, ok: set<Id>, s: StatusMap, batch: seq<Id>, w: seq<StatusMap>) {
    w != [] && forall k :: 0 <= k < |w| - 1 ==> Change(g, ok, s, batch, w[k], w[k + 1])
  }

  ghost predicate Leads(w: seq<StatusMap>, u: StatusMap, v: StatusMap) {
    w != [] && w[0] == u && w[|w| - 1] == v
  }

  lemma WalkOn(g: Graph, ok: set<Id>, s: StatusMap, batch: seq<Id>, w: seq<StatusMap>, v: StatusMap)
    requires Walk(g, ok, s, batch, w) && Change(g, ok, s, batch, w[|w| - 1], v)
    ensures Walk(g, ok, s, batch, w + [v]) && Leads(w + [v], w[0], v)
  {
    var all := w + [v];
    forall k | 0 <= k < |all| - 1 ensures Change(g, ok, s, batch, all[k], all[k + 1]) {
      if k < |w| - 1 { assert all[k] == w[k] && all[k + 1] == w[k + 1]; }
    }
  }

  lemma {:induction false} BeginWalk(g: Graph, ok: set<Id>, s: StatusMap, batch: seq<Id>, i: nat)
    returns (w: seq<StatusMap>)
    requires i <= |batch| && Dispatchable(g, s, batch)
    ensures Walk(g, ok, s, batch, w) && Leads(w, s, BeginAll(g, s, batch[..i]).statuses)
    ensures !BeginAll(g, s, batch[..i]).error
  {
    if i == 0 {
      w := [s];
    } else {
      var x, front := batch[i - 1], batch[..i - 1];
      w := BeginWalk(g, ok, s, batch, i - 1);
      assert batch[..i] == front + [x];
      BeginSnoc(g, s, front, x);
      PrefixDispatchable(g, s, batch, i);
      BeginAllExact(g, s, batch[..i]);
      var begun := BeginAll(g, s, front).statuses;
      if begun[x].Pending? {
        assert ChangeAt(g, ok, s, batch, i - 1, begun, begun[x := Ready]);
        WalkOn(g, ok, s, batch, w, begun[x := Ready]);
        w := w + [begun[x := Ready]];
      }
      var u := w[|w| - 1];
      assert u[x := InProgress] == begun[x := InProgress];
      assert ChangeAt(g, ok, s, batch, i - 1, u, begun[x := InProgress]);
      WalkOn(g, ok, s, batch, w, begun[x := InProgress]);
      w := w + [begun[x := InProgress]];
    }
  }

  lemma PrefixDispatchable(g: Graph, s: StatusMap, batch: seq<Id>, i: nat)
    requires i <= |batch| && Dispatchable(g, s, batch)
    ensures Dispatchable(g, s, batch[..i])
  {
    assert forall x :: x in batch[..i] ==> x in batch;
  }

  /** Blocking the dependents one by one ends as the propagation does. */
  lemma {:induction false} BlockWalk(g: Graph, ok: set<Id>, s: StatusMap, batch: seq<Id>, i: nat, hit: set<Id>,
                                     w: seq<StatusMap>) returns (r: seq<StatusMap>)
    requires i < |batch| && !BeginAll(g, s, batch).error && batch[i] !in ok
    requires hit <= TransDependents(g, batch[i]) && Walk(g, ok, s, batch, w)
    requires var t := FinishAll(g, ok, BeginAll(g, s, batch).statuses, batch[..i]);
             w[|w| - 1] == BlockSome(t[batch[i] := Failed], TransDependents(g, batch[i]) - hit)
    ensures Walk(g, ok, s, batch, r) && r[0] == w[0]
    ensures var t := FinishAll(g, ok, BeginAll(g, s, batch).statuses, batch[..i]);
            r[|r| - 1] == BlockSome(t[batch[i] := Failed], TransDependents(g, batch[i]))
    decreases |hit|
  {
    var x, all := batch[i], TransDependents(g, batch[i]);
    var t := FinishAll(g, ok, BeginAll(g, s, batch).statuses, batch[..i])[x := Failed];
    if hit == {} {
      assert all - hit == all;
      r := w;
    } else {
      var y :| y in hit;
      var v := BlockSome(t, all - (hit - {y}));
      assert all - (hit - {y}) == (all - hit) + {y};
      assert BlockChange(g, t, x, all - hit, y, w[|w| - 1], v);
      assert ChangeAt(g, ok, s, batch, i, w[|w| - 1], v);
      WalkOn(g, ok, s, batch, w, v);
      r := BlockWalk(g, ok, s, batch, i, hit - {y}, w + [v]);
    }
  }

  lemma BlockNone(s: StatusMap)
    ensures BlockSome(s, {}) == s
  {
  }

  lemma FinishIsBlock(g: Graph, ok: set<Id>, t: StatusMap, x: Id)
    ensures Finish(g, ok, t, x) ==
            if x in ok then t[x := Completed] else BlockSome(t[x := Failed], TransDependents(g, x))
  {
  }

  lemma {:induction false} FinishWalk(g: Graph, ok: set<Id>, s: StatusMap, batch: seq<Id>, i: nat)
    returns (w: seq<StatusMap>)
    requires i <= |batch| && Dispatchable(g, s, batch)
    ensures Walk(g, ok, s, batch, w) && Leads(w, s, FinishAll(g, ok, BeginAll(g, s, batch).statuses, batch[..i]))
  {
    BeginAllExact(g, s, batch);
    if i == 0 {
      w := BeginWalk(g, ok, s, batch, |batch|);
      assert batch[..|batch|] == batch;
    } else {
      var x, front := batch[i - 1], batch[..i - 1];
      w := FinishWalk(g, ok, s, batch, i - 1);
      assert batch[..i] == front + [x];
      FinishSnoc(g, ok, BeginAll(g, s, batch).statuses, front, x);
      var t := FinishAll(g, ok, BeginAll(g, s, batch).statuses, front);
      assert ChangeAt(g, ok, s, batch, i - 1, t, t[x := Verdict(ok, x)]);
      WalkOn(g, ok, s, batch, w, t[x := Verdict(ok, x)]);
      w := w + [t[x := Verdict(ok, x)]];
      FinishIsBlock(g, ok, t, x);
      if x !in ok {
        BlockNone(t[x := Failed]);
        assert TransDependents(g, x) - TransDependents(g, x) == {};
        w := BlockWalk(g, ok, s, batch, i - 1, TransDependents(g, x), w);
      }
    }
  }

  /** A dispatch is a walk of such changes from its first state to its last. */
  lemma DispatchWalk(g: Graph, ok: set<Id>, s: StatusMap, batch: seq<Id>) returns (w: seq<StatusMap>)
    requires Closed(g) && s.Keys == g.Keys && Dispatchable(g, s, batch)
    ensures Walk(g, ok, s, batch, w) && Leads(w, s, After(g, ok, s, Elems(batch)))
  {
    w := FinishWalk(g, ok, s, batch, |batch|);
    assert batch[..|batch|] == batch;
    BeginAllExact(g, s, batch);
    DispatchExact(g, ok, s, batch);
  }

  /** Both ends of a change are moments of the dispatch. */
  lemma ChangeMoments(g: Graph, ok: set<Id>, s: StatusMap, batch: seq<Id>, u: StatusMap, v: StatusMap)
    requires Change(g, ok, s, batch, u, v)
    ensures During(g, ok, s, batch, u) && During(g, ok, s, batch, v)
  {
    var i :| 0 <= i < |batch| && ChangeAt(g, ok, s, batch, i, u, v);
    var x := batch[i];
    if !BeginAll(g, s, batch[..i]).error && BeginChange(g, BeginAll(g, s, batch[..i]).statuses, x, u, v) {
      BeginMoments(g, ok, s, batch, i, u, v);
    } else {
      OutcomeMoments(g, ok, s, batch, i, u, v);
    }
  }

  lemma BeginMoments(g: Graph, ok: set<Id>, s: StatusMap, batch: seq<Id>, i: nat, u: StatusMap, v: StatusMap)
    requires i < |batch| && !BeginAll(g, s, batch[..i]).error
    requires BeginChange(g, BeginAll(g, s, batch[..i]).statuses, batch[i], u, v)
    ensures During(g, ok, s, batch, u) && During(g, ok, s, batch, v)
  {
    var x, begun := batch[i], BeginAll(g, s, batch[..i]).statuses;
    assert batch[..i + 1] == batch[..i] + [x];
    BeginSnoc(g, s, batch[..i], x);
    assert begun[x := Ready][x := InProgress] == begun[x := InProgress];
    assert DuringAt(g, ok, s, batch, i, u);
    if v == begun[x := InProgress] {
      assert DuringAt(g, ok, s, batch, i + 1, v);
    } else {
      assert DuringAt(g, ok, s, batch, i, v);
    }
  }

  lemma OutcomeMoments(g: Graph, ok: set<Id>, s: StatusMap, batch: seq<Id>, i: nat, u: StatusMap, v: StatusMap)
    requires i < |batch| && !BeginAll(g, s, batch).error
    requires OutcomeChange(g, ok, FinishAll(g, ok, BeginAll(g, s, batch).statuses, batch[..i]), batch[i], u, v)
    ensures During(g, ok, s, batch, u) && During(g, ok, s, batch, v)
  {
    var x, t := batch[i], FinishAll(g, ok, BeginAll(g, s, batch).statuses, batch[..i]);
    if u == t && v == t[x := Verdict(ok, x)] {
      BlockNone(v);
      assert WritingHit(g, ok, t, x, {}, v);
    } else {
      var hit, y :| BlockChange(g, t[x := Failed], x, hit, y, u, v);
      assert WritingHit(g, ok, t, x, hit, u) && WritingHit(g, ok, t, x, hit + {y}, v);
    }
    assert DuringAt(g, ok, s, batch, i, u) && DuringAt(g, ok, s, batch, i, v);
  }

  // ----- runs, retries, group runs and histories -----

  /** `u` to `v` is one change of some dispatch of the run. */
  ghost predicate RunChange(p: Plan, s: StatusMap, u: StatusMap, v: StatusMap)
    requires ValidPlan(p) && s.Keys == p.g.Keys
    decreases |ActiveIds(s)|
  {
    Candidates(p, s) != {} &&
    var batch := Batch(p, Candidates(p, s));
    RunStep(p, s);
    || Change(p.g, p.ok, s, batch, u, v)
    || (!(p.failFast && !(Elems(batch) <= p.ok)) && RunChange(p, After(p.g, p.ok, s, Elems(batch)), u, v))
  }

  /** Every change of a run from a safe state follows the table, and joins two of its moments. */
  lemma {:induction false} RunByTable(p: Plan, s: StatusMap, u: StatusMap, v: StatusMap)
    requires ValidPlan(p) && Safe(p.g, s) && RunChange(p, s, u, v)
    ensures ByTable(u, v) && Visits(p, s, u) && Visits(p, s, v)
    decreases |ActiveIds(s)|
  {
    var batch := Batch(p, Candidates(p, s));
    RunStep(p, s);
    BatchEligible(p, s);
    BatchNoDup(p, Candidates(p, s));
    if Change(p.g, p.ok, s, batch, u, v) {
      ChangeByTable(p.g, p.ok, s, batch, u, v);
      ChangeMoments(p.g, p.ok, s, batch, u, v);
    } else {
      AfterSafe(p.g, p.ok, s, Elems(batch));
      RunByTable(p, After(p.g, p.ok, s, Elems(batch)), u, v);
    }
  }

  ghost predicate SequentialChange(g: Graph, ok: set<Id>, failFast: bool, s: StatusMap, ids: seq<Id>, u: StatusMap,
                                   v: StatusMap)
    decreases |ids|
  {
    ids != [] && !Stale(s, ids[0]) &&
    if CanBegin(g, s, ids[0]) then
      || Change(g, ok, s, [ids[0]], u, v)
      || (!(failFast && ids[0] !in ok) && SequentialChange(g, ok, failFast, After(g, ok, s, {ids[0]}), ids[1..], u, v))
    else SequentialChange(g, ok, failFast, s, ids[1..], u, v)
  }

  ghost predicate ChunksChange(g: Graph, ok: set<Id>, failFast: bool, s: StatusMap, ids: seq<Id>, c: nat,
                               u: StatusMap, v: StatusMap)
    requires c > 0
    decreases |ids|
  {
    ids != [] &&
    var batch := Head(ids, c);
    || Change(g, ok, s, batch, u, v)
    || (Dispatchable(g, s, batch) && !(failFast && !(Elems(batch) <= ok))
        && ChunksChange(g, ok, failFast, After(g, ok, s, Elems(batch)), Tail(ids, c), c, u, v))
  }

  ghost predicate GroupChange(g: Graph, ok: set<Id>, failFast: bool, s: StatusMap, ids: seq<Id>, c: nat,
                              u: StatusMap, v: StatusMap)
  {
    if c <= 1 then SequentialChange(g, ok, failFast, s, ids, u, v)
    else ChunksChange(g, ok, failFast, s, StillActive(s, ids), c, u, v)
  }

  lemma {:induction false} SequentialByTable(g: Graph, ok: set<Id>, failFast: bool, s: StatusMap, ids: seq<Id>,
                                             u: StatusMap, v: StatusMap)
    requires Safe(g, s) && SequentialReady(g, ok, failFast, s, ids) && SequentialChange(g, ok, failFast, s, ids, u, v)
    ensures ByTable(u, v)
    ensures SequentialVisits(g, ok, failFast, s, ids, u) && SequentialVisits(g, ok, failFast, s, ids, v)
    decreases |ids|
  {
    if CanBegin(g, s, ids[0]) {
      OneResult(ok, ids[0]);
      assert {ids[0]} <= Eligible(g, s);
      if Change(g, ok, s, [ids[0]], u, v) {
        ChangeByTable(g, ok, s, [ids[0]], u, v);
        ChangeMoments(g, ok, s, [ids[0]], u, v);
      } else {
        AfterSafe(g, ok, s, {ids[0]});
        SequentialByTable(g, ok, failFast, After(g, ok, s, {ids[0]}), ids[1..], u, v);
      }
    } else {
      SequentialByTable(g, ok, failFast, s, ids[1..], u, v);
    }
  }

  lemma {:induction false} ChunksByTable(g: Graph, ok: set<Id>, failFast: bool, s: StatusMap, ids: seq<Id>, c: nat,
                                         u: StatusMap, v: StatusMap)
    requires Safe(g, s) && c > 0 && ChunksReady(g, ok, failFast, s, ids, c)
    requires !ParallelChunks(g, ok, failFast, s, ids, c).error && ChunksChange(g, ok, failFast, s, ids, c, u, v)
    ensures ByTable(u, v) && ChunksVisit(g, ok, failFast, s, ids, c, u) && ChunksVisit(g, ok, failFast, s, ids, c, v)
    decreases |ids|
  {
    var batch := Head(ids, c);
    ChunkTurn(g, ok, failFast, s, ids, c);
    ReadyEligible(g, s, batch);
    if Change(g, ok, s, batch, u, v) {
      ChangeByTable(g, ok, s, batch, u, v);
      ChangeMoments(g, ok, s, batch, u, v);
    } else {
      AfterSafe(g, ok, s, Elems(batch));
      ChunksByTable(g, ok, failFast, After(g, ok, s, Elems(batch)), Tail(ids, c), c, u, v);
    }
  }

  /** Likewise in a group that is ready and does not abort. */
  lemma GroupByTable(g: Graph, ok: set<Id>, failFast: bool, s: StatusMap, ids: seq<Id>, c: nat, u: StatusMap,
                     v: StatusMap)
    requires Safe(g, s) && GroupReady(g, ok, failFast, s, ids, c) && !GroupRun(g, ok, failFast, s, ids, c).error
    requires GroupChange(g, ok, failFast, s, ids, c, u, v)
    ensures ByTable(u, v) && GroupVisits(g, ok, failFast, s, ids, c, u) && GroupVisits(g, ok, failFast, s, ids, c, v)
  {
    if c <= 1 { SequentialByTable(g, ok, failFast, s, ids, u, v); }
    else { ChunksByTable(g, ok, failFast, s, StillActive(s, ids), c, u, v); }
  }

  /** Node `i` of a list is set back to Pending. */
  ghost predicate ResetChange(s: StatusMap, xs: seq<Id>, u: StatusMap, v: StatusMap) {
    exists i :: 0 <= i < |xs| && u == MadePending(s, Elems(xs[..i])) && v == MadePending(s, Elems(xs[..i + 1]))
  }

  ghost predicate MarkChange(s: StatusMap, xs: seq<Id>, u: StatusMap, v: StatusMap) {
    exists i :: 0 <= i < |xs| && u == MadeReady(s, Elems(xs[..i])) && v == MadeReady(s, Elems(xs[..i + 1]))
  }

  /** `u` to `v` is one change of the command. */
  ghost predicate CommandChange(g: Graph, s: StatusMap, c: Command, u: StatusMap, v: StatusMap)
    requires Closed(g) && s.Keys == g.Keys && ValidCommand(g, s, c)
  {
    match c
    case RunCommand(topo, _, _, _, _) => topo.Some? && RunChange(RunPlan(g, s, c), s, u, v)
    case RetryCommand(node, all, topo, _) =>
      var xs := RetrySelection(s, node, all);
      || MarkChange(s, xs, u, v)
      || (xs != [] && topo.Some? && RunChange(RetryPlan(g, s, c), RetryStart(s, c), u, v))
    case ResetCommand(keepCompleted) => ResetChange(s, ResetOrder(s, keepCompleted), u, v)
    case ResetNodeCommand(x) => x in s && u == s && v == s[x := Pending]
    case GroupCommand(_, _, limit, failFast, ok) =>
      var group := TargetOf(c);
      group.Some? && GroupChange(g, ok, failFast, s, group.value.nodes, Concurrency(group.value, limit), u, v)
  }

  lemma MarkByTable(s: StatusMap, xs: seq<Id>, u: StatusMap, v: StatusMap)
    requires MarkChange(s, xs, u, v) && Elems(xs) <= WithStatus(s, Failed)
    ensures ByTable(u, v)
  {
    var i :| 0 <= i < |xs| && u == MadeReady(s, Elems(xs[..i])) && v == MadeReady(s, Elems(xs[..i + 1]));
    assert xs[..i + 1] == xs[..i] + [xs[i]];
    assert Elems(xs[..i + 1]) == Elems(xs[..i]) + {xs[i]};
    assert xs[i] in Elems(xs);
  }

  lemma RetryByTable(g: Graph, s: StatusMap, c: Command, u: StatusMap, v: StatusMap)
    requires AtRest(g, s) && c.RetryCommand? && ValidCommand(g, s, c) && CommandChange(g, s, c, u, v)
    ensures ByTable(u, v)
  {
    var xs := RetrySelection(s, c.node, c.allFailed);
    if MarkChange(s, xs, u, v) {
      RetrySelectionFailed(s, c.node, c.allFailed);
      MarkByTable(s, xs, u, v);
    } else {
      RetryStartAtRest(g, s, c);
      RunByTable(RetryPlan(g, s, c), RetryStart(s, c), u, v);
    }
  }

  lemma GroupCommandByTable(g: Graph, s: StatusMap, c: Command, u: StatusMap, v: StatusMap)
    requires AtRest(g, s) && c.GroupCommand? && ValidCommand(g, s, c) && CommandChange(g, s, c, u, v)
    ensures ByTable(u, v)
  {
    var group := TargetOf(c).value;
    GroupCommandKeys(g, s, c);
    GroupCommandReady(g, s, c);
    GroupByTable(g, c.ok, c.failFast, s, group.nodes, Concurrency(group, c.limit), u, v);
  }

  /** Every change that a run, a retry or a group run makes, started between two commands, is an
      edge of the table. */
  lemma CommandByTable(g: Graph, s: StatusMap, c: Command, u: StatusMap, v: StatusMap)
    requires AtRest(g, s) && ValidCommand(g, s, c) && CommandChange(g, s, c, u, v)
    requires !c.ResetCommand? && !c.ResetNodeCommand?
    ensures ByTable(u, v)
  {
    match c
    case RunCommand(_, _, _, _, _) => RunByTable(RunPlan(g, s, c), s, u, v);
    case RetryCommand(_, _, _, _) => RetryByTable(g, s, c, u, v);
    case GroupCommand(_, _, _, _, _) => GroupCommandByTable(g, s, c, u, v);
  }

  /** No edge leads to Pending, so a reset leaves the table unless it changes nothing. */
  lemma ResetByTable(s: StatusMap, x: Id)
    requires x in s
    ensures ByTable(s, s[x := Pending]) <==> s[x].Pending?
  {
    var t := s[x := Pending];
    assert !s[x].Pending? ==> t[x] != s[x] && !ValidTransition(s[x], t[x]);
  }

  /** `u` to `v` is one change of some command of the history that is not a reset. */
  ghost predicate HistoryChange(g: Graph, s: StatusMap, cs: seq<Command>, u: StatusMap, v: StatusMap)
    requires Closed(g) && s.Keys == g.Keys && ValidHistory(g, s, cs)
    decreases |cs|
  {
    cs != [] &&
    (|| (!cs[0].ResetCommand? && !cs[0].ResetNodeCommand? && CommandChange(g, s, cs[0], u, v))
     || HistoryChange(g, Apply(g, s, cs[0]), cs[1..], u, v))
  }

  lemma {:induction false} HistoryByTableFrom(g: Graph, s: StatusMap, cs: seq<Command>, u: StatusMap, v: StatusMap)
    requires AtRest(g, s) && ValidHistory(g, s, cs) && HistoryChange(g, s, cs, u, v)
    ensures ByTable(u, v)
    decreases |cs|
  {
    if !cs[0].ResetCommand? && !cs[0].ResetNodeCommand? && CommandChange(g, s, cs[0], u, v) {
      CommandByTable(g, s, cs[0], u, v);
    } else {
      ApplySafe(g, s, cs[0]);
      HistoryByTableFrom(g, Apply(g, s, cs[0]), cs[1..], u, v);
    }
  }

  /** Over every history from a fresh file, every status change of a run, a retry or a group run is
      an edge of the transition table. */
  lemma HistoryByTable(file: seq<FileNode>, cs: seq<Command>, u: StatusMap, v: StatusMap)
    requires ValidHistory(BuildGraph(file), StatusesOf(FreshStates(file)), cs)
    requires HistoryChange(BuildGraph(file), StatusesOf(FreshStates(file)), cs, u, v)
    ensures ByTable(u, v)
  {
    FreshSafe(file);
    HistoryByTableFrom(BuildGraph(file), StatusesOf(FreshStates(file)), cs, u, v);
  }

  // ----- a whole run as one walk -----

  ghost predicate RunWalk(p: Plan, s: StatusMap, w: seq<StatusMap>)
    requires ValidPlan(p) && s.Keys == p.g.Keys
  {
    w != [] && forall k :: 0 <= k < |w| - 1 ==> RunChange(p, s, w[k], w[k + 1])
  }

  lemma RunWalkFirst(p: Plan, s: StatusMap, w: seq<StatusMap>)
    requires ValidPlan(p) && s.Keys == p.g.Keys && Candidates(p, s) != {}
    requires Walk(p.g, p.ok, s, Batch(p, Candidates(p, s)), w)
    ensures RunWalk(p, s, w)
  {
    forall k | 0 <= k < |w| - 1 ensures RunChange(p, s, w[k], w[k + 1]) {
    }
  }

  lemma RunWalkRest(p: Plan, s: StatusMap, w: seq<StatusMap>)
    requires ValidPlan(p) && s.Keys == p.g.Keys && Candidates(p, s) != {}
    requires var batch := Batch(p, Candidates(p, s));
             var t := After(p.g, p.ok, s, Elems(batch));
             !(p.failFast && !(Elems(batch) <= p.ok)) && t.Keys == p.g.Keys && RunWalk(p, t, w)
    ensures RunWalk(p, s, w)
  {
    forall k | 0 <= k < |w| - 1 ensures RunChange(p, s, w[k], w[k + 1]) {
    }
  }

  lemma RunWalkJoin(p: Plan, s: StatusMap, a: seq<StatusMap>, b: seq<StatusMap>)
    requires ValidPlan(p) && s.Keys == p.g.Keys && RunWalk(p, s, a) && RunWalk(p, s, b) && a[|a| - 1] == b[0]
    ensures RunWalk(p, s, a + b[1..]) && Leads(a + b[1..], a[0], b[|b| - 1])
  {
    var w := a + b[1..];
    forall k | 0 <= k < |w| - 1 ensures RunChange(p, s, w[k], w[k + 1]) {
      if k < |a| - 1 { assert w[k] == a[k] && w[k + 1] == a[k + 1]; }
      else {
        var m := k - (|a| - 1);
        assert w[k] == b[m] && w[k + 1] == b[m + 1];
      }
    }
  }

  /** A whole run is a walk of such changes, from the state it starts in to the one it ends in. */
  lemma {:induction false} RunIsWalk(p: Plan, s: StatusMap) returns (w: seq<StatusMap>)
    requires ValidPlan(p) && s.Keys == p.g.Keys
    ensures RunWalk(p, s, w) && Leads(w, s, Run(p, s).statuses)
    decreases |ActiveIds(s)|
  {
    if Candidates(p, s) == {} {
      w := [s];
    } else {
      var batch := Batch(p, Candidates(p, s));
      var t := After(p.g, p.ok, s, Elems(batch));
      RunStep(p, s);
      CandidatesDispatchable(p, s);
      w := DispatchWalk(p.g, p.ok, s, batch);
      RunWalkFirst(p, s, w);
      if !(p.failFast && !(Elems(batch) <= p.ok)) {
        var rest := RunIsWalk(p, t);
        RunWalkRest(p, s, rest);
        RunWalkJoin(p, s, w, rest);
        w := w + rest[1..];
      }
    }
  }
}
