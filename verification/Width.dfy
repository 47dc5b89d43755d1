/** How many nodes run at once: never more than a run's limit, a retry's one, or what the strategy
    of a group allows, and at some moment as many as that, if there are as many to run. */
module Width {
  import opened Ordering
  import opened Reachability
  import opened Lifecycle
  import opened Scheduler
  import opened Groups
  import opened Orchestration
  import opened GroupTheorems
  import opened Moments
  import opened History

  /** The nodes that are InProgress in `u` and were not in `s`. */
  function Running(s: StatusMap, u: StatusMap): set<Id> {
    set x | x in u && u[x].InProgress? && !(x in s && s[x].InProgress?)
  }

  function AtLeastOne(n: nat): nat {
    if n > 1 then n else 1
  }

  // ----- inside a dispatch -----

  lemma {:induction false} BeginAllRunning(g: Graph, s: StatusMap, batch: seq<Id>)
    ensures Running(s, BeginAll(g, s, batch).statuses) <= Elems(batch)
  {
    if batch != [] && CanBegin(g, s, batch[0]) {
      var t := s[batch[0] := InProgress];
      BeginAllRunning(g, t, batch[1..]);
      assert batch == [batch[0]] + batch[1..];
      forall x | x in Running(s, BeginAll(g, s, batch).statuses) ensures x in Elems(batch) {
        assert x == batch[0] || x in Running(t, BeginAll(g, t, batch[1..]).statuses);
        assert x == batch[0] || x in Elems(batch[1..]);
      }
    }
  }

  lemma {:induction false} FinishAllRunning(g: Graph, ok: set<Id>, s: StatusMap, batch: seq<Id>)
    ensures Running(s, FinishAll(g, ok, s, batch)) == {}
    decreases |batch|
  {
    if batch != [] {
      var t := Finish(g, ok, s, batch[0]);
      FinishAllRunning(g, ok, t, batch[1..]);
      RunningTrans(s, t, FinishAll(g, ok, t, batch[1..]));
      assert Running(s, t) == {};
    }
  }

  lemma RunningTrans(s: StatusMap, t: StatusMap, u: StatusMap)
    ensures Running(s, u) <= Running(s, t) + Running(t, u)
  {
  }

  lemma AfterRunning(g: Graph, ok: set<Id>, s: StatusMap, batch: set<Id>)
    ensures Running(s, After(g, ok, s, batch)) == {}
  {
  }

  lemma WritingRunning(g: Graph, ok: set<Id>, s: StatusMap, x: Id, u: StatusMap)
    requires Writing(g, ok, s, x, u)
    ensures Running(s, u) == {}
  {
    var hit :| WritingHit(g, ok, s, x, hit, u);
  }

  /** While a batch is dispatched no other nodes enter InProgress than its members. */
  lemma DuringRunning(g: Graph, ok: set<Id>, s: StatusMap, batch: seq<Id>, u: StatusMap)
    requires During(g, ok, s, batch, u)
    ensures Running(s, u) <= Elems(batch) && |Running(s, u)| <= |batch|
  {
    var i :| 0 <= i <= |batch| && DuringAt(g, ok, s, batch, i, u);
    var begun, all := BeginAll(g, s, batch[..i]).statuses, BeginAll(g, s, batch).statuses;
    var done := FinishAll(g, ok, all, batch[..i]);
    BeginAllRunning(g, s, batch[..i]);
    BeginAllRunning(g, s, batch);
    FinishAllRunning(g, ok, all, batch[..i]);
    RunningTrans(s, all, done);
    assert Elems(batch[..i]) <= Elems(batch);
    if u != begun && u != done {
      if i < |batch| && u == begun[batch[i] := Ready] {
        assert Running(s, u) <= Running(s, begun);
      } else {
        WritingRunning(g, ok, done, batch[i], u);
        RunningTrans(s, done, u);
      }
    }
    ElemsSize(batch);
    SubsetSize(Running(s, u), Elems(batch));
  }

  /** When a batch can begin there is a moment when all of it runs. */
  lemma AllBegun(g: Graph, ok: set<Id>, s: StatusMap, batch: seq<Id>)
    requires Dispatchable(g, s, batch)
    ensures During(g, ok, s, batch, Started(s, Elems(batch)))
    ensures |Running(s, Started(s, Elems(batch)))| == |batch|
  {
    var u := Started(s, Elems(batch));
    assert batch[..|batch|] == batch;
    BeginAllExact(g, s, batch);
    assert DuringAt(g, ok, s, batch, |batch|, u);
    forall x | x in Elems(batch) ensures x in Running(s, u) {
      assert CanBegin(g, s, x);
    }
    assert Running(s, u) == Elems(batch);
    NoDupSize(batch);
  }

  // ----- runs -----

  lemma {:induction false} VisitsWidth(p: Plan, s: StatusMap, u: StatusMap)
    requires ValidPlan(p) && s.Keys == p.g.Keys && Visits(p, s, u)
    ensures |Running(s, u)| <= AtLeastOne(p.limit)
    decreases |ActiveIds(s)|
  {
    if Candidates(p, s) == {} {
      assert Running(s, u) == {};
    } else {
      var batch := Batch(p, Candidates(p, s));
      RunStep(p, s);
      if During(p.g, p.ok, s, batch, u) {
        DuringRunning(p.g, p.ok, s, batch, u);
      } else {
        var t := After(p.g, p.ok, s, Elems(batch));
        VisitsWidth(p, t, u);
        AfterRunning(p.g, p.ok, s, Elems(batch));
        RunningTrans(s, t, u);
        SubsetSize(Running(s, u), Running(t, u));
      }
    }
  }

  /** A run has at most its limit of nodes running at any moment, and reaches it at once if there
      are as many candidates. */
  lemma RunWidth(p: Plan, s: StatusMap)
    requires ValidPlan(p) && s.Keys == p.g.Keys
    ensures forall u :: Visits(p, s, u) ==> |Running(s, u)| <= if p.limit > 1 then p.limit else 1
    ensures Candidates(p, s) != {} ==>
      exists u :: Visits(p, s, u) &&
        |Running(s, u)| == Min(if p.limit > 1 then p.limit else 1, |Candidates(p, s)|)
  {
    forall u | Visits(p, s, u) ensures |Running(s, u)| <= AtLeastOne(p.limit) {
      VisitsWidth(p, s, u);
    }
    if Candidates(p, s) != {} {
      var batch := Batch(p, Candidates(p, s));
      CandidatesDispatchable(p, s);
      AllBegun(p.g, p.ok, s, batch);
      assert |batch| == Min(AtLeastOne(p.limit), |Candidates(p, s)|);
      assert Visits(p, s, Started(s, Elems(batch)));
    }
  }

  // ----- groups -----

  lemma {:induction false} SequentialWidth(g: Graph, ok: set<Id>, failFast: bool, s: StatusMap, ids: seq<Id>,
                                           u: StatusMap)
    requires SequentialVisits(g, ok, failFast, s, ids, u)
    ensures |Running(s, u)| <= 1
    decreases |ids|
  {
    if ids == [] || (!CanBegin(g, s, ids[0]) && Stale(s, ids[0])) {
      assert Running(s, u) == {};
    } else if !CanBegin(g, s, ids[0]) {
      SequentialWidth(g, ok, failFast, s, ids[1..], u);
    } else if During(g, ok, s, [ids[0]], u) {
      DuringRunning(g, ok, s, [ids[0]], u);
    } else {
      var t := After(g, ok, s, {ids[0]});
      SequentialWidth(g, ok, failFast, t, ids[1..], u);
      AfterRunning(g, ok, s, {ids[0]});
      RunningTrans(s, t, u);
      SubsetSize(Running(s, u), Running(t, u));
    }
  }

  lemma {:induction false} ChunksWidth(g: Graph, ok: set<Id>, failFast: bool, s: StatusMap, ids: seq<Id>, c: nat,
                                       u: StatusMap)
    requires c > 0 && ChunksVisit(g, ok, failFast, s, ids, c, u)
    ensures |Running(s, u)| <= c
    decreases |ids|
  {
    if ids == [] {
      assert Running(s, u) == {};
    } else {
      var batch := Head(ids, c);
      if During(g, ok, s, batch, u) {
        DuringRunning(g, ok, s, batch, u);
      } else {
        var t := After(g, ok, s, Elems(batch));
        ChunksWidth(g, ok, failFast, t, Tail(ids, c), c, u);
        AfterRunning(g, ok, s, Elems(batch));
        RunningTrans(s, t, u);
        SubsetSize(Running(s, u), Running(t, u));
      }
    }
  }

  /** How many members of a group may run at once: one of a sequential group, and of a parallel
      one its own maximum, or the run's limit if it has none. */
  function Allowed(group: Group, limit: nat): nat {
    match group.strategy
    case Sequential => 1
    case Parallel => AtLeastOne(if group.maxConcurrency.Some? then group.maxConcurrency.value else limit)
  }

  ghost predicate GroupMoment(g: Graph, ok: set<Id>, failFast: bool, s: StatusMap, group: Group, limit: nat,
                              u: StatusMap)
  {
    GroupVisits(g, ok, failFast, s, group.nodes, Concurrency(group, limit), u)
  }

  lemma GroupWidth(g: Graph, ok: set<Id>, failFast: bool, s: StatusMap, group: Group, limit: nat, u: StatusMap)
    requires GroupMoment(g, ok, failFast, s, group, limit, u)
    ensures |Running(s, u)| <= Allowed(group, limit)
  {
    var c := Concurrency(group, limit);
    if c <= 1 {
      SequentialWidth(g, ok, failFast, s, group.nodes, u);
    } else {
      ChunksWidth(g, ok, failFast, s, StillActive(s, group.nodes), c, u);
    }
  }

  lemma StillActiveNoDup(s: StatusMap, ids: seq<Id>)
    requires NoDup(ids)
    ensures NoDup(StillActive(s, ids))
    ensures forall x :: x in StillActive(s, ids) ==> x in s && Active(s[x])
  {
    KeepNoDup(ids, ActiveIds(s));
    forall x | x in StillActive(s, ids) ensures x in s && Active(s[x]) {
      assert x in Elems(StillActive(s, ids));
    }
  }

  /** A parallel group with distinct members starts as many of its active ones at once as it may. */
  lemma GroupFull(g: Graph, ok: set<Id>, failFast: bool, s: StatusMap, group: Group, limit: nat)
    requires s.Keys == g.Keys && group.strategy.Parallel? && Allowed(group, limit) > 1 && NoDup(group.nodes)
    requires StillActive(s, group.nodes) != []
    ensures exists u :: GroupMoment(g, ok, failFast, s, group, limit, u) &&
              |Running(s, u)| == Min(Allowed(group, limit), |StillActive(s, group.nodes)|)
  {
    var c, ids := Concurrency(group, limit), StillActive(s, group.nodes);
    var batch := Head(ids, c);
    HeadTail(ids, c);
    StillActiveNoDup(s, group.nodes);
    NoDupSplit(ids, c);
    forall x | x in batch ensures CanBegin(g, s, x) {
      assert x in ids;
    }
    AllBegun(g, ok, s, batch);
    assert GroupMoment(g, ok, failFast, s, group, limit, Started(s, Elems(batch)));
  }

  // ----- commands -----

  /** At every moment of a command: a run keeps to its limit, a retry to one node, a group to its
      strategy, and a reset runs nothing. */
  lemma CommandWidth(g: Graph, s: StatusMap, c: Command, u: StatusMap)
    requires Closed(g) && s.Keys == g.Keys && ValidCommand(g, s, c) && Moment(g, s, c, u)
    ensures c.RunCommand? ==> |Running(s, u)| <= if c.limit > 1 then c.limit else 1
    ensures c.RetryCommand? ==> |Running(s, u)| <= 1
    ensures c.ResetCommand? || c.ResetNodeCommand? ==> Running(s, u) == {}
    ensures c.GroupCommand? ==>
              if TargetOf(c).None? then Running(s, u) == {} else |Running(s, u)| <= Allowed(TargetOf(c).value, c.limit)
  {
    match c
    case RunCommand(topo, _, _, _, _) =>
      if topo.None? { assert Running(s, u) == {}; } else { VisitsWidth(RunPlan(g, s, c), s, u); }
    case RetryCommand(_, _, _, _) => RetryWidth(g, s, c, u);
    case ResetCommand(_) =>
    case ResetNodeCommand(_) =>
    case GroupCommand(_, _, limit, failFast, ok) =>
      if TargetOf(c).Some? { GroupWidth(g, ok, failFast, s, TargetOf(c).value, limit, u); }
  }

  lemma MadeReadyRuns(s: StatusMap, xs: set<Id>)
    ensures Running(s, MadeReady(s, xs)) == {}
  {
  }

  lemma RetryRunWidth(p: Plan, s: StatusMap, t: StatusMap, u: StatusMap)
    requires ValidPlan(p) && t.Keys == p.g.Keys && p.limit == 1 && Visits(p, t, u) && Running(s, t) == {}
    ensures |Running(s, u)| <= 1
  {
    VisitsWidth(p, t, u);
    RunningTrans(s, t, u);
    SubsetSize(Running(s, u), Running(t, u));
  }

  lemma RetryWidth(g: Graph, s: StatusMap, c: Command, u: StatusMap)
    requires Closed(g) && s.Keys == g.Keys && c.RetryCommand? && ValidCommand(g, s, c) && Moment(g, s, c, u)
    ensures |Running(s, u)| <= 1
  {
    var xs := RetrySelection(s, c.node, c.allFailed);
    MadeReadyRuns(s, Elems(xs));
    if c.topo.Some? && Visits(RetryPlan(g, s, c), RetryStart(s, c), u) {
      RetryRunWidth(RetryPlan(g, s, c), s, RetryStart(s, c), u);
    } else {
      var i :| 0 <= i <= |xs| && u == MadeReady(s, Elems(xs[..i]));
      MadeReadyRuns(s, Elems(xs[..i]));
    }
  }
}
