/** What every topological run guarantees: one final map whatever the schedule,
    agreement with the dry run, conservation of results, and target runs. */
module RunTheorems {
  import opened Options
  import opened Ordering
  import opened Reachability
  import opened Lifecycle
  import opened Tracker
  import opened Scheduler

  // ----- schedule independence -----

  lemma FreshRunInv(file: seq<FileNode>, ok: set<Id>)
    ensures RunInv(BuildGraph(file), ok, StatusesOf(FreshStates(file)))
  {
    var g, s := BuildGraph(file), StatusesOf(FreshStates(file));
    FreshSafe(file);
    forall x | x in s ensures Explained(g, ok, s, x) {
    }
  }

  lemma FreshSafe(file: seq<FileNode>)
    ensures Safe(BuildGraph(file), StatusesOf(FreshStates(file)))
    ensures forall x :: x in Ids(file) ==> Active(FreshStates(file)[x].status)
  {
    var g, s := BuildGraph(file), StatusesOf(FreshStates(file));
    forall x | x in s ensures s[x].Pending? || Settled(g, s, x) {
    }
  }

  /** A schedule: each entry is a nonempty set of nodes that are eligible at its turn. */
  ghost predicate Legal(g: Graph, ok: set<Id>, s: StatusMap, schedule: seq<set<Id>>) {
    schedule == [] ||
    (schedule[0] != {} && schedule[0] <= Eligible(g, s) && Legal(g, ok, After(g, ok, s, schedule[0]), schedule[1..]))
  }

  ghost function Replay(g: Graph, ok: set<Id>, s: StatusMap, schedule: seq<set<Id>>): StatusMap {
    if schedule == [] then s else Replay(g, ok, After(g, ok, s, schedule[0]), schedule[1..])
  }

  /** However the nodes are batched, a schedule that leaves nothing eligible ends in FinalMap. */
  lemma {:induction false} AnySchedule(g: Graph, order: seq<Id>, ok: set<Id>, s: StatusMap, schedule: seq<set<Id>>)
    requires IsTopologicalOrder(g, order) && RunInv(g, ok, s) && Legal(g, ok, s, schedule)
    requires Eligible(g, Replay(g, ok, s, schedule)) == {}
    ensures Replay(g, ok, s, schedule) == FinalMap(g, ok)
    decreases |schedule|
  {
    if schedule == [] {
      QuiescentIsFinal(g, order, ok, s);
    } else {
      AfterRunInv(g, ok, s, schedule[0]);
      AnySchedule(g, order, ok, After(g, ok, s, schedule[0]), schedule[1..]);
    }
  }

  lemma BatchEligible(p: Plan, s: StatusMap)
    requires Candidates(p, s) != {}
    ensures Elems(Batch(p, Candidates(p, s))) <= Eligible(p.g, s)
  {
  }

  /** An unrestricted run ends in FinalMap at every concurrency. */
  lemma {:induction false} RunReachesFinal(p: Plan, s: StatusMap)
    requires ValidPlan(p) && RunInv(p.g, p.ok, s) && p.scope.None? && !p.failFast
    ensures Run(p, s).statuses == FinalMap(p.g, p.ok)
    decreases |ActiveIds(s)|
  {
    if Candidates(p, s) == {} {
      QuiescentIsFinal(p.g, p.topo, p.ok, s);
    } else {
      var batch := Elems(Batch(p, Candidates(p, s)));
      RunStep(p, s);
      BatchEligible(p, s);
      AfterRunInv(p.g, p.ok, s, batch);
      RunReachesFinal(p, After(p.g, p.ok, s, batch));
    }
  }

  lemma ScheduleIndependence(file: seq<FileNode>, topo: seq<Id>, limit: nat, ok: set<Id>)
    requires IsTopologicalOrder(BuildGraph(file), topo)
    ensures Run(Plan(BuildGraph(file), topo, limit, false, None, ok), StatusesOf(FreshStates(file))).statuses
            == FinalMap(BuildGraph(file), ok)
  {
    FreshRunInv(file, ok);
    RunReachesFinal(Plan(BuildGraph(file), topo, limit, false, None, ok), StatusesOf(FreshStates(file)));
  }

  // ----- what one run did, in closed form -----

  lemma AfterCompose(g: Graph, ok: set<Id>, s: StatusMap, a: set<Id>, b: set<Id>)
    requires a <= ActiveIds(s) && b <= ActiveIds(After(g, ok, s, a))
    ensures After(g, ok, After(g, ok, s, a), b) == After(g, ok, s, a + b)
    ensures a !! b && a + b <= ActiveIds(s)
  {
    var t := After(g, ok, s, a);
    forall y | y in s ensures After(g, ok, t, b)[y] == After(g, ok, s, a + b)[y] {
      assert HitBy(g, ok, a + b, y) <==> HitBy(g, ok, a, y) || HitBy(g, ok, b, y);
    }
  }

  ghost function ResultIds(rs: seq<NodeResult>): seq<Id> {
    seq(|rs|, i requires 0 <= i < |rs| => rs[i].id)
  }

  /** `out` is what one dispatch of distinct, active nodes in scope would do to `s`. */
  ghost predicate OneDispatch(p: Plan, s: StatusMap, out: RunOutcome) {
    var ids := ResultIds(out.results);
    && NoDup(ids)
    && out.results == Results(p.ok, ids)
    && Elems(ids) <= InScope(p.scope, ActiveIds(s))
    && out.statuses == After(p.g, p.ok, s, Elems(ids))
  }

  lemma OneDispatchCompose(p: Plan, s: StatusMap, batch: seq<Id>, out: RunOutcome)
    requires NoDup(batch) && Elems(batch) <= InScope(p.scope, ActiveIds(s))
    requires OneDispatch(p, After(p.g, p.ok, s, Elems(batch)), out)
    ensures OneDispatch(p, s, RunOutcome(out.statuses, Results(p.ok, batch) + out.results))
  {
    var rest := ResultIds(out.results);
    var ids := ResultIds(Results(p.ok, batch) + out.results);
    assert ids == batch + rest;
    AfterCompose(p.g, p.ok, s, Elems(batch), Elems(rest));
    NoDupConcat(batch, rest);
  }

  /** A whole run is one dispatch of the nodes it executed: nobody runs twice, only active
      nodes in scope run, and the rest of the map is what their failures make of it. */
  lemma {:induction false} RunIsOneDispatch(p: Plan, s: StatusMap)
    requires ValidPlan(p) && s.Keys == p.g.Keys
    ensures OneDispatch(p, s, Run(p, s))
    decreases |ActiveIds(s)|
  {
    if Candidates(p, s) == {} {
      EmptyDispatch(p, s);
    } else {
      var batch := Batch(p, Candidates(p, s));
      var t := After(p.g, p.ok, s, Elems(batch));
      RunStep(p, s);
      BatchNoDup(p, Candidates(p, s));
      if p.failFast && !(Elems(batch) <= p.ok) {
        EmptyDispatch(p, t);
        OneDispatchCompose(p, s, batch, RunOutcome(t, []));
      } else {
        RunIsOneDispatch(p, t);
        OneDispatchCompose(p, s, batch, Run(p, t));
      }
    }
  }

  lemma EmptyDispatch(p: Plan, s: StatusMap)
    ensures OneDispatch(p, s, RunOutcome(s, []))
  {
    assert Elems(ResultIds([])) == {};
    assert After(p.g, p.ok, s, {}) == s;
  }

  // ----- conservation -----

  lemma SplitExtend(a: set<Id>, ok: set<Id>, x: Id)
    requires x !in a
    ensures |(a + {x}) * ok| == |a * ok| + if x in ok then 1 else 0
    ensures |(a + {x}) - ok| == |a - ok| + if x in ok then 0 else 1
  {
    assert (a + {x}) * ok == if x in ok then a * ok + {x} else a * ok;
    assert (a + {x}) - ok == if x in ok then a - ok else (a - ok) + {x};
  }

  lemma SplitCons(ids: seq<Id>, ok: set<Id>)
    requires ids != [] && NoDup(ids)
    ensures |Elems(ids) * ok| == |Elems(ids[1..]) * ok| + if ids[0] in ok then 1 else 0
    ensures |Elems(ids) - ok| == |Elems(ids[1..]) - ok| + if ids[0] in ok then 0 else 1
  {
    var x, rest := ids[0], Elems(ids[1..]);
    assert ids == [x] + ids[1..];
    NoDupTail(ids);
    assert Elems(ids) == rest + {x};
    SplitExtend(rest, ok, x);
  }

  lemma {:induction false} ResultCounts(ok: set<Id>, ids: seq<Id>)
    requires NoDup(ids)
    ensures CountStatus(Results(ok, ids), Completed) == |Elems(ids) * ok|
    ensures CountStatus(Results(ok, ids), Failed) == |Elems(ids) - ok|
  {
    if ids != [] {
      ResultCounts(ok, ids[1..]);
      SplitCons(ids, ok);
      assert Results(ok, ids)[1..] == Results(ok, ids[1..]);
    }
  }

  /** In every run, executed = succeeded + failed, and no node has two results. */
  lemma RunConserves(p: Plan, s: StatusMap, r: RunReport)
    requires ValidPlan(p) && s.Keys == p.g.Keys
    requires ReportOf(Run(p, s).statuses, Run(p, s).results, r)
    ensures r.executed == r.succeeded + r.failed
    ensures NoDup(ResultIds(r.nodeResults))
  {
    RunIsOneDispatch(p, s);
    var ids := ResultIds(r.nodeResults);
    ResultCounts(p.ok, ids);
    NoDupSize(ids);
    assert Elems(ids) == (Elems(ids) * p.ok) + (Elems(ids) - p.ok);
  }

  /** What a fresh unrestricted run executed is what FinalMap leaves Completed or Failed. */
  lemma FreshRan(file: seq<FileNode>, ok: set<Id>, ran: set<Id>)
    requires FinalMap(BuildGraph(file), ok) == After(BuildGraph(file), ok, StatusesOf(FreshStates(file)), ran)
    requires ran <= Ids(file)
    ensures WithStatus(FinalMap(BuildGraph(file), ok), Completed) == ran * ok
    ensures WithStatus(FinalMap(BuildGraph(file), ok), Failed) == ran - ok
  {
    var g, s := BuildGraph(file), StatusesOf(FreshStates(file));
    var t := FinalMap(g, ok);
    forall x | x in g ensures (t[x].Completed? <==> x in ran * ok) && (t[x].Failed? <==> x in ran - ok) {
      assert t[x] == After(g, ok, s, ran)[x];
      assert Active(s[x]);
    }
  }

  lemma FinalMapCounts(g: Graph, ok: set<Id>)
    ensures var t := FinalMap(g, ok);
            && |g| == |WithStatus(t, Completed)| + |WithStatus(t, Failed)| + |WithStatus(t, Blocked)|
            && WithStatus(t, Skipped) == {}
  {
    var t := FinalMap(g, ok);
    var c, f, b := WithStatus(t, Completed), WithStatus(t, Failed), WithStatus(t, Blocked);
    assert c !! f && (c + f) !! b && c + f + b == g.Keys;
    assert |g| == |g.Keys| == |c + f| + |b|;
  }

  /** A fresh unrestricted run accounts for every node, and the command's exit test (no
      failure, nothing blocked) passes exactly when every node is Completed. */
  lemma FreshRunAccounts(file: seq<FileNode>, topo: seq<Id>, limit: nat, ok: set<Id>, r: RunReport)
    requires IsTopologicalOrder(BuildGraph(file), topo)
    requires var run := Run(Plan(BuildGraph(file), topo, limit, false, None, ok), StatusesOf(FreshStates(file)));
             ReportOf(run.statuses, run.results, r)
    ensures r.totalNodes == r.succeeded + r.failed + r.blocked && r.skipped == 0
    ensures r.failed == 0 && r.blocked == 0 <==>
            forall x :: x in Ids(file) ==> FinalMap(BuildGraph(file), ok)[x].Completed?
  {
    var g, s := BuildGraph(file), StatusesOf(FreshStates(file));
    var t := FinalMap(g, ok);
    ScheduleIndependence(file, topo, limit, ok);
    RunIsOneDispatch(Plan(g, topo, limit, false, None, ok), s);
    ResultCounts(ok, ResultIds(r.nodeResults));
    FreshRan(file, ok, Elems(ResultIds(r.nodeResults)));
    FinalMapCounts(g, ok);
    assert |t| == |t.Keys| == |g.Keys| == |g|;
    ExitTest(t, r);
  }

  lemma ExitTest(t: StatusMap, r: RunReport)
    requires forall x :: x in t ==> t[x] in {Completed, Failed, Blocked}
    requires r.failed == |WithStatus(t, Failed)| && r.blocked == |WithStatus(t, Blocked)|
    ensures r.failed == 0 && r.blocked == 0 <==> forall x :: x in t ==> t[x].Completed?
  {
    if r.failed == 0 && r.blocked == 0 {
      forall x | x in t ensures t[x].Completed? {
        assert x !in WithStatus(t, Failed) && x !in WithStatus(t, Blocked);
      }
    }
    if forall x :: x in t ==> t[x].Completed? {
      assert WithStatus(t, Failed) == {} && WithStatus(t, Blocked) == {};
    }
  }
}
