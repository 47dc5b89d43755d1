/** The exit tests of the run and retry commands: exactly when they pass, from any state that
    histories lead to. */
module ExitTests {
  import opened Options
  import opened Ordering
  import opened Reachability
  import opened Lifecycle
  import opened Tracker
  import opened Scheduler
  import opened RunTheorems
  import opened DryRun
  import opened Targets
  import opened History

  // ----- the run command -----

  /** What a node of the scope still needs is in the scope. */
  ghost predicate ScopeClosed(g: Graph, s: StatusMap, scope: Option<set<Id>>) {
    scope.Some? ==>
      forall x, d :: x in g && x in scope.value && d in g[x] && d in s && !Done(s[d]) ==> d in scope.value
  }

  lemma TargetScopeClosed(g: Graph, s: StatusMap, targets: Option<seq<Id>>)
    requires Closed(g) && Acyclic(g) && s.Keys == g.Keys
    ensures ScopeClosed(g, s, Scope(g, s, targets))
  {
    if targets.Some? {
      var e := ExecutionSet(g, s, targets.value);
      forall x, d | x in g && x in e && d in g[x] && !Done(s[d]) ensures d in e {
        var t :| t in targets.value && (t == x || x in TransDeps(g, t));
        if t == x { ReachesEdge(g, x, d); } else { ReachesSnoc(g, t, x, d); }
        assert d in TransDeps(g, t);
      }
    }
  }

  /** The nodes that can still come up: active, in scope, and with nothing Failed, Blocked or
      InProgress upstream. */
  ghost function Runnable(p: Plan, s: StatusMap): set<Id> {
    set x | x in InScope(p.scope, ActiveIds(s)) && ClosureFree(p.g, s, x)
  }

  /** `t` is what one dispatch of `ran` makes of `s`, and the safety invariant holds in both. */
  ghost predicate Ran(p: Plan, s: StatusMap, t: StatusMap, ran: set<Id>) {
    && ran <= InScope(p.scope, ActiveIds(s)) && t == After(p.g, p.ok, s, ran)
    && Safe(p.g, s) && Safe(p.g, t)
  }

  lemma RunRan(p: Plan, s: StatusMap)
    requires ValidPlan(p) && Safe(p.g, s)
    ensures Ran(p, s, Run(p, s).statuses, Executed(Run(p, s).results))
    ensures CountStatus(Run(p, s).results, Failed) == |Executed(Run(p, s).results) - p.ok|
  {
    RunIsOneDispatch(p, s);
    RunSafe(p, s);
    DispatchRan(p, s, Run(p, s));
  }

  lemma DispatchRan(p: Plan, s: StatusMap, out: RunOutcome)
    requires OneDispatch(p, s, out) && Safe(p.g, s) && Safe(p.g, out.statuses)
    ensures Ran(p, s, out.statuses, Executed(out.results))
    ensures CountStatus(out.results, Failed) == |Executed(out.results) - p.ok|
  {
    var ids := ResultIds(out.results);
    ExecutedIds(out.results);
    ResultCounts(p.ok, ids);
  }

  /** Only such nodes run. */
  lemma RanRunnable(p: Plan, s: StatusMap, t: StatusMap, ran: set<Id>)
    requires Ran(p, s, t, ran)
    ensures ran <= Runnable(p, s)
  {
    forall x | x in ran ensures ClosureFree(p.g, s, x) {
      assert t[x] == Verdict(p.ok, x);
      forall y | y in Closure(p.g, x) ensures y in s && Free(s[y]) {
        if y != x { SettledDown(p.g, t, x, y); }
      }
    }
  }

  lemma {:induction false} ScopeDown(p: Plan, s: StatusMap, x: Id, y: Id, n: nat)
    requires Safe(p.g, s) && ScopeClosed(p.g, s, p.scope) && p.scope.Some? && x in p.scope.value
    requires ReachesIn(p.g, x, y, n) && y in s && !Done(s[y])
    ensures y in p.scope.value
    decreases n
  {
    if n > 0 {
      var c :| c in p.g[x] && ReachesIn(p.g, c, y, n - 1);
      assert c in s;
      if Done(s[c]) {
        assert ReachesIn(p.g, c, y, n - 1);
        SettledDown(p.g, s, c, y);
      } else {
        ScopeDown(p, s, c, y, n - 1);
      }
    }
  }

  /** What a runnable node still needs is runnable too. */
  lemma RunnableDown(p: Plan, s: StatusMap, x: Id, y: Id)
    requires Safe(p.g, s) && ScopeClosed(p.g, s, p.scope) && x in Runnable(p, s) && y in Closure(p.g, x)
    requires Active(s[y])
    ensures y in InScope(p.scope, ActiveIds(s))
  {
    if y != x && p.scope.Some? {
      var n: nat :| ReachesIn(p.g, x, y, n);
      ScopeDown(p, s, x, y, n);
    }
  }

  /** A run none of whose nodes failed has run out of candidates. */
  lemma {:induction false} RunUncut(p: Plan, s: StatusMap)
    requires ValidPlan(p) && s.Keys == p.g.Keys && Executed(Run(p, s).results) <= p.ok
    ensures Candidates(p, Run(p, s).statuses) == {}
    decreases |ActiveIds(s)|
  {
    if Candidates(p, s) != {} {
      var batch := Batch(p, Candidates(p, s));
      var t := After(p.g, p.ok, s, Elems(batch));
      RunStep(p, s);
      var rest := if p.failFast && !(Elems(batch) <= p.ok) then [] else Run(p, t).results;
      ExecutedResults(p.ok, batch);
      ExecutedAppend(Results(p.ok, batch), rest);
      assert Elems(batch) <= p.ok;
      RunUncut(p, t);
    }
  }

  /** A run without a failure that left no candidate. */
  ghost predicate RanOn(p: Plan, s: StatusMap, t: StatusMap, ran: set<Id>) {
    && Ran(p, s, t, ran) && ran <= p.ok && Candidates(p, t) == {} && ScopeClosed(p.g, s, p.scope)
  }

  predicate DoneIn(t: StatusMap, x: Id) {
    x in t && Done(t[x])
  }

  /** Then a runnable node and all it depends on are done. */
  lemma {:induction false} RunnableDone(p: Plan, s: StatusMap, t: StatusMap, ran: set<Id>, x: Id, i: nat)
    requires IsTopologicalOrder(p.g, p.topo) && RanOn(p, s, t, ran) && x in Runnable(p, s) && i <= |p.topo|
    ensures forall y :: y in p.topo[..i] && y in Closure(p.g, x) ==> DoneIn(t, y)
  {
    if i > 0 {
      RunnableDone(p, s, t, ran, x, i - 1);
      var y := p.topo[i - 1];
      assert p.topo[..i] == p.topo[..i - 1] + [y];
      assert DepsBefore(p.g, p.topo, i - 1);
      if y in Closure(p.g, x) {
        forall d | d in p.g[y] && d in Closure(p.g, x) ensures DoneIn(t, d) {
          assert d in p.topo[..i - 1];
        }
        ReadyOrDone(p, s, t, ran, x, y);
      }
    }
  }

  lemma ReadyOrDone(p: Plan, s: StatusMap, t: StatusMap, ran: set<Id>, x: Id, y: Id)
    requires RanOn(p, s, t, ran) && x in Runnable(p, s) && y in Closure(p.g, x) && y in p.g
    requires forall d :: d in p.g[y] && d in Closure(p.g, x) ==> DoneIn(t, d)
    ensures DoneIn(t, y)
  {
    assert !HitBy(p.g, p.ok, ran, y) && y !in Candidates(p, t);
    if Active(s[y]) && y !in ran {
      RunnableDown(p, s, x, y);
      forall d | d in p.g[y] ensures DoneIn(t, d) {
        if y == x { ReachesEdge(p.g, x, d); } else { ReachesSnoc(p.g, x, y, d); }
        assert d in Closure(p.g, x);
      }
    }
  }

  lemma RunnableSucceeds(p: Plan, s: StatusMap, t: StatusMap, ran: set<Id>, x: Id)
    requires IsTopologicalOrder(p.g, p.topo) && RanOn(p, s, t, ran) && x in Runnable(p, s)
    ensures x in p.ok
  {
    RunnableDone(p, s, t, ran, x, |p.topo|);
    assert p.topo[..|p.topo|] == p.topo && x in Elems(p.topo);
    assert DoneIn(t, x);
    assert x in ran;
  }

  lemma EmptySize(a: set<Id>)
    ensures |a| == 0 <==> a == {}
  {
  }

  lemma NoneOutside(a: set<Id>, b: set<Id>)
    ensures |a - b| == 0 <==> a <= b
  {
    EmptySize(a - b);
    if a - b == {} {
      forall x | x in a ensures x in b {
        assert x !in a - b;
      }
    }
  }

  lemma ExecutedIds(rs: seq<NodeResult>)
    ensures Executed(rs) == Elems(ResultIds(rs))
  {
    var ids := ResultIds(rs);
    forall x | x in Executed(rs) ensures x in Elems(ids) {
      var r :| r in rs && r.id == x;
      var i :| 0 <= i < |rs| && rs[i] == r;
      assert ids[i] == x;
    }
    forall x | x in Elems(ids) ensures x in Executed(rs) {
      var i :| 0 <= i < |ids| && ids[i] == x;
      assert rs[i] in rs;
    }
  }

  lemma NothingBlocked(p: Plan, s: StatusMap, t: StatusMap, ran: set<Id>)
    requires Ran(p, s, t, ran) && ran <= p.ok
    ensures WithStatus(t, Blocked) == WithStatus(s, Blocked)
  {
    forall x | x in s ensures t[x].Blocked? <==> s[x].Blocked? {
      assert !HitBy(p.g, p.ok, ran, x);
    }
  }

  /** Nothing failed and nothing is Blocked, exactly if that is settled from the start. */
  lemma CleanExact(p: Plan, s: StatusMap, t: StatusMap, ran: set<Id>)
    requires IsTopologicalOrder(p.g, p.topo) && Ran(p, s, t, ran) && ScopeClosed(p.g, s, p.scope)
    requires ran <= p.ok ==> Candidates(p, t) == {}
    ensures ran <= p.ok && WithStatus(t, Blocked) == {} <==> WithStatus(s, Blocked) == {} && Runnable(p, s) <= p.ok
  {
    RanRunnable(p, s, t, ran);
    if ran <= p.ok {
      NothingBlocked(p, s, t, ran);
      forall x | x in Runnable(p, s) ensures x in p.ok {
        RunnableSucceeds(p, s, t, ran, x);
      }
    }
  }

  /** The run command's exit test (no failure, nothing blocked) passes exactly when nothing is
      Blocked to begin with and every runnable node succeeds. A node left Failed by an earlier
      run does not make it fail. */
  lemma ExitExact(p: Plan, s: StatusMap, r: RunReport)
    requires ValidPlan(p) && Safe(p.g, s) && ScopeClosed(p.g, s, p.scope)
    requires ReportOf(Run(p, s).statuses, Run(p, s).results, r)
    ensures r.failed == 0 && r.blocked == 0 <==> WithStatus(s, Blocked) == {} && Runnable(p, s) <= p.ok
  {
    RunRan(p, s);
    if Executed(Run(p, s).results) <= p.ok { RunUncut(p, s); }
    ExitFrom(p, s, Run(p, s).statuses, Run(p, s).results, r);
  }

  lemma ExitFrom(p: Plan, s: StatusMap, t: StatusMap, results: seq<NodeResult>, r: RunReport)
    requires IsTopologicalOrder(p.g, p.topo) && Ran(p, s, t, Executed(results)) && ScopeClosed(p.g, s, p.scope)
    requires Executed(results) <= p.ok ==> Candidates(p, t) == {}
    requires CountStatus(results, Failed) == |Executed(results) - p.ok| && ReportOf(t, results, r)
    ensures r.failed == 0 && r.blocked == 0 <==> WithStatus(s, Blocked) == {} && Runnable(p, s) <= p.ok
  {
    CleanExact(p, s, t, Executed(results));
    ReportClean(t, results, p.ok, r);
  }

  lemma ReportClean(t: StatusMap, results: seq<NodeResult>, ok: set<Id>, r: RunReport)
    requires CountStatus(results, Failed) == |Executed(results) - ok| && ReportOf(t, results, r)
    ensures r.failed == 0 <==> Executed(results) <= ok
    ensures r.blocked == 0 <==> WithStatus(t, Blocked) == {}
  {
    NoneOutside(Executed(results), ok);
    EmptySize(WithStatus(t, Blocked));
  }

  /** The run command with or without targets. */
  lemma RunCommandExit(g: Graph, s: StatusMap, c: Command, r: RunReport)
    requires AtRest(g, s) && c.RunCommand? && ValidCommand(g, s, c) && c.topo.Some?
    requires var run := Run(RunPlan(g, s, c), s); ReportOf(run.statuses, run.results, r)
    ensures r.failed == 0 && r.blocked == 0 <==>
            WithStatus(s, Blocked) == {} && Runnable(RunPlan(g, s, c), s) <= c.ok
  {
    TopoAcyclic(g, c.topo.value);
    TargetScopeClosed(g, s, c.targets);
    ExitExact(RunPlan(g, s, c), s, r);
  }

  /** A run that leaves a node Failed and passes its exit test. */
  lemma ExitOverlooksFailed()
    ensures var g: Graph := map["a" := {}];
            var s := map["a" := Failed];
            var p := Plan(g, ["a"], 1, false, None, {});
            && AtRest(g, s) && ValidPlan(p) && Run(p, s) == RunOutcome(s, [])
            && forall r :: ReportOf(s, [], r) ==> r.failed == 0 && r.blocked == 0
  {
    var g: Graph := map["a" := {}];
    var s := map["a" := Failed];
    var p := Plan(g, ["a"], 1, false, None, {});
    assert DepsBefore(g, ["a"], 0) && Elems(["a"]) == {"a"};
    assert Candidates(p, s) == {} && WithStatus(s, Blocked) == {};
  }

  // ----- the retry command -----

  /** In a safe state the targets that are Ready need nothing else. */
  lemma ReadyTargetsAlone(g: Graph, s: StatusMap, xs: seq<Id>)
    requires Safe(g, s) && forall x :: x in xs ==> x in s && s[x].Ready?
    ensures ExecutionSet(g, s, xs) == Elems(xs)
  {
    forall t, d | t in xs && d in TransDeps(g, t) ensures d in s && Done(s[d]) {
      SettledDown(g, s, t, d);
    }
  }

  lemma SelectionStart(g: Graph, s: StatusMap, c: Command)
    requires AtRest(g, s) && c.RetryCommand?
    ensures var xs := RetrySelection(s, c.node, c.allFailed);
            && AtRest(g, RetryStart(s, c))
            && forall x :: x in xs ==> x in RetryStart(s, c) && RetryStart(s, c)[x].Ready?
  {
    var xs := RetrySelection(s, c.node, c.allFailed);
    RetrySelectionFailed(s, c.node, c.allFailed);
    RetryStartAtRest(g, s, c);
    forall x | x in xs ensures x in RetryStart(s, c) && RetryStart(s, c)[x].Ready? {
      assert x in Elems(xs) && x in WithStatus(s, Failed);
    }
  }

  /** What a retry is for: the named node if it is Failed, or every Failed node. */
  function Meant(s: StatusMap, c: Command): set<Id>
    requires c.RetryCommand?
  {
    if c.node.Some? then {c.node.value} * WithStatus(s, Failed) else if c.allFailed then WithStatus(s, Failed) else {}
  }

  lemma SelectionRuns(p: Plan, s: StatusMap, xs: set<Id>)
    requires ValidPlan(p) && Safe(p.g, s) && p.scope == Some(xs) && p.limit <= 1 && !p.failFast
    requires forall x :: x in xs ==> x in s && s[x].Ready?
    ensures Executed(Run(p, s).results) == xs && ResultIds(Run(p, s).results) == Keep(p.topo, xs)
  {
    ReadyTargetsRun(p, s, xs);
    ReadySerial(p, s, xs);
    assert xs * ActiveIds(s) == xs;
    ResultsIds(p.ok, Keep(p.topo, xs));
  }

  lemma RetryRuns(g: Graph, s: StatusMap, c: Command, xs: seq<Id>)
    requires AtRest(g, s) && c.RetryCommand? && ValidCommand(g, s, c) && c.topo.Some?
    requires xs == RetrySelection(s, c.node, c.allFailed)
    ensures var run := Run(RetryPlan(g, s, c), RetryStart(s, c));
            Executed(run.results) == Elems(xs) && ResultIds(run.results) == Keep(c.topo.value, Elems(xs))
  {
    SelectionStart(g, s, c);
    ReadyTargetsAlone(g, RetryStart(s, c), xs);
    assert forall x :: x in Elems(xs) ==> x in xs;
    SelectionRuns(RetryPlan(g, s, c), RetryStart(s, c), Elems(xs));
  }

  lemma SelectedMeant(s: StatusMap, c: Command)
    requires c.RetryCommand?
    ensures Elems(RetrySelection(s, c.node, c.allFailed)) == Meant(s, c)
    ensures RetrySelection(s, c.node, c.allFailed) == [] ==> Meant(s, c) == {}
  {
    RetrySelectionExact(s, c.node, c.allFailed);
  }

  /** A retry executes exactly the named node, or every Failed node, one by one and in
      topological order. */
  lemma RetryExecutes(g: Graph, s: StatusMap, c: Command)
    requires AtRest(g, s) && c.RetryCommand? && ValidCommand(g, s, c) && c.topo.Some?
    ensures Executed(ResultsOf(g, s, c)) == Meant(s, c)
    ensures ResultIds(ResultsOf(g, s, c)) == Keep(c.topo.value, Meant(s, c))
  {
    SelectedMeant(s, c);
    if RetrySelection(s, c.node, c.allFailed) == [] {
      KeepNone(c.topo.value);
    } else {
      RetryRuns(g, s, c, RetrySelection(s, c.node, c.allFailed));
    }
  }

  lemma {:induction false} KeepNone(order: seq<Id>)
    ensures Keep(order, {}) == []
  {
    if order != [] { KeepNone(order[1..]); }
  }

  lemma ResultsIds(ok: set<Id>, ids: seq<Id>)
    ensures ResultIds(Results(ok, ids)) == ids
  {
  }

  /** Ready targets that are settled keep being so while others of them run. */
  lemma ReadyTargetsStay(p: Plan, s: StatusMap, xs: set<Id>, x: Id)
    requires Safe(p.g, s) && x in s && s[x].Ready? && (forall y :: y in xs && y in s ==> s[y].Ready? || !Active(s[y]))
    ensures var t := After(p.g, p.ok, s, {x});
            && Safe(p.g, t) && (forall y :: y in xs && y in t ==> t[y].Ready? || !Active(t[y]))
            && xs * ActiveIds(t) == xs * ActiveIds(s) - {x}
  {
    var t := After(p.g, p.ok, s, {x});
    AfterSafe(p.g, p.ok, s, {x});
    forall y | y in xs && y in s && y != x && s[y].Ready? ensures t[y].Ready? {
      if Reaches(p.g, y, x) { SettledDown(p.g, s, y, x); }
      assert !HitBy(p.g, p.ok, {x}, y);
    }
  }

  lemma ReadyPick(p: Plan, s: StatusMap, c: set<Id>)
    requires ValidPlan(p) && s.Keys == p.g.Keys && p.limit <= 1 && Candidates(p, s) == c && c != {}
    ensures Keep(p.topo, c) != [] && Batch(p, c) == [Keep(p.topo, c)[0]] && Keep(p.topo, c)[0] in c
  {
    assert |SortedKeys(c)| == |c| > 0;
    var y :| y in c;
    assert y in Elems(p.topo);
    assert y in Elems(Keep(p.topo, c));
    PickedIsHead(SortedKeys(c), p.topo);
    assert Keep(p.topo, c)[0] in Elems(Keep(p.topo, c));
  }

  /** A serial run of Ready targets takes them in topological order. */
  lemma {:induction false} ReadySerial(p: Plan, s: StatusMap, xs: set<Id>)
    requires ValidPlan(p) && Safe(p.g, s) && p.limit <= 1 && !p.failFast && p.scope == Some(xs)
    requires forall x :: x in xs && x in s ==> s[x].Ready? || !Active(s[x])
    ensures Run(p, s).results == Results(p.ok, Keep(p.topo, xs * ActiveIds(s)))
    decreases |ActiveIds(s)|
  {
    var c := xs * ActiveIds(s);
    assert Candidates(p, s) == c;
    if c == {} {
      KeepNone(p.topo);
    } else {
      ReadyPick(p, s, c);
      var x := Keep(p.topo, c)[0];
      assert Elems([x]) == {x};
      RunStep(p, s);
      ReadyTargetsStay(p, s, xs, x);
      ReadySerial(p, After(p.g, p.ok, s, {x}), xs);
      KeepTail(p.topo, c);
      ResultsSplit(p.ok, Keep(p.topo, c));
    }
  }

  lemma ReadyTargetsRun(p: Plan, s: StatusMap, xs: set<Id>)
    requires ValidPlan(p) && Safe(p.g, s) && p.scope == Some(xs) && !p.failFast
    requires forall x :: x in xs ==> x in s && s[x].Ready?
    ensures Executed(Run(p, s).results) == xs
  {
    RunRan(p, s);
    RunExhausts(p, s);
    ReadyTargetsRan(p, s, Run(p, s).statuses, Executed(Run(p, s).results), xs);
  }

  lemma ReadyTargetsRan(p: Plan, s: StatusMap, t: StatusMap, ran: set<Id>, xs: set<Id>)
    requires Ran(p, s, t, ran) && p.scope == Some(xs) && Candidates(p, t) == {}
    requires forall x :: x in xs ==> x in s && s[x].Ready?
    ensures ran == xs
  {
    forall x | x in xs ensures x in ran {
      forall f | f in ran ensures !Reaches(p.g, x, f) {
        if Reaches(p.g, x, f) { SettledDown(p.g, s, x, f); }
      }
      assert !HitBy(p.g, p.ok, ran, x);
      assert x !in Candidates(p, t);
    }
  }

  lemma RunExit(p: Plan, s: StatusMap, r: RunReport)
    requires ValidPlan(p) && Safe(p.g, s) && ReportOf(Run(p, s).statuses, Run(p, s).results, r)
    ensures r.failed == 0 <==> Executed(Run(p, s).results) <= p.ok
  {
    RunRan(p, s);
    ReportClean(Run(p, s).statuses, Run(p, s).results, p.ok, r);
  }

  lemma ReportFrom(p: Plan, s: StatusMap, r: RunReport, xs: set<Id>)
    requires ValidPlan(p) && Safe(p.g, s) && ReportOf(Run(p, s).statuses, Run(p, s).results, r)
    requires Executed(Run(p, s).results) == xs
    ensures r.executed == |xs| && (r.failed == 0 <==> xs <= p.ok)
  {
    RunExit(p, s, r);
    RunConserves(p, s, r);
    ExecutedIds(r.nodeResults);
    NoDupSize(ResultIds(r.nodeResults));
  }

  lemma RetryReport(g: Graph, s: StatusMap, c: Command, r: RunReport)
    requires AtRest(g, s) && c.RetryCommand? && ValidCommand(g, s, c) && c.topo.Some?
    requires RetrySelection(s, c.node, c.allFailed) != []
    requires var run := Run(RetryPlan(g, s, c), RetryStart(s, c)); ReportOf(run.statuses, run.results, r)
    ensures r.executed == |Meant(s, c)| && (r.failed == 0 <==> Meant(s, c) <= c.ok)
  {
    RetryStartAtRest(g, s, c);
    RetryExecutes(g, s, c);
    ReportFrom(RetryPlan(g, s, c), RetryStart(s, c), r, Meant(s, c));
  }

  /** The retry command's exit test (no failure) passes exactly when the named node, or every
      Failed node, succeeds. */
  lemma RetryExit(g: Graph, s: StatusMap, c: Command, r: RunReport)
    requires AtRest(g, s) && c.RetryCommand? && ValidCommand(g, s, c) && c.topo.Some?
    requires Refusal(s, c.node, c.allFailed).None?
    requires var run := Run(RetryPlan(g, s, c), RetryStart(s, c)); ReportOf(run.statuses, run.results, r)
    ensures r.failed == 0 <==> (if c.node.Some? then c.node.value in c.ok else WithStatus(s, Failed) <= c.ok)
    ensures r.executed == if c.node.Some? then 1 else |WithStatus(s, Failed)|
  {
    RefusalExact(s, c.node, c.allFailed);
    RetryReport(g, s, c, r);
    MeantExact(s, c);
  }

  lemma MeantExact(s: StatusMap, c: Command)
    requires c.RetryCommand? && Refusal(s, c.node, c.allFailed).None?
    ensures Meant(s, c) == if c.node.Some? then {c.node.value} else WithStatus(s, Failed)
  {
  }
}
