/** Runs with target nodes: what they leave alone, and when every target finishes. */
module Targets {
  import opened Options
  import opened Ordering
  import opened Reachability
  import opened Lifecycle
  import opened Scheduler
  import opened RunTheorems

  /** `x` kept its status, or was active and got blocked by a node of the scope that ran and failed. */
  ghost predicate Confined(p: Plan, s: StatusMap, out: RunOutcome, x: Id)
    requires p.scope.Some?
  {
    x in s && x in out.statuses &&
    (|| out.statuses[x] == s[x]
     || (&& Active(s[x]) && out.statuses[x].Blocked?
         && exists f :: NodeResult(f, Failed) in out.results && f in p.scope.value && Reaches(p.g, x, f)))
  }

  /** A run touches nothing outside its scope but the dependents of its failures. */
  lemma RunConfined(p: Plan, s: StatusMap, x: Id)
    requires ValidPlan(p) && s.Keys == p.g.Keys && p.scope.Some?
    requires x in s && x !in p.scope.value
    ensures Confined(p, s, Run(p, s), x)
  {
    RunIsOneDispatch(p, s);
    OneDispatchConfined(p, s, Run(p, s), x);
  }

  lemma OneDispatchConfined(p: Plan, s: StatusMap, out: RunOutcome, x: Id)
    requires OneDispatch(p, s, out) && p.scope.Some? && x in s && x !in p.scope.value
    ensures Confined(p, s, out, x)
  {
    var ids := ResultIds(out.results);
    if out.statuses[x] != s[x] {
      var f :| f in Elems(ids) && f !in p.ok && Reaches(p.g, x, f);
      var i :| 0 <= i < |ids| && ids[i] == f;
      assert out.results[i] == NodeResult(f, Failed);
    }
  }

  lemma {:induction false} RunExhausts(p: Plan, s: StatusMap)
    requires ValidPlan(p) && s.Keys == p.g.Keys
    requires InScope(p.scope, p.g.Keys) <= p.ok || !p.failFast
    ensures Candidates(p, Run(p, s).statuses) == {}
    decreases |ActiveIds(s)|
  {
    if Candidates(p, s) != {} {
      RunStep(p, s);
      var batch := Elems(Batch(p, Candidates(p, s)));
      assert batch <= Candidates(p, s) <= InScope(p.scope, p.g.Keys);
      RunExhausts(p, After(p.g, p.ok, s, batch));
    }
  }

  /** Neither Failed, Blocked nor left InProgress by an interrupted run. */
  predicate Free(st: Status) {
    Active(st) || Done(st)
  }

  ghost function Closure(g: Graph, x: Id): set<Id> {
    {x} + TransDeps(g, x)
  }

  ghost predicate ClosureFree(g: Graph, s: StatusMap, x: Id) {
    forall y :: y in Closure(g, x) ==> y in s && Free(s[y])
  }

  /** `ran` ran without a failure and left nothing eligible among the targets and their
      unfinished dependencies. */
  ghost predicate Exhausted(g: Graph, ok: set<Id>, s: StatusMap, targets: seq<Id>, ran: set<Id>) {
    && Closed(g) && Acyclic(g) && s.Keys == g.Keys
    && ran <= ExecutionSet(g, s, targets) * ActiveIds(s) && ran <= ok
    && Eligible(g, After(g, ok, s, ran)) * ExecutionSet(g, s, targets) == {}
  }

  /** A free node in the closure of a target is done once its dependencies are. */
  lemma UpstreamStep(g: Graph, ok: set<Id>, s: StatusMap, targets: seq<Id>, ran: set<Id>, x: Id, y: Id)
    requires Exhausted(g, ok, s, targets, ran) && x in targets && x in g
    requires y in Closure(g, x) && y in g && Free(s[y])
    requires forall d :: d in g[y] && d in Closure(g, x) ==> Done(After(g, ok, s, ran)[d])
    ensures Done(After(g, ok, s, ran)[y])
  {
    var t := After(g, ok, s, ran);
    if Active(s[y]) {
      assert x in Elems(targets);
      assert y in ExecutionSet(g, s, targets);
      forall d | d in g[y] ensures Done(t[d]) {
        if y == x { ReachesEdge(g, x, d); } else { ReachesSnoc(g, x, y, d); }
        assert d in Closure(g, x);
      }
      assert y !in Eligible(g, t);
    }
  }

  lemma {:induction false} UpstreamDone(g: Graph, topo: seq<Id>, ok: set<Id>, s: StatusMap, targets: seq<Id>,
                                        ran: set<Id>, x: Id, i: nat)
    requires IsTopologicalOrder(g, topo) && Exhausted(g, ok, s, targets, ran) && x in targets && x in g
    requires ClosureFree(g, s, x)
    requires i <= |topo|
    ensures forall y :: y in topo[..i] && y in Closure(g, x) ==> Done(After(g, ok, s, ran)[y])
  {
    if i > 0 {
      UpstreamDone(g, topo, ok, s, targets, ran, x, i - 1);
      var y := topo[i - 1];
      assert topo[..i] == topo[..i - 1] + [y];
      assert DepsBefore(g, topo, i - 1);
      if y in Closure(g, x) {
        UpstreamStep(g, ok, s, targets, ran, x, y);
      }
    }
  }

  /** The executed nodes of a successful target run. */
  lemma TargetRun(p: Plan, s: StatusMap, targets: seq<Id>) returns (ran: set<Id>)
    requires ValidPlan(p) && s.Keys == p.g.Keys
    requires p.scope == Some(ExecutionSet(p.g, s, targets)) && p.scope.value * p.g.Keys <= p.ok
    ensures Exhausted(p.g, p.ok, s, targets, ran) && Run(p, s).statuses == After(p.g, p.ok, s, ran)
  {
    RunIsOneDispatch(p, s);
    RunExhausts(p, s);
    TopoAcyclic(p.g, p.topo);
    ran := Elems(ResultIds(Run(p, s).results));
    assert ran <= p.scope.value * p.g.Keys;
  }

  /** With successful outcomes a run finishes every target that is itself, with all it depends
      on, free of Failed, Blocked and InProgress; from a safe state it finishes no other. */
  lemma TargetCompletes(p: Plan, s: StatusMap, targets: seq<Id>, x: Id)
    requires ValidPlan(p) && s.Keys == p.g.Keys && x in targets && x in p.g
    requires p.scope == Some(ExecutionSet(p.g, s, targets)) && p.scope.value * p.g.Keys <= p.ok
    ensures ClosureFree(p.g, s, x) ==> Done(Run(p, s).statuses[x])
    ensures Safe(p.g, s) && Done(Run(p, s).statuses[x]) ==> ClosureFree(p.g, s, x)
  {
    var ran := TargetRun(p, s, targets);
    if ClosureFree(p.g, s, x) {
      UpstreamDone(p.g, p.topo, p.ok, s, targets, ran, x, |p.topo|);
      assert x in Elems(p.topo) && p.topo[..|p.topo|] == p.topo;
    } else if Safe(p.g, s) && Done(Run(p, s).statuses[x]) {
      RunSafe(p, s);
      UpstreamWasFree(p.g, p.ok, s, ran, x);
    }
  }

  lemma UpstreamWasFree(g: Graph, ok: set<Id>, s: StatusMap, ran: set<Id>, x: Id)
    requires s.Keys == g.Keys && ran <= ActiveIds(s) && x in g
    requires Safe(g, After(g, ok, s, ran)) && Done(After(g, ok, s, ran)[x])
    ensures ClosureFree(g, s, x)
  {
    forall y | y in Closure(g, x) ensures y in s && Free(s[y]) {
      if y != x { SettledDown(g, After(g, ok, s, ran), x, y); }
    }
  }

  /** A run keeps the safety invariant. */
  lemma {:induction false} RunSafe(p: Plan, s: StatusMap)
    requires ValidPlan(p) && Safe(p.g, s)
    ensures Safe(p.g, Run(p, s).statuses)
    decreases |ActiveIds(s)|
  {
    if Candidates(p, s) != {} {
      var batch := Elems(Batch(p, Candidates(p, s)));
      RunStep(p, s);
      BatchEligible(p, s);
      AfterSafe(p.g, p.ok, s, batch);
      RunSafe(p, After(p.g, p.ok, s, batch));
    }
  }

  // ----- nothing runs before its dependencies -----

  ghost predicate DoneBefore(s: StatusMap, results: seq<NodeResult>, i: nat, d: Id)
    requires i <= |results|
  {
    (d in s && Done(s[d])) || NodeResult(d, Completed) in results[..i]
  }

  ghost predicate DependencyOrder(g: Graph, s: StatusMap, results: seq<NodeResult>) {
    forall i, d :: 0 <= i < |results| && results[i].id in g && d in g[results[i].id] ==> DoneBefore(s, results, i, d)
  }

  /** Every node a run executes is preceded by the successful execution of each dependency
      that was not done before the run. */
  lemma {:induction false} RunOrder(p: Plan, s: StatusMap)
    requires ValidPlan(p) && Safe(p.g, s)
    ensures DependencyOrder(p.g, s, Run(p, s).results)
    decreases |ActiveIds(s)|
  {
    if Candidates(p, s) != {} {
      var batch := Batch(p, Candidates(p, s));
      var t := After(p.g, p.ok, s, Elems(batch));
      RunStep(p, s);
      BatchEligible(p, s);
      AfterSafe(p.g, p.ok, s, Elems(batch));
      if p.failFast && !(Elems(batch) <= p.ok) {
        OrderedBatch(p, s, batch, []);
      } else {
        RunOrder(p, t);
        OrderedBatch(p, s, batch, Run(p, t).results);
      }
    }
  }

  lemma OrderedBatch(p: Plan, s: StatusMap, batch: seq<Id>, rest: seq<NodeResult>)
    requires Safe(p.g, s) && Elems(batch) <= Eligible(p.g, s)
    requires DependencyOrder(p.g, After(p.g, p.ok, s, Elems(batch)), rest)
    ensures DependencyOrder(p.g, s, Results(p.ok, batch) + rest)
  {
    var t := After(p.g, p.ok, s, Elems(batch));
    var head := Results(p.ok, batch);
    var all := head + rest;
    forall i, d | 0 <= i < |all| && all[i].id in p.g && d in p.g[all[i].id] ensures DoneBefore(s, all, i, d) {
      if i < |batch| {
        assert batch[i] in Elems(batch);
        EligibleSettled(p.g, s, batch[i]);
      } else {
        var k := i - |batch|;
        assert all[i] == rest[k] && DoneBefore(t, rest, k, d);
        assert all[..i] == head + rest[..k];
        if d in t && Done(t[d]) && !Done(s[d]) {
          var j :| 0 <= j < |batch| && batch[j] == d;
          assert head[j] == NodeResult(d, Completed);
        }
      }
    }
  }
}
