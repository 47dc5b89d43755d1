/** The dry run predicts the real run: a fresh serial run executes the dry-run
    plan, in order, leaving out exactly the nodes that something upstream dooms. */
module DryRun {
  import opened Options
  import opened Ordering
  import opened Reachability
  import opened Lifecycle
  import opened Tracker
  import opened Scheduler
  import opened RunTheorems

  // ----- filtering a sequence -----

  lemma {:induction false} KeepHead(order: seq<Id>, t: set<Id>) returns (i: nat)
    requires Keep(order, t) != []
    ensures i < |order| && order[i] == Keep(order, t)[0] && order[i] in t
    ensures forall j :: 0 <= j < i ==> order[j] !in t
  {
    if order[0] in t {
      i := 0;
    } else {
      var k := KeepHead(order[1..], t);
      i := k + 1;
      forall j | 0 <= j < i ensures order[j] !in t {
        if j > 0 { assert order[j] == order[1..][j - 1]; }
      }
    }
  }

  lemma {:induction false} KeepAgree(order: seq<Id>, a: set<Id>, b: set<Id>)
    requires forall x :: x in order ==> (x in a <==> x in b)
    ensures Keep(order, a) == Keep(order, b)
  {
    if order != [] {
      KeepAgree(order[1..], a, b);
    }
  }

  lemma {:induction false} KeepTail(order: seq<Id>, t: set<Id>)
    requires NoDup(order) && Keep(order, t) != []
    ensures Keep(order, t)[1..] == Keep(order, t - {Keep(order, t)[0]})
  {
    var x := Keep(order, t)[0];
    if order[0] in t {
      forall y | y in order[1..] ensures y != x {
        var j :| 0 <= j < |order| - 1 && order[1..][j] == y;
        assert order[j + 1] == y;
      }
      KeepAgree(order[1..], t, t - {x});
    } else {
      KeepTail(order[1..], t);
    }
  }

  lemma {:induction false} PickedIsHead(candidates: seq<Id>, order: seq<Id>)
    requires candidates != [] && Keep(order, Elems(candidates)) != []
    ensures Picked(candidates, order) == Keep(order, Elems(candidates))[0]
  {
    if order[0] !in candidates {
      assert order[0] !in Elems(candidates);
      PickedIsHead(candidates, order[1..]);
    } else {
      assert order[0] in Elems(candidates);
    }
  }

  lemma {:induction false} SameHeadOfSubset(order: seq<Id>, c: set<Id>, t: set<Id>)
    requires c <= t && Keep(order, t) != [] && Keep(order, t)[0] in c
    ensures Keep(order, c) != [] && Keep(order, c)[0] == Keep(order, t)[0]
  {
    if order[0] !in t {
      SameHeadOfSubset(order[1..], c, t);
    }
  }

  // ----- the work that is left -----

  ghost predicate DependencyClosed(g: Graph, scope: Option<set<Id>>) {
    scope.Some? ==> forall x :: x in g && x in scope.value ==> g[x] <= scope.value
  }

  /** Active nodes in scope that nothing upstream dooms. */
  ghost function Todo(p: Plan, s: StatusMap): set<Id> {
    set x | x in InScope(p.scope, ActiveIds(s)) && !Doomed(p.g, p.ok, x)
  }

  ghost predicate SerialPlan(p: Plan) {
    ValidPlan(p) && p.limit <= 1 && !p.failFast && DependencyClosed(p.g, p.scope)
  }

  lemma CandidatesAreTodo(p: Plan, s: StatusMap)
    requires RunInv(p.g, p.ok, s)
    ensures Candidates(p, s) <= Todo(p, s)
  {
    forall x | x in Candidates(p, s) ensures !Doomed(p.g, p.ok, x) {
      EligibleSettled(p.g, s, x);
      forall y | Reaches(p.g, x, y) ensures y in p.ok {
        SettledDown(p.g, s, x, y);
        assert Explained(p.g, p.ok, s, y);
      }
    }
  }

  /** A dependency of a node still to do is Completed or still to do itself. */
  lemma TodoDependency(p: Plan, s: StatusMap, x: Id, d: Id)
    requires SerialPlan(p) && RunInv(p.g, p.ok, s)
    requires x in Todo(p, s) && x in p.g && d in p.g[x]
    ensures d in Todo(p, s) || s[d].Completed?
  {
    ReachesEdge(p.g, x, d);
    assert d in p.ok;
    assert Explained(p.g, p.ok, s, d) && Explained(p.g, p.ok, s, x);
    forall f | Reaches(p.g, d, f) ensures f in p.ok {
      ReachesCons(p.g, x, d, f);
    }
    forall f | f in s && s[f].Failed? ensures !Reaches(p.g, d, f) {
      assert Explained(p.g, p.ok, s, f);
    }
  }

  /** The first node still to do, in topological order, is a candidate. */
  lemma FirstTodoIsCandidate(p: Plan, s: StatusMap)
    requires SerialPlan(p) && RunInv(p.g, p.ok, s) && Keep(p.topo, Todo(p, s)) != []
    ensures Keep(p.topo, Todo(p, s))[0] in Candidates(p, s)
  {
    var i := KeepHead(p.topo, Todo(p, s));
    var x := p.topo[i];
    assert DepsBefore(p.g, p.topo, i);
    forall d | d in p.g[x] ensures s[d].Completed? {
      TodoDependency(p, s, x, d);
      assert d in p.topo[..i];
    }
    assert DepsDone(p.g, s, x);
  }

  lemma TodoAfter(p: Plan, s: StatusMap, x: Id)
    requires x in Todo(p, s)
    ensures Todo(p, After(p.g, p.ok, s, {x})) == Todo(p, s) - {x}
  {
    var t := After(p.g, p.ok, s, {x});
    forall y | y in s && y != x && !Doomed(p.g, p.ok, y) ensures Active(t[y]) <==> Active(s[y]) {
      assert !HitBy(p.g, p.ok, {x}, y);
    }
  }

  /** The serial pick is the first node still to do. */
  lemma SerialPick(p: Plan, s: StatusMap)
    requires SerialPlan(p) && RunInv(p.g, p.ok, s) && Keep(p.topo, Todo(p, s)) != []
    ensures Candidates(p, s) != {} && Batch(p, Candidates(p, s)) == [Keep(p.topo, Todo(p, s))[0]]
  {
    var c := Candidates(p, s);
    FirstTodoIsCandidate(p, s);
    CandidatesAreTodo(p, s);
    SameHeadOfSubset(p.topo, c, Todo(p, s));
    assert |SortedKeys(c)| == |c| > 0;
    PickedIsHead(SortedKeys(c), p.topo);
  }

  lemma NothingTodo(p: Plan, s: StatusMap)
    requires SerialPlan(p) && RunInv(p.g, p.ok, s) && Keep(p.topo, Todo(p, s)) == []
    ensures Candidates(p, s) == {}
  {
    CandidatesAreTodo(p, s);
    assert Elems(Keep(p.topo, Todo(p, s))) == {};
    assert Todo(p, s) <= Elems(p.topo);
  }

  lemma SerialStep(p: Plan, s: StatusMap, x: Id)
    requires SerialPlan(p) && RunInv(p.g, p.ok, s)
    requires Keep(p.topo, Todo(p, s)) != [] && x == Keep(p.topo, Todo(p, s))[0]
    ensures var t := After(p.g, p.ok, s, {x});
            && |ActiveIds(t)| < |ActiveIds(s)| && RunInv(p.g, p.ok, t)
            && Run(p, s).results == Results(p.ok, [x]) + Run(p, t).results
            && Keep(p.topo, Todo(p, t)) == Keep(p.topo, Todo(p, s))[1..]
  {
    SerialPick(p, s);
    assert Elems([x]) == {x};
    RunStep(p, s);
    BatchEligible(p, s);
    AfterRunInv(p.g, p.ok, s, {x});
    assert x in Elems(Keep(p.topo, Todo(p, s)));
    TodoAfter(p, s, x);
    KeepTail(p.topo, Todo(p, s));
  }

  /** A serial run executes the nodes still to do, in topological order. */
  lemma {:induction false} SerialRun(p: Plan, s: StatusMap)
    requires SerialPlan(p) && RunInv(p.g, p.ok, s)
    ensures Run(p, s).results == Results(p.ok, Keep(p.topo, Todo(p, s)))
    decreases |ActiveIds(s)|
  {
    var plan := Keep(p.topo, Todo(p, s));
    if plan == [] {
      NothingTodo(p, s);
    } else {
      SerialStep(p, s, plan[0]);
      SerialRun(p, After(p.g, p.ok, s, {plan[0]}));
      ResultsSplit(p.ok, plan);
    }
  }

  lemma ResultsSplit(ok: set<Id>, ids: seq<Id>)
    requires ids != []
    ensures Results(ok, ids) == Results(ok, [ids[0]]) + Results(ok, ids[1..])
  {
  }

  // ----- the prediction -----

  /** The execution set of a fresh acyclic file is closed under dependencies. */
  lemma FreshScopeClosed(file: seq<FileNode>, topo: seq<Id>, targets: Option<seq<Id>>)
    requires IsTopologicalOrder(BuildGraph(file), topo)
    ensures DependencyClosed(BuildGraph(file), Scope(BuildGraph(file), StatusesOf(FreshStates(file)), targets))
  {
    if targets.Some? {
      var g, s := BuildGraph(file), StatusesOf(FreshStates(file));
      var e := ExecutionSet(g, s, targets.value);
      TopoAcyclic(g, topo);
      forall x, d | x in g && x in e && d in g[x] ensures d in e {
        var t :| t in targets.value && (t == x || x in TransDeps(g, t));
        if t == x { ReachesEdge(g, x, d); } else { ReachesSnoc(g, t, x, d); }
        assert d in TransDeps(g, t);
      }
    }
  }

  ghost function NotDoomed(g: Graph, ok: set<Id>): set<Id> {
    set x | x in g && !Doomed(g, ok, x)
  }

  lemma DryRunPredicts(file: seq<FileNode>, topo: seq<Id>, targets: Option<seq<Id>>, limit: nat, ok: set<Id>)
    requires IsTopologicalOrder(BuildGraph(file), topo) && limit <= 1
    ensures var g, s := BuildGraph(file), StatusesOf(FreshStates(file));
            var scope := Scope(g, s, targets);
            Run(Plan(g, topo, limit, false, scope, ok), s).results
            == Results(ok, Keep(DryRunPlan(topo, scope), NotDoomed(g, ok)))
  {
    var g, s := BuildGraph(file), StatusesOf(FreshStates(file));
    var p := Plan(g, topo, limit, false, Scope(g, s, targets), ok);
    FreshScopeClosed(file, topo, targets);
    FreshRunInv(file, ok);
    SerialRun(p, s);
    FreshSafe(file);
    assert ActiveIds(s) == g.Keys;
    AllTodo(p, s);
  }

  /** With every node active, what is to do is the plan without the doomed nodes. */
  lemma AllTodo(p: Plan, s: StatusMap)
    requires IsTopologicalOrder(p.g, p.topo) && ActiveIds(s) == p.g.Keys
    ensures Keep(p.topo, Todo(p, s)) == Keep(DryRunPlan(p.topo, p.scope), NotDoomed(p.g, p.ok))
  {
    var sound := NotDoomed(p.g, p.ok);
    if p.scope.Some? {
      KeepTwice(p.topo, p.scope.value, sound);
      KeepAgree(p.topo, Todo(p, s), p.scope.value * sound);
    } else {
      KeepAgree(p.topo, Todo(p, s), sound);
    }
  }

  /** When every planned node succeeds, the run is the dry-run plan itself. */
  lemma DryRunExact(file: seq<FileNode>, topo: seq<Id>, targets: Option<seq<Id>>, limit: nat, ok: set<Id>)
    requires IsTopologicalOrder(BuildGraph(file), topo) && limit <= 1
    requires Elems(DryRunPlan(topo, Scope(BuildGraph(file), StatusesOf(FreshStates(file)), targets))) <= ok
    ensures var g, s := BuildGraph(file), StatusesOf(FreshStates(file));
            var scope := Scope(g, s, targets);
            Run(Plan(g, topo, limit, false, scope, ok), s).results == Results(ok, DryRunPlan(topo, scope))
  {
    var g, s := BuildGraph(file), StatusesOf(FreshStates(file));
    var scope := Scope(g, s, targets);
    var plan := DryRunPlan(topo, scope);
    DryRunPredicts(file, topo, targets, limit, ok);
    FreshScopeClosed(file, topo, targets);
    forall x | x in plan ensures x in NotDoomed(g, ok) {
      assert x in Elems(plan);
      forall y | Reaches(g, x, y) ensures y in ok {
        ReachesKeys(g, x, y);
        if scope.Some? {
          var n: nat :| ReachesIn(g, x, y, n);
          ClosedSetReach(g, scope.value, x, y, n);
        }
        assert y in Elems(plan);
      }
    }
    KeepAgree(plan, NotDoomed(g, ok), Elems(plan));
    KeepAll(plan, Elems(plan));
  }

  // ----- fail-fast -----

  /** The results up to and including the first failure. */
  function CutAtFailure(rs: seq<NodeResult>): seq<NodeResult> {
    if rs == [] then [] else [rs[0]] + if rs[0].status.Failed? then [] else CutAtFailure(rs[1..])
  }

  /** One turn of a serial run, with or without fail-fast. */
  lemma SerialTurn(p: Plan, s: StatusMap, x: Id)
    requires ValidPlan(p) && s.Keys == p.g.Keys && p.limit <= 1 && Candidates(p, s) != {}
    requires x == Batch(p, Candidates(p, s))[0]
    ensures var t := After(p.g, p.ok, s, {x});
            && t.Keys == s.Keys && |ActiveIds(t)| < |ActiveIds(s)|
            && Run(p, s).results == [NodeResult(x, Verdict(p.ok, x))] +
                 if p.failFast && x !in p.ok then [] else Run(p, t).results
  {
    assert Batch(p, Candidates(p, s)) == [x] && Elems([x]) == {x};
    RunStep(p, s);
    ResultsOne(p.ok, x);
  }

  /** A serial fail-fast run is the run without fail-fast, cut after its first failure. */
  lemma {:induction false} SerialFailFast(p: Plan, s: StatusMap)
    requires ValidPlan(p) && s.Keys == p.g.Keys && p.limit <= 1 && p.failFast
    ensures Run(p, s).results == CutAtFailure(Run(p.(failFast := false), s).results)
    decreases |ActiveIds(s)|
  {
    var q := p.(failFast := false);
    assert Candidates(q, s) == Candidates(p, s);
    if Candidates(p, s) != {} {
      var x := Batch(p, Candidates(p, s))[0];
      var t := After(p.g, p.ok, s, {x});
      SerialTurn(p, s, x);
      SerialTurn(q, s, x);
      CutCons(NodeResult(x, Verdict(p.ok, x)), Run(q, t).results);
      if x in p.ok {
        SerialFailFast(p, t);
      }
    }
  }

  lemma CutCons(r: NodeResult, rest: seq<NodeResult>)
    ensures CutAtFailure([r] + rest) == [r] + if r.status.Failed? then [] else CutAtFailure(rest)
  {
    assert ([r] + rest)[1..] == rest;
  }

  lemma ResultsOne(ok: set<Id>, x: Id)
    ensures Results(ok, [x]) == [NodeResult(x, Verdict(ok, x))]
  {
  }

  /** With fail-fast a fresh serial run is the predicted sequence up to its first failing node. */
  lemma DryRunFailFast(file: seq<FileNode>, topo: seq<Id>, targets: Option<seq<Id>>, limit: nat, ok: set<Id>)
    requires IsTopologicalOrder(BuildGraph(file), topo) && limit <= 1
    ensures var g, s := BuildGraph(file), StatusesOf(FreshStates(file));
            var scope := Scope(g, s, targets);
            Run(Plan(g, topo, limit, true, scope, ok), s).results
            == CutAtFailure(Results(ok, Keep(DryRunPlan(topo, scope), NotDoomed(g, ok))))
  {
    var g, s := BuildGraph(file), StatusesOf(FreshStates(file));
    SerialFailFast(Plan(g, topo, limit, true, Scope(g, s, targets), ok), s);
    DryRunPredicts(file, topo, targets, limit, ok);
  }

  lemma {:induction false} KeepAll(order: seq<Id>, t: set<Id>)
    requires Elems(order) <= t
    ensures Keep(order, t) == order
  {
    if order != [] {
      assert order == [order[0]] + order[1..];
      assert order[0] in Elems(order);
      KeepAll(order[1..], t);
    }
  }
}
