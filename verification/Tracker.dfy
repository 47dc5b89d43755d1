/** The execution tracker: node states of one file, changed in place. */
module Tracker {
  import opened Options
  import opened Ordering
  import opened Reachability
  import opened Lifecycle

  datatype FileNode = FileNode(id: Id, depends: seq<Id>)

  datatype NodeState = NodeState(status: Status, executedBy: Option<string>, log: Option<string>, retryCount: nat)

  type NodeStates = map<Id, NodeState>

  // NodeState::default()
  const DEFAULT_STATE := NodeState(Pending, None, None, 0)

  function Ids(file: seq<FileNode>): set<Id> {
    set n | n in file :: n.id
  }

  predicate UniqueIds(file: seq<FileNode>) {
    forall i, j :: 0 <= i < j < |file| ==> file[i].id != file[j].id
  }

  function DependsOf(file: seq<FileNode>, x: Id): set<Id> {
    set n, d | n in file && n.id == x && d in n.depends :: d
  }

  /** One vertex per node and one edge per dependency that names a node of the file. */
  function BuildGraph(file: seq<FileNode>): (g: Graph)
    ensures g.Keys == Ids(file)
    ensures Closed(g)
  {
    map x | x in Ids(file) :: DependsOf(file, x) * Ids(file)
  }

  function StatusesOf(nodes: NodeStates): (s: StatusMap)
    ensures s.Keys == nodes.Keys
  {
    map x | x in nodes :: nodes[x].status
  }

  /** The state of a node that has not run: Ready if it names no dependency. */
  function NewState(file: seq<FileNode>, x: Id): NodeState {
    DEFAULT_STATE.(status := if DependsOf(file, x) == {} then Ready else Pending)
  }

  function FreshStates(file: seq<FileNode>): NodeStates {
    map x | x in Ids(file) :: NewState(file, x)
  }

  /** Known nodes keep their state, stale ones go, new ones start fresh. */
  function Reconciled(file: seq<FileNode>, nodes: NodeStates): NodeStates {
    map x | x in Ids(file) :: if x in nodes then nodes[x] else NewState(file, x)
  }

  lemma DependsOfAt(file: seq<FileNode>, i: nat)
    requires UniqueIds(file) && i < |file|
    ensures DependsOf(file, file[i].id) == Elems(file[i].depends)
  {
    forall n | n in file && n.id == file[i].id ensures n == file[i] {
      var j :| 0 <= j < |file| && file[j] == n;
    }
  }

  lemma NewStateAt(file: seq<FileNode>, i: nat)
    requires UniqueIds(file) && i < |file|
    ensures NewState(file, file[i].id) == NodeState(if |file[i].depends| > 0 then Pending else Ready, None, None, 0)
  {
    DependsOfAt(file, i);
    assert |file[i].depends| > 0 ==> file[i].depends[0] in Elems(file[i].depends);
  }

  /** The edges from one node to its dependencies; a target that is no node is left out. */
  method AddEdges(g: Graph, x: Id, depends: seq<Id>) returns (r: Graph)
    requires x in g && g[x] == {}
    ensures r == g[x := Elems(depends) * g.Keys]
  {
    var targets: set<Id> := {};
    for j := 0 to |depends|
      invariant targets == Elems(depends[..j]) * g.Keys
    {
      assert depends[..j + 1] == depends[..j] + [depends[j]];
      if depends[j] in g {
        targets := targets + {depends[j]};
      }
    }
    assert depends[..|depends|] == depends;
    r := g[x := targets];
  }

  /** All nodes are there, and the first `i` have their edges. */
  ghost predicate Linked(file: seq<FileNode>, i: nat, g: Graph) {
    && g.Keys == Ids(file)
    && forall k :: 0 <= k < |file| ==>
         file[k].id in g && g[file[k].id] == if k < i then Elems(file[k].depends) * Ids(file) else {}
  }

  lemma LinkedAll(file: seq<FileNode>, g: Graph)
    requires UniqueIds(file) && Linked(file, |file|, g)
    ensures g == BuildGraph(file)
  {
    forall x | x in g ensures g[x] == BuildGraph(file)[x] {
      var n :| n in file && n.id == x;
      var k :| 0 <= k < |file| && file[k] == n;
      DependsOfAt(file, k);
    }
  }

  method AddNodes(file: seq<FileNode>) returns (g: Graph)
    ensures g == map x | x in Ids(file) :: {}
  {
    g := map[];
    for i := 0 to |file|
      invariant g == map x | x in Ids(file[..i]) :: {}
    {
      assert file[..i + 1] == file[..i] + [file[i]];
      g := g[file[i].id := {}];
    }
    assert file[..|file|] == file;
  }

  lemma LinkedStep(file: seq<FileNode>, i: nat, g: Graph)
    requires UniqueIds(file) && i < |file| && Linked(file, i, g)
    ensures file[i].id in g && g[file[i].id] == {}
    ensures Linked(file, i + 1, g[file[i].id := Elems(file[i].depends) * g.Keys])
  {
  }

  /** First all nodes, then the edges. An edge goes from a node to each of its dependencies that
      is a node of the file. */
  method MakeGraph(file: seq<FileNode>) returns (g: Graph)
    requires UniqueIds(file)
    ensures g == BuildGraph(file) && g.Keys == Ids(file)
    ensures forall i, d :: 0 <= i < |file| ==>
      && file[i].id in g
      && (d in g[file[i].id] <==> d in file[i].depends && exists k :: 0 <= k < |file| && file[k].id == d)
  {
    g := AddNodes(file);
    for i := 0 to |file|
      invariant Linked(file, i, g)
    {
      LinkedStep(file, i, g);
      g := AddEdges(g, file[i].id, file[i].depends);
    }
    LinkedAll(file, g);
    forall d ensures d in Ids(file) <==> exists k :: 0 <= k < |file| && file[k].id == d {
      if d in Ids(file) { var n :| n in file && n.id == d; }
    }
  }

  method Initialize(file: seq<FileNode>) returns (nodes: NodeStates)
    requires UniqueIds(file)
    ensures nodes == FreshStates(file)
    ensures nodes.Keys == Ids(file) && forall i :: 0 <= i < |file| ==>
      && file[i].id in nodes
      && nodes[file[i].id] == NodeState(if file[i].depends == [] then Ready else Pending, None, None, 0)
  {
    nodes := map[];
    for i := 0 to |file|
      invariant nodes.Keys == Ids(file[..i])
      invariant forall x :: x in nodes ==> nodes[x] == NewState(file, x)
    {
      NewStateAt(file, i);
      var status := if |file[i].depends| > 0 then Pending else Ready;
      nodes := nodes[file[i].id := NodeState(status, None, None, 0)];
      assert file[..i + 1] == file[..i] + [file[i]];
    }
    assert file[..|file|] == file;
    forall i | 0 <= i < |file| ensures file[i].id in nodes && nodes[file[i].id] == NewState(file, file[i].id) {
    }
    forall i | 0 <= i < |file| { NewStateAt(file, i); }
  }

  method ReconcileState(state: NodeStates, file: seq<FileNode>) returns (nodes: NodeStates)
    requires UniqueIds(file)
    ensures nodes == Reconciled(file, state)
    ensures nodes.Keys == Ids(file) && forall i :: 0 <= i < |file| ==>
      file[i].id in nodes &&
      nodes[file[i].id] == if file[i].id in state then state[file[i].id]
                           else NodeState(if file[i].depends == [] then Ready else Pending, None, None, 0)
  {
    nodes := map x | x in state && x in Ids(file) :: state[x];
    for i := 0 to |file|
      invariant ReconciledTo(file, state, i, nodes)
    {
      NewStateAt(file, i);
      ReconcileStep(file, state, i, nodes);
      if file[i].id !in nodes {
        var status := if |file[i].depends| > 0 then Pending else Ready;
        nodes := nodes[file[i].id := NodeState(status, None, None, 0)];
      }
    }
    ReconcileEnd(file, state, nodes);
    forall i | 0 <= i < |file| { NewStateAt(file, i); }
  }

  lemma ReconcileEnd(file: seq<FileNode>, state: NodeStates, nodes: NodeStates)
    requires ReconciledTo(file, state, |file|, nodes)
    ensures nodes == Reconciled(file, state)
  {
    assert file[..|file|] == file;
  }

  /** Stale nodes are gone, and the first `i` nodes of the file are present. */
  ghost predicate ReconciledTo(file: seq<FileNode>, state: NodeStates, i: nat, nodes: NodeStates)
    requires i <= |file|
  {
    && nodes.Keys == state.Keys * Ids(file) + Ids(file[..i])
    && forall x :: x in nodes ==> nodes[x] == if x in state then state[x] else NewState(file, x)
  }

  lemma ReconcileStep(file: seq<FileNode>, state: NodeStates, i: nat, nodes: NodeStates)
    requires i < |file| && ReconciledTo(file, state, i, nodes)
    ensures var x := file[i].id;
            ReconciledTo(file, state, i + 1, if x in nodes then nodes else nodes[x := NewState(file, x)])
  {
    assert file[..i + 1] == file[..i] + [file[i]];
    assert Ids(file[..i + 1]) == Ids(file[..i]) + {file[i].id};
    assert file[i].id in Ids(file);
  }

  /** The active members of `hit` become Blocked; nothing else about them changes. */
  function BlockAll(nodes: NodeStates, hit: set<Id>): NodeStates {
    map y | y in nodes :: if y in hit && Active(nodes[y].status) then nodes[y].(status := Blocked) else nodes[y]
  }

  /** Loading the state of an unchanged file changes nothing. */
  lemma ReconcileUnchanged(file: seq<FileNode>, nodes: NodeStates)
    requires nodes.Keys == Ids(file)
    ensures Reconciled(file, nodes) == nodes
  {
  }

  // ----- filtering -----

  /** The members of `s` that are in `t`, in the order of `s`. */
  function Keep(s: seq<Id>, t: set<Id>): (r: seq<Id>)
    ensures Elems(r) == Elems(s) * t
  {
    if s == [] then []
    else
      var r := Keep(s[1..], t);
      assert s == [s[0]] + s[1..];
      assert Elems([s[0]] + r) == {s[0]} + Elems(r);
      if s[0] in t then [s[0]] + r else r
  }

  /** Filtering treats one id after the other. */
  lemma {:induction false} KeepConcat(a: seq<Id>, b: seq<Id>, t: set<Id>)
    ensures Keep(a + b, t) == Keep(a, t) + Keep(b, t)
    ensures forall x :: Keep([x], t) == if x in t then [x] else []
  {
    if a == [] {
      assert a + b == b;
    } else {
      KeepConcat(a[1..], b, t);
      assert (a + b)[1..] == a[1..] + b;
    }
  }

  lemma {:induction false} KeepTwice(order: seq<Id>, a: set<Id>, b: set<Id>)
    ensures Keep(Keep(order, a), b) == Keep(order, a * b)
  {
    if order != [] {
      KeepTwice(order[1..], a, b);
      if order[0] in a {
        assert Keep(order, a)[1..] == Keep(order[1..], a);
      }
    }
  }

  lemma {:induction false} KeepSortedKeys(s: set<Id>, t: set<Id>)
    ensures Keep(SortedKeys(s), t) == SortedKeys(s * t)
    decreases |s|
  {
    if s == {} {
      assert s * t == {};
    } else {
      LeastExists(s);
      LeastUnique(s);
      var r := SortedKeys(s);
      var m := r[0];
      assert r[1..] == SortedKeys(s - {m}) && IsLeast(m, s);
      KeepSortedKeys(s - {m}, t);
      if m in t {
        LeastUnique(s * t);
        assert IsLeast(m, s * t);
        assert s * t - {m} == (s - {m}) * t;
      } else {
        assert s * t == (s - {m}) * t;
      }
    }
  }

  // ----- progress -----

  function WithStatus(s: StatusMap, st: Status): set<Id> {
    set x | x in s && s[x] == st
  }

  datatype Progress = Progress(total: nat, completed: nat, failed: nat, blocked: nat,
                               skipped: nat, pending: nat, ready: nat, inProgress: nat, percent: real)

  predicate ProgressOf(s: StatusMap, p: Progress) {
    && p.completed == |WithStatus(s, Completed)| && p.failed == |WithStatus(s, Failed)|
    && p.blocked == |WithStatus(s, Blocked)| && p.skipped == |WithStatus(s, Skipped)|
    && p.pending == |WithStatus(s, Pending)| && p.ready == |WithStatus(s, Ready)|
    && p.inProgress == |WithStatus(s, InProgress)|
  }

  function Sum(p: Progress): nat {
    p.completed + p.failed + p.blocked + p.skipped + p.pending + p.ready + p.inProgress
  }

  function ProgressFrom(total: nat, tally: multiset<Status>): Progress {
    Progress(total, tally[Completed], tally[Failed], tally[Blocked],
             tally[Skipped], tally[Pending], tally[Ready], tally[InProgress],
             0.0)
  }

  function Percent(done: nat, total: nat): real {
    if total == 0 then 0.0 else done as real / total as real * 100.0
  }

  /** The share of nodes that are done, between 0 and 100, and 100 only when all are. */
  lemma PercentExact(done: nat, total: nat)
    requires done <= total
    ensures Percent(done, total) * total as real == done as real * 100.0
    ensures total == 0 ==> Percent(done, total) == 0.0
    ensures 0.0 <= Percent(done, total) <= 100.0
    ensures total > 0 ==> (Percent(done, total) == 100.0 <==> done == total)
  {
    if total > 0 {
      var share := done as real / total as real;
      assert share * total as real == done as real;
      assert share <= 1.0 && (share == 1.0 <==> done == total);
    }
  }

  ghost function StatusBag(s: StatusMap, keys: seq<Id>): multiset<Status> {
    if keys == [] then multiset{}
    else
      var k := keys[|keys| - 1];
      StatusBag(s, keys[..|keys| - 1]) + if k in s then multiset{s[k]} else multiset{}
  }

  lemma {:induction false} StatusBagCounts(s: StatusMap, keys: seq<Id>, st: Status)
    requires NoDup(keys) && Elems(keys) <= s.Keys
    ensures StatusBag(s, keys)[st] == |WithStatus(s, st) * Elems(keys)|
  {
    if keys != [] {
      var k, rest := keys[|keys| - 1], keys[..|keys| - 1];
      assert keys == rest + [k];
      assert k in Elems(keys) && Elems(keys) == Elems(rest) + {k};
      assert k !in Elems(rest);
      StatusBagCounts(s, rest, st);
      CountExtend(WithStatus(s, st), Elems(rest), k);
    }
  }

  lemma CountExtend(a: set<Id>, b: set<Id>, k: Id)
    requires k !in b
    ensures |a * (b + {k})| == |a * b| + if k in a then 1 else 0
  {
    assert a * (b + {k}) == if k in a then a * b + {k} else a * b;
  }

  lemma StatusBagStep(s: StatusMap, keys: seq<Id>, i: nat)
    requires i < |keys| && Elems(keys) == s.Keys
    ensures keys[i] in s
    ensures StatusBag(s, keys[..i + 1]) == StatusBag(s, keys[..i]) + multiset{s[keys[i]]}
  {
    assert keys[i] in Elems(keys);
    assert keys[..i + 1][..i] == keys[..i];
  }

  ghost function BagSum(m: multiset<Status>): nat {
    m[Completed] + m[Failed] + m[Blocked] + m[Skipped] + m[Pending] + m[Ready] + m[InProgress]
  }

  lemma {:induction false} StatusBagSum(s: StatusMap, keys: seq<Id>)
    requires Elems(keys) <= s.Keys
    ensures BagSum(StatusBag(s, keys)) == |keys|
  {
    if keys != [] {
      var k, rest := keys[|keys| - 1], keys[..|keys| - 1];
      assert k in Elems(keys) && Elems(rest) <= Elems(keys);
      StatusBagSum(s, rest);
      BagSumStep(StatusBag(s, rest), s[k]);
    }
  }

  lemma BagSumStep(m: multiset<Status>, st: Status)
    ensures BagSum(m + multiset{st}) == BagSum(m) + 1
  {
    match st
    case Completed =>
    case Failed =>
    case Blocked =>
    case Skipped =>
    case Pending =>
    case Ready =>
    case InProgress =>
  }

  lemma CountsAll(s: StatusMap, keys: seq<Id>)
    requires NoDup(keys) && Elems(keys) == s.Keys
    ensures ProgressOf(s, ProgressFrom(|keys|, StatusBag(s, keys)))
    ensures Sum(ProgressFrom(|keys|, StatusBag(s, keys))) == |keys|
  {
    StatusBagSum(s, keys);
    forall st: Status ensures StatusBag(s, keys)[st] == |WithStatus(s, st)| {
      StatusBagCounts(s, keys, st);
      assert WithStatus(s, st) * Elems(keys) == WithStatus(s, st);
    }
  }

  lemma BlockAllStep(nodes: NodeStates, hit: set<Id>, y: Id)
    requires y !in hit
    ensures BlockAll(nodes, hit + {y}) ==
            if y in nodes && Active(nodes[y].status) then BlockAll(nodes, hit)[y := nodes[y].(status := Blocked)]
            else BlockAll(nodes, hit)
  {
  }

  ghost predicate Recorded(newly: seq<Id>, s: set<Id>) {
    NoDup(newly) && Elems(newly) == s
  }

  lemma RecordedStep(newly: seq<Id>, hit: set<Id>, active: set<Id>, y: Id)
    requires Recorded(newly, hit * active) && y !in hit
    ensures Recorded(if y in active then newly + [y] else newly, (hit + {y}) * active)
  {
    assert y !in Elems(newly);
    if y in active {
      assert Elems(newly + [y]) == Elems(newly) + {y};
    } else {
      assert (hit + {y}) * active == hit * active;
    }
  }

  /** The nodes of `xs` back in their default state. */
  function Cleared(nodes: NodeStates, xs: set<Id>): NodeStates {
    map x | x in nodes :: if x in xs then DEFAULT_STATE else nodes[x]
  }

  lemma ClearedStep(nodes: NodeStates, xs: seq<Id>, i: nat)
    requires i < |xs| && xs[i] in nodes
    ensures Cleared(nodes, Elems(xs[..i + 1])) == Cleared(nodes, Elems(xs[..i]))[xs[i] := DEFAULT_STATE]
  {
    assert Elems(xs[..i + 1]) == Elems(xs[..i]) + {xs[i]};
  }

  // ----- the tracker -----

  class ExecutionTracker {
    var nodes: NodeStates
    const graph: Graph

    ghost predicate Valid()
      reads this
    {
      Closed(graph) && nodes.Keys == graph.Keys
    }

    function Statuses(): StatusMap
      reads this
    {
      StatusesOf(nodes)
    }

    /** Loads and reconciles a saved state, or starts from scratch. */
    constructor (file: seq<FileNode>, existing: Option<NodeStates>)
      requires UniqueIds(file)
      ensures graph == BuildGraph(file) && Valid()
      ensures nodes == if existing.Some? then Reconciled(file, existing.value) else FreshStates(file)
    {
      var made := MakeGraph(file);
      graph := made;
      if existing.Some? {
        var loaded := ReconcileState(existing.value, file);
        nodes := loaded;
      } else {
        var initial := Initialize(file);
        nodes := initial;
      }
    }

    method Transition(x: Id, to: Status) returns (ok: bool)
      modifies this`nodes
      ensures ok <==> x in old(nodes) && ValidTransition(old(nodes)[x].status, to)
      ensures nodes == if ok then old(nodes)[x := old(nodes)[x].(status := to)] else old(nodes)
    {
      if x !in nodes || !ValidTransition(nodes[x].status, to) {
        return false;
      }
      nodes := nodes[x := nodes[x].(status := to)];
      return true;
    }

    method MarkCompleted(x: Id, agent: string, log: Option<string>) returns (ok: bool)
      modifies this`nodes
      ensures ok <==> x in old(nodes) && old(nodes)[x].status.InProgress?
      ensures nodes == if ok then old(nodes)[x := NodeState(Completed, Some(agent), log, old(nodes)[x].retryCount)]
                       else old(nodes)
    {
      if x !in nodes || !ValidTransition(nodes[x].status, Completed) {
        return false;
      }
      nodes := nodes[x := nodes[x].(status := Completed, executedBy := Some(agent), log := log)];
      return true;
    }

    method MarkFailed(x: Id, agent: string, log: Option<string>) returns (ok: bool)
      modifies this`nodes
      ensures ok <==> x in old(nodes) && old(nodes)[x].status.InProgress?
      ensures nodes == if ok then old(nodes)[x := NodeState(Failed, Some(agent), log, old(nodes)[x].retryCount)]
                       else old(nodes)
    {
      if x !in nodes || !ValidTransition(nodes[x].status, Failed) {
        return false;
      }
      nodes := nodes[x := nodes[x].(status := Failed, executedBy := Some(agent), log := log)];
      return true;
    }

    /** The guard is the transition table's entry into Ready, which is wider than "Failed". */
    method Retry(x: Id) returns (ok: bool)
      modifies this`nodes
      ensures ok <==> x in old(nodes) && old(nodes)[x].status in {Pending, Failed, Blocked}
      ensures nodes == if ok then old(nodes)[x := NodeState(Ready, None, None, old(nodes)[x].retryCount + 1)]
                       else old(nodes)
    {
      if x !in nodes || !ValidTransition(nodes[x].status, Ready) {
        return false;
      }
      nodes := nodes[x := NodeState(Ready, None, None, nodes[x].retryCount + 1)];
      return true;
    }

    method Reset()
      modifies this`nodes
      ensures nodes.Keys == old(nodes).Keys
      ensures forall x :: x in nodes ==> nodes[x] == NodeState(Pending, None, None, 0)
    {
      var keys := SortedKeys(nodes.Keys);
      for i := 0 to |keys|
        invariant nodes == Cleared(old(nodes), Elems(keys[..i]))
      {
        assert keys[i] in Elems(keys);
        ClearedStep(old(nodes), keys, i);
        nodes := nodes[keys[i] := DEFAULT_STATE];
      }
      assert keys[..|keys|] == keys;
    }

    method ResetNode(x: Id) returns (ok: bool)
      modifies this`nodes
      ensures ok <==> x in old(nodes)
      ensures nodes == if ok then old(nodes)[x := NodeState(Pending, None, None, 0)] else old(nodes)
    {
      if x !in nodes {
        return false;
      }
      nodes := nodes[x := DEFAULT_STATE];
      return true;
    }

    /** Ids that may run now, in key order. */
    function ReadyNodes(): seq<Id>
      reads this
    {
      Keep(SortedKeys(nodes.Keys), Eligible(graph, Statuses()))
    }

    method GetProgress() returns (p: Progress)
      ensures ProgressOf(Statuses(), p) && p.total == |nodes|
      ensures p.total == Sum(p)
      ensures p.percent == Percent(p.completed + p.skipped, p.total)
    {
      p := CountStatuses();
      p := p.(percent := Percent(p.completed + p.skipped, p.total));
    }

    method CountStatuses() returns (p: Progress)
      ensures ProgressOf(Statuses(), p) && p.total == |nodes|
      ensures p.total == Sum(p)
    {
      ghost var s := Statuses();
      var keys := SortedKeys(nodes.Keys);
      var tally: multiset<Status> := multiset{};
      for i := 0 to |keys|
        invariant tally == StatusBag(s, keys[..i])
      {
        StatusBagStep(s, keys, i);
        tally := tally + multiset{nodes[keys[i]].status};
      }
      SortedKeysNoDup(nodes.Keys);
      assert keys[..|keys|] == keys;
      CountsAll(s, keys);
      p := ProgressFrom(|keys|, tally);
    }

    /** Blocks the active dependents of a failed node and reports which ones. */
    method PropagateBlocked(failed: Id) returns (newlyBlocked: seq<Id>)
      requires Valid()
      modifies this`nodes
      ensures nodes == BlockAll(old(nodes), TransDependents(graph, failed))
      ensures Statuses() == Propagate(graph, old(Statuses()), failed)
      ensures Recorded(newlyBlocked, TransDependents(graph, failed) * ActiveIds(old(Statuses())))
    {
      var dependents := TransitiveDependents(graph, failed);
      ghost var active := ActiveIds(Statuses());
      newlyBlocked := [];
      var rest := dependents;
      while rest != {}
        invariant rest <= dependents
        invariant nodes == BlockAll(old(nodes), dependents - rest)
        invariant Recorded(newlyBlocked, (dependents - rest) * active)
        decreases rest
      {
        var y :| y in rest;
        BlockAllStep(old(nodes), dependents - rest, y);
        RecordedStep(newlyBlocked, dependents - rest, active, y);
        assert dependents - (rest - {y}) == (dependents - rest) + {y};
        rest := rest - {y};
        assert y in nodes ==> nodes[y] == old(nodes)[y];
        if y in nodes && Active(nodes[y].status) {
          nodes := nodes[y := nodes[y].(status := Blocked)];
          newlyBlocked := newlyBlocked + [y];
        }
      }
      assert dependents - rest == dependents;
    }
  }
}
