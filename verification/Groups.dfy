/** The order in which orchestration groups run: Kahn's algorithm over `requires`. */
module Groups {
  import opened Options
  import opened Ordering
  import opened Reachability
  import opened Tracker

  datatype Strategy = Sequential | Parallel

  datatype Group = Group(name: string, nodes: seq<Id>, strategy: Strategy,
                         prerequisites: seq<string>, maxConcurrency: Option<nat>)

  function Names(groups: seq<Group>): set<string> {
    set g | g in groups :: g.name
  }

  function RequiredBy(groups: seq<Group>, name: string): set<string> {
    set g, r | g in groups && g.name == name && r in g.prerequisites :: r
  }

  function GroupGraph(groups: seq<Group>): Graph {
    map n | n in Names(groups) :: RequiredBy(groups, n)
  }

  ghost predicate DistinctNames(groups: seq<Group>) {
    |Names(groups)| == |groups|
  }

  ghost predicate AllKnown(groups: seq<Group>) {
    forall g, r :: g in groups && r in g.prerequisites ==> r in Names(groups)
  }

  ghost predicate Resolvable(groups: seq<Group>) {
    DistinctNames(groups) && AllKnown(groups) && Acyclic(GroupGraph(groups))
  }

  // ----- the result, without queues of counters -----

  /** The groups that running `current` last, after the rest of `done`, sets free. */
  function Freed(g: Graph, current: string, done: set<string>): set<string> {
    set n | n in g && current in g[n] && g[n] <= done
  }

  ghost function Kahn(g: Graph, queue: seq<string>, order: seq<string>): seq<string>
    decreases |g.Keys - Elems(order)|
  {
    if queue == [] || queue[0] !in g || queue[0] in order then order
    else
      var next := order + [queue[0]];
      assert queue[0] in Elems(next) && Elems(next) == Elems(order) + {queue[0]};
      SmallerSet(g.Keys - Elems(next), g.Keys - Elems(order));
      Kahn(g, queue[1..] + SortedKeys(Freed(g, queue[0], Elems(next))), next)
  }

  ghost function GroupOrder(groups: seq<Group>): seq<string> {
    var g := GroupGraph(groups);
    Kahn(g, SortedKeys(set n | n in g && g[n] == {}), [])
  }

  // ----- edges and counters -----

  datatype Edge = Edge(from: string, to: string)

  ghost function TargetsOf(edges: seq<Edge>, from: string): seq<string> {
    if edges == [] then []
    else
      var e := edges[|edges| - 1];
      TargetsOf(edges[..|edges| - 1], from) + if e.from == from then [e.to] else []
  }

  /** The number of edges into `n` whose source is not done. */
  ghost function Open(edges: seq<Edge>, done: set<string>, n: string): nat {
    if edges == [] then 0
    else
      var e := edges[|edges| - 1];
      Open(edges[..|edges| - 1], done, n) + if e.to == n && e.from !in done then 1 else 0
  }

  lemma AddEdge(edges: seq<Edge>, e: Edge, x: string)
    ensures TargetsOf(edges + [e], x) == TargetsOf(edges, x) + if e.from == x then [e.to] else []
    ensures Open(edges + [e], {}, x) == Open(edges, {}, x) + if e.to == x then 1 else 0
  {
    assert (edges + [e])[..|edges|] == edges;
  }

  /** Finishing `c` closes as many edges into `n` as `n` occurs among the targets of `c`. */
  lemma {:induction false} OpenSplit(edges: seq<Edge>, done: set<string>, c: string, n: string)
    requires c !in done
    ensures Open(edges, done, n) == Open(edges, done + {c}, n) + multiset(TargetsOf(edges, c))[n]
  {
    if edges != [] {
      OpenSplit(edges[..|edges| - 1], done, c, n);
    }
  }

  lemma {:induction false} OpenZero(edges: seq<Edge>, done: set<string>, n: string)
    ensures Open(edges, done, n) == 0 <==> forall e :: e in edges && e.to == n ==> e.from in done
  {
    if edges != [] {
      var front := edges[..|edges| - 1];
      assert edges == front + [edges[|edges| - 1]];
      OpenZero(front, done, n);
    }
  }

  lemma {:induction false} TargetsExact(edges: seq<Edge>, c: string, n: string)
    ensures n in TargetsOf(edges, c) <==> Edge(c, n) in edges
  {
    if edges != [] {
      var front := edges[..|edges| - 1];
      assert edges == front + [edges[|edges| - 1]];
      TargetsExact(front, c, n);
    }
  }

  ghost predicate EdgesOf(g: Graph, edges: seq<Edge>) {
    forall r, n :: Edge(r, n) in edges <==> n in g && r in g[n]
  }

  lemma OpenZeroExact(g: Graph, edges: seq<Edge>, done: set<string>, n: string)
    requires EdgesOf(g, edges) && n in g
    ensures Open(edges, done, n) == 0 <==> g[n] <= done
  {
    OpenZero(edges, done, n);
    if forall e :: e in edges && e.to == n ==> e.from in done {
      forall r | r in g[n] ensures r in done {
        assert Edge(r, n) in edges;
      }
    }
    if g[n] <= done {
      forall e | e in edges && e.to == n ensures e.from in done {
        assert Edge(e.from, n) in edges;
      }
    }
  }

  // ----- the method -----

  datatype OrderResult = Ordered(order: seq<string>) | UnknownGroup(group: string, missing: string) | CycleDetected

  // The adjacency lists and in-degrees that the loop over the groups fills in.
  datatype Tables = Tables(dependents: map<string, seq<string>>, inDegree: map<string, nat>)

  function AddName(t: Tables, n: string): Tables {
    if n in t.inDegree then t else t.(inDegree := t.inDegree[n := 0])
  }

  function AddEdgeTo(t: Tables, e: Edge): Tables {
    Tables(t.dependents[e.from := (if e.from in t.dependents then t.dependents[e.from] else []) + [e.to]],
           t.inDegree[e.to := (if e.to in t.inDegree then t.inDegree[e.to] else 0) + 1])
  }

  /** The tables stand for these edges. */
  ghost predicate Faithful(edges: seq<Edge>, t: Tables) {
    && ListsFaithful(edges, t.dependents) && DegreesFaithful(edges, t.inDegree)
    && forall e :: e in edges ==> e.to in t.inDegree
  }

  ghost predicate ListsFaithful(edges: seq<Edge>, dependents: map<string, seq<string>>) {
    forall r :: TargetsOf(edges, r) == if r in dependents then dependents[r] else []
  }

  ghost predicate DegreesFaithful(edges: seq<Edge>, inDegree: map<string, nat>) {
    forall n :: n in inDegree ==> inDegree[n] == Open(edges, {}, n)
  }

  lemma AddNameFaithful(edges: seq<Edge>, t: Tables, n: string)
    requires Faithful(edges, t)
    ensures Faithful(edges, AddName(t, n))
  {
    OpenZero(edges, {}, n);
  }

  lemma AddEdgeLists(edges: seq<Edge>, dependents: map<string, seq<string>>, e: Edge)
    requires ListsFaithful(edges, dependents)
    ensures ListsFaithful(edges + [e],
              dependents[e.from := (if e.from in dependents then dependents[e.from] else []) + [e.to]])
  {
    forall x: string { AddEdge(edges, e, x); }
  }

  lemma AddEdgeDegrees(edges: seq<Edge>, inDegree: map<string, nat>, e: Edge)
    requires DegreesFaithful(edges, inDegree) && e.to in inDegree
    ensures DegreesFaithful(edges + [e], inDegree[e.to := inDegree[e.to] + 1])
  {
    forall x: string { AddEdge(edges, e, x); }
  }

  lemma AddEdgeFaithful(edges: seq<Edge>, t: Tables, e: Edge)
    requires Faithful(edges, t) && e.to in t.inDegree
    ensures Faithful(edges + [e], AddEdgeTo(t, e))
  {
    AddEdgeLists(edges, t.dependents, e);
    AddEdgeDegrees(edges, t.inDegree, e);
  }

  ghost function AddGroup(t: Tables, g: Group, j: nat): Tables
    requires j <= |g.prerequisites|
  {
    if j == 0 then AddName(t, g.name) else AddEdgeTo(AddGroup(t, g, j - 1), Edge(g.prerequisites[j - 1], g.name))
  }

  lemma {:induction false} AddGroupKeys(t: Tables, g: Group, j: nat)
    requires j <= |g.prerequisites|
    ensures AddGroup(t, g, j).inDegree.Keys == t.inDegree.Keys + {g.name}
  {
    if j > 0 {
      AddGroupKeys(t, g, j - 1);
    }
  }

  /** The edges with those of the first `j` requirements of a group behind them. */
  ghost function WithEdges(edges: seq<Edge>, g: Group, j: nat): seq<Edge>
    requires j <= |g.prerequisites|
  {
    if j == 0 then edges else WithEdges(edges, g, j - 1) + [Edge(g.prerequisites[j - 1], g.name)]
  }

  /** The tables stand for the edges once `j` requirements of the group are entered. */
  ghost predicate EnteredFaithfully(edges: seq<Edge>, t: Tables, g: Group, j: nat)
    requires j <= |g.prerequisites|
  {
    Faithful(WithEdges(edges, g, j), AddGroup(t, g, j))
  }

  lemma AddGroupStart(edges: seq<Edge>, t: Tables, g: Group)
    requires Faithful(edges, t)
    ensures EnteredFaithfully(edges, t, g, 0)
  {
    AddNameFaithful(edges, t, g.name);
    assert WithEdges(edges, g, 0) == edges && AddGroup(t, g, 0) == AddName(t, g.name);
  }

  lemma AddGroupStep(edges: seq<Edge>, t: Tables, g: Group, j: nat)
    requires j < |g.prerequisites| && EnteredFaithfully(edges, t, g, j)
    ensures EnteredFaithfully(edges, t, g, j + 1)
  {
    AddGroupKeys(t, g, j);
    AddEdgeFaithful(WithEdges(edges, g, j), AddGroup(t, g, j), Edge(g.prerequisites[j], g.name));
  }

  lemma {:induction false} AddGroupFaithful(edges: seq<Edge>, t: Tables, g: Group, j: nat)
    requires Faithful(edges, t) && j <= |g.prerequisites|
    ensures EnteredFaithfully(edges, t, g, j)
  {
    if j == 0 {
      AddGroupStart(edges, t, g);
    } else {
      AddGroupFaithful(edges, t, g, j - 1);
      AddGroupStep(edges, t, g, j - 1);
    }
  }

  ghost function AddGroups(groups: seq<Group>): Tables {
    if groups == [] then Tables(map[], map[])
    else
      var g := groups[|groups| - 1];
      AddGroup(AddGroups(groups[..|groups| - 1]), g, |g.prerequisites|)
  }

  lemma {:induction false} AddGroupsFaithful(groups: seq<Group>)
    ensures Faithful(EdgeList(groups), AddGroups(groups))
    ensures AddGroups(groups).inDegree.Keys == Names(groups)
  {
    if groups != [] {
      var front, g := groups[..|groups| - 1], groups[|groups| - 1];
      AddGroupsFaithful(front);
      AddGroupFaithful(EdgeList(front), AddGroups(front), g, |g.prerequisites|);
      AddGroupKeys(AddGroups(front), g, |g.prerequisites|);
      NamesAppend(groups);
    }
  }

  lemma NamesAppend(groups: seq<Group>)
    requires groups != []
    ensures Names(groups) == Names(groups[..|groups| - 1]) + {groups[|groups| - 1].name}
  {
    assert groups == groups[..|groups| - 1] + [groups[|groups| - 1]];
  }

  ghost function EdgeList(groups: seq<Group>): seq<Edge> {
    if groups == [] then []
    else
      var g := groups[|groups| - 1];
      WithEdges(EdgeList(groups[..|groups| - 1]), g, |g.prerequisites|)
  }

  lemma {:induction false} WithEdgesExact(edges: seq<Edge>, g: Group, j: nat, e: Edge)
    requires j <= |g.prerequisites|
    ensures e in WithEdges(edges, g, j) <==> e in edges || (g.name == e.to && e.from in g.prerequisites[..j])
  {
    if j > 0 {
      WithEdgesExact(edges, g, j - 1, e);
      assert g.prerequisites[..j] == g.prerequisites[..j - 1] + [g.prerequisites[j - 1]];
    }
  }

  lemma {:induction false} EdgeListExact(groups: seq<Group>, e: Edge)
    ensures e in EdgeList(groups) <==> exists g :: g in groups && g.name == e.to && e.from in g.prerequisites
  {
    if groups != [] {
      var front, g := groups[..|groups| - 1], groups[|groups| - 1];
      assert groups == front + [g];
      EdgeListExact(front, e);
      WithEdgesExact(EdgeList(front), g, |g.prerequisites|, e);
      assert g.prerequisites[..|g.prerequisites|] == g.prerequisites;
    }
  }

  lemma EdgeListGraph(groups: seq<Group>)
    ensures EdgesOf(GroupGraph(groups), EdgeList(groups))
    ensures AllKnown(groups) <==> forall e :: e in EdgeList(groups) ==> e.from in Names(groups)
  {
    forall r, n ensures Edge(r, n) in EdgeList(groups) <==> n in Names(groups) && r in RequiredBy(groups, n) {
      EdgeListExact(groups, Edge(r, n));
    }
    forall g, r | g in groups && r in g.prerequisites ensures Edge(r, g.name) in EdgeList(groups) {
      EdgeListExact(groups, Edge(r, g.name));
    }
    forall e | e in EdgeList(groups) ensures exists g :: g in groups && e.from in g.prerequisites {
      EdgeListExact(groups, e);
    }
  }

  /** `x`, at position `j`, is the first member of `xs` outside `names`. */
  ghost predicate FirstOutside(xs: seq<string>, names: set<string>, j: nat, x: string) {
    j < |xs| && xs[j] == x && x !in names && forall k :: 0 <= k < j ==> xs[k] in names
  }

  /** The first requirement, in list order, that names no group: number `j` of group `i`. */
  ghost predicate FirstUnknownAt(groups: seq<Group>, i: nat, j: nat, name: string, missing: string) {
    && i < |groups| && groups[i].name == name
    && FirstOutside(groups[i].prerequisites, Names(groups), j, missing)
    && forall k :: 0 <= k < i ==> Elems(groups[k].prerequisites) <= Names(groups)
  }

  ghost predicate FirstUnknown(groups: seq<Group>, name: string, missing: string) {
    exists i: nat, j: nat :: FirstUnknownAt(groups, i, j, name, missing)
  }

  /** The first unknown requirement is one, and there is only one first. */
  lemma FirstUnknownOne(groups: seq<Group>, name: string, missing: string, name2: string, missing2: string)
    requires FirstUnknown(groups, name, missing) && FirstUnknown(groups, name2, missing2)
    ensures name == name2 && missing == missing2 && !AllKnown(groups)
  {
    var i: nat, j: nat :| FirstUnknownAt(groups, i, j, name, missing);
    var k: nat, l: nat :| FirstUnknownAt(groups, k, l, name2, missing2);
    assert missing in Elems(groups[i].prerequisites) && missing2 in Elems(groups[k].prerequisites);
    assert groups[i] in groups;
  }

  datatype BuildResult = Built(tables: Tables) | Unknown(group: string, missing: string)

  /** Enters one group's requirements into the tables, up to the first that names no group. */
  method EnterGroup(before: Tables, g: Group, names: set<string>) returns (t: Tables, missing: Option<string>)
    ensures missing.Some? ==> exists j: nat :: FirstOutside(g.prerequisites, names, j, missing.value)
    ensures missing.None? ==> Elems(g.prerequisites) <= names && t == AddGroup(before, g, |g.prerequisites|)
  {
    t := AddName(before, g.name);
    for j := 0 to |g.prerequisites|
      invariant t == AddGroup(before, g, j)
      invariant forall k :: 0 <= k < j ==> g.prerequisites[k] in names
    {
      if g.prerequisites[j] !in names {
        assert FirstOutside(g.prerequisites, names, j, g.prerequisites[j]);
        return t, Some(g.prerequisites[j]);
      }
      t := AddEdgeTo(t, Edge(g.prerequisites[j], g.name));
    }
    return t, None;
  }

  method BuildTables(groups: seq<Group>) returns (r: BuildResult)
    ensures r.Built? ==> AllKnown(groups) && r.tables == AddGroups(groups)
    ensures r.Unknown? ==> FirstUnknown(groups, r.group, r.missing) && !AllKnown(groups)
  {
    var t := Tables(map[], map[]);
    for i := 0 to |groups|
      invariant t == AddGroups(groups[..i])
      invariant forall k :: 0 <= k < i ==> Elems(groups[k].prerequisites) <= Names(groups)
    {
      var missing: Option<string>;
      t, missing := EnterGroup(t, groups[i], Names(groups));
      if missing.Some? {
        ghost var j: nat :| FirstOutside(groups[i].prerequisites, Names(groups), j, missing.value);
        assert FirstUnknownAt(groups, i, j, groups[i].name, missing.value);
        assert groups[i] in groups;
        return Unknown(groups[i].name, missing.value);
      }
      assert groups[..i + 1][..i] == groups[..i];
    }
    assert groups[..|groups|] == groups;
    forall g, r | g in groups && r in g.prerequisites ensures r in Names(groups) {
      assert r in Elems(g.prerequisites);
    }
    return Built(t);
  }

  // ----- Kahn's loop -----

  /** What is in the queue or the order is exactly what no longer waits for anything. */
  ghost predicate QueueInv(g: Graph, queue: seq<string>, order: seq<string>) {
    && NoDup(order + queue) && Elems(order + queue) <= g.Keys
    && (forall n :: n in g ==> (n in order + queue <==> g[n] <= Elems(order)))
    && (forall i :: 0 <= i < |order| ==> DepsBefore(g, order, i))
  }

  ghost predicate KahnInv(g: Graph, edges: seq<Edge>, queue: seq<string>, order: seq<string>,
                          inDegree: map<string, nat>)
  {
    && QueueInv(g, queue, order) && inDegree.Keys == g.Keys
    && forall n :: n in g ==> inDegree[n] == Open(edges, Elems(order), n)
  }

  /** Popping `c`: it may follow the order. */
  lemma PopInv(g: Graph, queue: seq<string>, order: seq<string>)
    requires QueueInv(g, queue, order) && queue != []
    ensures var c := queue[0];
            && c in g && c !in Elems(order) && c !in order
            && Elems(order + [c]) == Elems(order) + {c}
            && forall i :: 0 <= i < |order + [c]| ==> DepsBefore(g, order + [c], i)
  {
    var c, next := queue[0], order + [queue[0]];
    assert (order + queue)[|order|] == c;
    assert c in Elems(order + queue);
    forall j | 0 <= j < |order| ensures order[j] != c {
      assert (order + queue)[j] == order[j];
    }
    forall i | 0 <= i < |next| ensures DepsBefore(g, next, i) {
      if i < |order| {
        assert DepsBefore(g, order, i);
        assert next[..i] == order[..i];
      } else {
        assert next[..i] == order;
        assert c in order + queue;
      }
    }
  }

  lemma SliceStep(s: seq<string>, i: nat)
    requires i < |s|
    ensures s[..i + 1] == s[..i] + [s[i]]
    ensures multiset(s[i..]) == multiset(s[i + 1..]) + multiset{s[i]}
  {
    assert s[i..] == [s[i]] + s[i + 1..];
  }

  /** The in-degrees once the first `i` edges out of the finished group are taken off. */
  ghost predicate Counted(g: Graph, edges: seq<Edge>, after: set<string>, deps: seq<string>, i: nat,
                          degrees: map<string, nat>)
    requires i <= |deps|
  {
    && degrees.Keys == g.Keys && Elems(deps) <= g.Keys
    && forall n :: n in g ==> degrees[n] == Open(edges, after, n) + multiset(deps[i..])[n]
  }

  /** The groups set free by the first `i` edges. */
  ghost predicate Collected(deps: seq<string>, i: nat, degrees: map<string, nat>, nextReady: seq<string>)
    requires i <= |deps|
  {
    NoDup(nextReady) && forall n :: n in nextReady <==> n in deps[..i] && n in degrees && degrees[n] == 0
  }

  ghost predicate Releasing(g: Graph, edges: seq<Edge>, after: set<string>, deps: seq<string>, i: nat,
                            degrees: map<string, nat>, nextReady: seq<string>)
    requires i <= |deps|
  {
    Counted(g, edges, after, deps, i, degrees) && Collected(deps, i, degrees, nextReady)
  }

  lemma CountedStep(g: Graph, edges: seq<Edge>, after: set<string>, deps: seq<string>, i: nat, degrees: map<string,
                    nat>)
    requires i < |deps| && Counted(g, edges, after, deps, i, degrees)
    ensures deps[i] in degrees && degrees[deps[i]] > 0
    ensures Counted(g, edges, after, deps, i + 1, degrees[deps[i] := degrees[deps[i]] - 1])
  {
    SliceStep(deps, i);
    assert deps[i] in Elems(deps);
  }

  lemma CollectedStep(deps: seq<string>, i: nat, degrees: map<string, nat>, nextReady: seq<string>)
    requires i < |deps| && deps[i] in degrees && degrees[deps[i]] > 0 && Collected(deps, i, degrees, nextReady)
    ensures var lower := degrees[deps[i]] - 1;
            Collected(deps, i + 1, degrees[deps[i] := lower], if lower == 0 then nextReady + [deps[i]] else nextReady)
  {
    SliceStep(deps, i);
    assert deps[i] !in nextReady;
  }

  /** An in-degree that is taken down was positive: the counters never underflow. */
  lemma ReleaseStep(g: Graph, edges: seq<Edge>, after: set<string>, deps: seq<string>, i: nat,
                    degrees: map<string, nat>, nextReady: seq<string>)
    requires i < |deps| && Releasing(g, edges, after, deps, i, degrees, nextReady)
    ensures deps[i] in degrees && degrees[deps[i]] > 0
    ensures var lower := degrees[deps[i]] - 1;
            Releasing(g, edges, after, deps, i + 1, degrees[deps[i] := lower],
                      if lower == 0 then nextReady + [deps[i]] else nextReady)
  {
    CountedStep(g, edges, after, deps, i, degrees);
    CollectedStep(deps, i, degrees, nextReady);
  }

  lemma ReleaseStart(g: Graph, edges: seq<Edge>, done: set<string>, c: string, deps: seq<string>,
                     inDegree: map<string, nat>)
    requires EdgesOf(g, edges) && inDegree.Keys == g.Keys && c !in done && deps == TargetsOf(edges, c)
    requires forall n :: n in g ==> inDegree[n] == Open(edges, done, n)
    ensures Releasing(g, edges, done + {c}, deps, 0, inDegree, [])
  {
    assert deps[0..] == deps;
    forall n | n in g { OpenSplit(edges, done, c, n); }
    forall n | n in Elems(deps) ensures n in g { TargetsExact(edges, c, n); }
  }

  lemma ReleaseEnd(g: Graph, edges: seq<Edge>, after: set<string>, c: string, deps: seq<string>,
                   degrees: map<string, nat>, nextReady: seq<string>)
    requires EdgesOf(g, edges) && deps == TargetsOf(edges, c)
    requires Releasing(g, edges, after, deps, |deps|, degrees, nextReady)
    ensures forall n :: n in g ==> degrees[n] == Open(edges, after, n)
    ensures Elems(nextReady) == Freed(g, c, after)
  {
    assert deps[..|deps|] == deps && deps[|deps|..] == [];
    forall n ensures n in nextReady <==> n in Freed(g, c, after) {
      TargetsExact(edges, c, n);
      if n in g { OpenZeroExact(g, edges, after, n); }
    }
  }

  /** Decrements the in-degrees along the edges out of `c`, collecting the groups set free. */
  method Release(g: Graph, ghost edges: seq<Edge>, ghost done: set<string>, c: string, deps: seq<string>,
                 inDegree: map<string, nat>) returns (degrees: map<string, nat>, nextReady: seq<string>)
    requires EdgesOf(g, edges) && inDegree.Keys == g.Keys && c !in done
    requires deps == TargetsOf(edges, c)
    requires forall n :: n in g ==> inDegree[n] == Open(edges, done, n)
    ensures degrees.Keys == g.Keys
    ensures forall n :: n in g ==> degrees[n] == Open(edges, done + {c}, n)
    ensures NoDup(nextReady) && Elems(nextReady) == Freed(g, c, done + {c})
  {
    degrees, nextReady := inDegree, [];
    ReleaseStart(g, edges, done, c, deps, inDegree);
    for i := 0 to |deps|
      invariant Releasing(g, edges, done + {c}, deps, i, degrees, nextReady)
    {
      ReleaseStep(g, edges, done + {c}, deps, i, degrees, nextReady);
      degrees := degrees[deps[i] := degrees[deps[i]] - 1];
      if degrees[deps[i]] == 0 {
        nextReady := nextReady + [deps[i]];
      }
    }
    ReleaseEnd(g, edges, done + {c}, c, deps, degrees, nextReady);
  }

  /** Pushing the groups that the popped one sets free. */
  lemma PushInv(g: Graph, queue: seq<string>, order: seq<string>, added: seq<string>)
    requires QueueInv(g, queue, order) && queue != []
    requires NoDup(added) && Elems(added) == Freed(g, queue[0], Elems(order) + {queue[0]})
    ensures QueueInv(g, queue[1..] + added, order + [queue[0]])
  {
    PopInv(g, queue, order);
    var c, next := queue[0], order + [queue[0]];
    assert next + (queue[1..] + added) == (order + queue) + added;
    forall n | n in added ensures n !in order + queue {
      assert n in Elems(added);
      assert c in g[n] && c !in Elems(order);
    }
    assert Elems(order + queue) !! Elems(added);
    NoDupConcat(order + queue, added);
    forall n | n in g ensures n in next + (queue[1..] + added) <==> g[n] <= Elems(next) {
      assert n in added <==> n in Elems(added);
    }
  }

  /** Orders the groups. `hashOrder` is the order in which the hash map of in-degrees happens
      to be iterated. */
  method ResolveGroupOrder(groups: seq<Group>, hashOrder: seq<string>) returns (r: OrderResult)
    requires NoDup(hashOrder) && Elems(hashOrder) == Names(groups)
    ensures r.Ordered? <==> Resolvable(groups)
    ensures r.Ordered? ==> IsTopologicalOrder(GroupGraph(groups), r.order) && r.order == GroupOrder(groups)
    ensures r.UnknownGroup? <==> !AllKnown(groups)
    ensures r.UnknownGroup? ==> FirstUnknown(groups, r.group, r.missing)
  {
    var tables := BuildTables(groups);
    if tables.Unknown? {
      return UnknownGroup(tables.group, tables.missing);
    }
    var g := GroupGraph(groups);
    ghost var edges := EdgeList(groups);
    EdgeListGraph(groups);
    AddGroupsFaithful(groups);
    var dependents, inDegree := tables.tables.dependents, tables.tables.inDegree;
    var queue := Keep(hashOrder, set n | n in inDegree && inDegree[n] == 0);
    InitialQueue(g, edges, hashOrder, inDegree);
    queue := SortBy(Itself, queue);
    var order: seq<string> := [];
    while queue != []
      invariant KahnInv(g, edges, queue, order, inDegree)
      invariant Kahn(g, queue, order) == GroupOrder(groups)
      decreases |g.Keys - Elems(order)|
    {
      var current := queue[0];
      PopInv(g, queue, order);
      var next := order + [current];
      SmallerSet(g.Keys - Elems(next), g.Keys - Elems(order));
      var degrees, nextReady := Release(g, edges, Elems(order), current,
                                        if current in dependents then dependents[current] else [], inDegree);
      SortIsSortedKeys(nextReady);
      SortedKeysNoDup(Elems(nextReady));
      PushInv(g, queue, order, SortBy(Itself, nextReady));
      inDegree, queue, order := degrees, queue[1..] + SortBy(Itself, nextReady), next;
    }
    Exhausted(groups, order);
    if |order| != |groups| {
      return CycleDetected;
    }
    return Ordered(order);
  }

  lemma InitialQueue(g: Graph, edges: seq<Edge>, hashOrder: seq<string>, inDegree: map<string, nat>)
    requires EdgesOf(g, edges) && inDegree.Keys == g.Keys && NoDup(hashOrder) && Elems(hashOrder) == g.Keys
    requires forall n :: n in g ==> inDegree[n] == Open(edges, {}, n)
    ensures var free := set n | n in g && g[n] == {};
            var queue := SortBy(Itself, Keep(hashOrder, set n | n in inDegree && inDegree[n] == 0));
            queue == SortedKeys(free) && KahnInv(g, edges, queue, [], inDegree)
  {
    var free := set n | n in g && g[n] == {};
    forall n | n in g ensures inDegree[n] == 0 <==> g[n] == {} { OpenZeroExact(g, edges, {}, n); }
    assert free == set n | n in inDegree && inDegree[n] == 0;
    KeepNoDup(hashOrder, free);
    assert Elems(hashOrder) * free == free;
    SortIsSortedKeys(Keep(hashOrder, free));
    InitialInv(g);
    assert Elems<string>([]) == {};
  }

  lemma InitialInv(g: Graph)
    ensures QueueInv(g, SortedKeys(set n | n in g && g[n] == {}), [])
  {
    var free := set n | n in g && g[n] == {};
    var queue := SortedKeys(free);
    SortedKeysNoDup(free);
    assert [] + queue == queue;
    assert Elems<string>([]) == {};
    forall n | n in g ensures n in [] + queue <==> g[n] <= Elems([]) {
      assert n in queue <==> n in Elems(queue);
    }
  }

  lemma {:induction false} KeepNoDup(s: seq<string>, t: set<string>)
    requires NoDup(s)
    ensures NoDup(Keep(s, t))
  {
    if s != [] {
      KeepNoDup(s[1..], t);
      var r := Keep(s[1..], t);
      forall y | y in Elems(r) ensures y != s[0] {
        assert y in Elems(s[1..]);
      }
      NoDupConcat([s[0]], r);
    }
  }

  /** With the queue empty and something left over, what is left over is on cycles. */
  lemma LeftOver(g: Graph, order: seq<string>)
    requires Closed(g) && QueueInv(g, [], order) && Elems(order) != g.Keys
    ensures !Acyclic(g)
  {
    assert order + [] == order;
    var u := g.Keys - Elems(order);
    forall n | n in u ensures g[n] * u != {} {
      assert n !in order;
      var r :| r in g[n] && r !in Elems(order);
      assert r in g[n] * u;
    }
    CycleInside(g, u);
  }

  lemma KahnFinal(g: Graph, order: seq<string>)
    requires Closed(g) && QueueInv(g, [], order)
    ensures |order| <= |g.Keys|
    ensures |order| == |g.Keys| <==> Acyclic(g)
    ensures |order| == |g.Keys| ==> IsTopologicalOrder(g, order)
  {
    assert order + [] == order;
    NoDupSize(order);
    SubsetSize(Elems(order), g.Keys);
    if Elems(order) != g.Keys {
      LeftOver(g, order);
      SmallerSet(Elems(order), g.Keys);
    } else {
      TopoAcyclic(g, order);
    }
  }

  /** With the queue empty, the order is complete exactly when the groups can be resolved. */
  lemma Exhausted(groups: seq<Group>, order: seq<string>)
    requires AllKnown(groups) && QueueInv(GroupGraph(groups), [], order)
    ensures |order| == |groups| <==> Resolvable(groups)
    ensures |order| == |groups| ==> IsTopologicalOrder(GroupGraph(groups), order)
  {
    KnownClosed(groups);
    KahnFinal(GroupGraph(groups), order);
    NamesSize(groups);
    assert GroupGraph(groups).Keys == Names(groups);
  }

  lemma KnownClosed(groups: seq<Group>)
    requires AllKnown(groups)
    ensures Closed(GroupGraph(groups))
  {
  }

  lemma {:induction false} NamesSize(groups: seq<Group>)
    ensures |Names(groups)| <= |groups|
  {
    if groups != [] {
      var front, g := groups[..|groups| - 1], groups[|groups| - 1];
      NamesSize(front);
      NamesAppend(groups);
    }
  }

  // ----- first come, first served -----

  /** `n` no longer waits once the first `i` groups of the order are done, and not before. */
  ghost predicate FreedAt(g: Graph, order: seq<string>, n: string, i: nat) {
    && n in g && i <= |order| && g[n] <= Elems(order[..i])
    && (i > 0 ==> order[i - 1] in g[n] && order[i - 1] !in order[..i - 1])
  }

  /** `a` was set free by an earlier group than `b`, or by the same and its name comes first. */
  ghost predicate FreedBefore(g: Graph, order: seq<string>, a: string, b: string) {
    exists i: nat, j: nat ::
      FreedAt(g, order, a, i) && FreedAt(g, order, b, j) && (i < j || (i == j && Precedes(a, b)))
  }

  /** Groups come in the order in which they were set free, and by name among those set free together. */
  ghost predicate FirstFreedFirst(g: Graph, order: seq<string>, all: seq<string>) {
    forall i, j :: 0 <= i < j < |all| ==> FreedBefore(g, order, all[i], all[j])
  }

  lemma FreedAtOnce(g: Graph, order: seq<string>, n: string, i: nat, j: nat)
    requires FreedAt(g, order, n, i) && FreedAt(g, order, n, j)
    ensures i == j
  {
  }

  lemma FreedAtPrefix(g: Graph, a: seq<string>, b: seq<string>, k: nat, n: string, i: nat)
    requires k <= |a| && k <= |b| && a[..k] == b[..k] && i <= k && FreedAt(g, a, n, i)
    ensures FreedAt(g, b, n, i)
  {
    assert a[..i] == a[..k][..i] && b[..i] == b[..k][..i];
    if i > 0 {
      assert a[..i - 1] == a[..k][..i - 1] && b[..i - 1] == b[..k][..i - 1];
      assert a[i - 1] == a[..k][i - 1] && b[i - 1] == b[..k][i - 1];
    }
  }

  lemma FreedBeforeAppend(g: Graph, order: seq<string>, c: string, a: string, b: string)
    requires FreedBefore(g, order, a, b)
    ensures FreedBefore(g, order + [c], a, b)
  {
    var i: nat, j: nat :| FreedAt(g, order, a, i) && FreedAt(g, order, b, j) && (i < j || (i == j && Precedes(a, b)));
    var next := order + [c];
    assert next[..|order|] == order == order[..|order|];
    FreedAtPrefix(g, order, next, |order|, a, i);
    FreedAtPrefix(g, order, next, |order|, b, j);
  }

  /** A group all of whose requirements are done was set free at some point. */
  lemma {:induction false} FreedSomewhere(g: Graph, order: seq<string>, n: string, k: nat) returns (i: nat)
    requires n in g && NoDup(order) && k <= |order| && g[n] <= Elems(order[..k])
    ensures i <= k && FreedAt(g, order, n, i)
  {
    if k == 0 {
      i := 0;
    } else {
      assert order[..k] == order[..k - 1] + [order[k - 1]];
      if order[k - 1] in g[n] {
        i := k;
      } else {
        i := FreedSomewhere(g, order, n, k - 1);
      }
    }
  }

  lemma FreedNow(g: Graph, order: seq<string>, c: string, n: string)
    requires c !in order && n in g && c in g[n] && g[n] <= Elems(order + [c])
    ensures FreedAt(g, order + [c], n, |order| + 1)
  {
    var next := order + [c];
    assert next[..|order| + 1] == next && next[..|order|] == order;
  }

  /** What is queued already comes before what is set free now. */
  lemma OldBeforeNew(g: Graph, queue: seq<string>, order: seq<string>, x: string, n: string)
    requires QueueInv(g, queue, order) && queue != [] && x in order + queue
    requires n in Freed(g, queue[0], Elems(order) + {queue[0]})
    ensures FreedBefore(g, order + [queue[0]], x, n)
  {
    var c, next := queue[0], order + [queue[0]];
    PopInv(g, queue, order);
    FreedNow(g, order, c, n);
    assert x in Elems(order + queue);
    NoDupParts(order, queue);
    assert order[..|order|] == order && next[..|order|] == order;
    var k := FreedSomewhere(g, order, x, |order|);
    FreedAtPrefix(g, order, next, |order|, x, k);
  }

  lemma NewBeforeNew(g: Graph, order: seq<string>, c: string, m: string, n: string)
    requires c !in order && Elems(order + [c]) == Elems(order) + {c} && Precedes(m, n)
    requires m in Freed(g, c, Elems(order) + {c}) && n in Freed(g, c, Elems(order) + {c})
    ensures FreedBefore(g, order + [c], m, n)
  {
    FreedNow(g, order, c, m);
    FreedNow(g, order, c, n);
  }

  lemma FifoConcat(g: Graph, order: seq<string>, a: seq<string>, b: seq<string>)
    requires FirstFreedFirst(g, order, a) && FirstFreedFirst(g, order, b)
    requires forall x, y :: x in a && y in b ==> FreedBefore(g, order, x, y)
    ensures FirstFreedFirst(g, order, a + b)
  {
    var all := a + b;
    forall i, j | 0 <= i < j < |all| ensures FreedBefore(g, order, all[i], all[j]) {
      if j < |a| {
        assert all[i] == a[i] && all[j] == a[j];
      } else if i < |a| {
        assert all[i] == a[i] && all[j] == b[j - |a|];
      } else {
        assert all[i] == b[i - |a|] && all[j] == b[j - |a|];
      }
    }
  }

  lemma OldFifo(g: Graph, order: seq<string>, c: string, all: seq<string>)
    requires FirstFreedFirst(g, order, all)
    ensures FirstFreedFirst(g, order + [c], all)
  {
    forall i, j | 0 <= i < j < |all| ensures FreedBefore(g, order + [c], all[i], all[j]) {
      assert FreedBefore(g, order, all[i], all[j]);
      FreedBeforeAppend(g, order, c, all[i], all[j]);
    }
  }

  lemma NewFifo(g: Graph, order: seq<string>, c: string, added: seq<string>)
    requires c !in order && Elems(order + [c]) == Elems(order) + {c}
    requires Elems(added) == Freed(g, c, Elems(order) + {c}) && Increasing(added)
    ensures FirstFreedFirst(g, order + [c], added)
  {
    forall i, j | 0 <= i < j < |added| ensures FreedBefore(g, order + [c], added[i], added[j]) {
      assert added[i] in Elems(added) && added[j] in Elems(added);
      NewBeforeNew(g, order, c, added[i], added[j]);
    }
  }

  lemma FifoPairs(g: Graph, queue: seq<string>, order: seq<string>, added: seq<string>)
    requires QueueInv(g, queue, order) && queue != [] && FirstFreedFirst(g, order, order + queue)
    requires Elems(added) == Freed(g, queue[0], Elems(order) + {queue[0]}) && Increasing(added)
    ensures FirstFreedFirst(g, order + [queue[0]], order + queue + added)
  {
    PopInv(g, queue, order);
    OldFifo(g, order, queue[0], order + queue);
    NewFifo(g, order, queue[0], added);
    forall x, n | x in order + queue && n in added ensures FreedBefore(g, order + [queue[0]], x, n) {
      assert n in Elems(added);
      OldBeforeNew(g, queue, order, x, n);
    }
    FifoConcat(g, order + [queue[0]], order + queue, added);
  }

  lemma Regroup(order: seq<string>, queue: seq<string>, added: seq<string>)
    requires queue != []
    ensures order + [queue[0]] + (queue[1..] + added) == order + queue + added
  {
  }

  /** One turn of the queue keeps the order of release. */
  lemma FifoStep(g: Graph, queue: seq<string>, order: seq<string>)
    requires QueueInv(g, queue, order) && queue != [] && FirstFreedFirst(g, order, order + queue)
    ensures var next := order + [queue[0]];
            var later := queue[1..] + SortedKeys(Freed(g, queue[0], Elems(order) + {queue[0]}));
            QueueInv(g, later, next) && FirstFreedFirst(g, next, next + later)
  {
    var freed := Freed(g, queue[0], Elems(order) + {queue[0]});
    SortedKeysNoDup(freed);
    SortedKeysIncreasing(freed);
    PushInv(g, queue, order, SortedKeys(freed));
    FifoPairs(g, queue, order, SortedKeys(freed));
    Regroup(order, queue, SortedKeys(freed));
  }

  lemma {:induction false} KahnFifo(g: Graph, queue: seq<string>, order: seq<string>)
    requires QueueInv(g, queue, order) && FirstFreedFirst(g, order, order + queue)
    ensures var r := Kahn(g, queue, order); QueueInv(g, [], r) && FirstFreedFirst(g, r, r)
    decreases |g.Keys - Elems(order)|
  {
    if queue == [] {
      assert order + [] == order;
    } else {
      PopInv(g, queue, order);
      var next := order + [queue[0]];
      assert Elems(next) == Elems(order) + {queue[0]};
      SmallerSet(g.Keys - Elems(next), g.Keys - Elems(order));
      FifoStep(g, queue, order);
      KahnFifo(g, queue[1..] + SortedKeys(Freed(g, queue[0], Elems(next))), next);
    }
  }

  lemma FreeAtFirst(g: Graph, a: string, b: string)
    requires a in g && g[a] == {} && b in g && g[b] == {} && Precedes(a, b)
    ensures FreedBefore(g, [], a, b)
  {
    assert FreedAt(g, [], a, 0) && FreedAt(g, [], b, 0);
  }

  lemma FirstQueue(g: Graph)
    ensures FirstFreedFirst(g, [], SortedKeys(set n | n in g && g[n] == {}))
  {
    var free := set n | n in g && g[n] == {};
    var queue := SortedKeys(free);
    SortedKeysIncreasing(free);
    forall i, j | 0 <= i < j < |queue| ensures FreedBefore(g, [], queue[i], queue[j]) {
      assert queue[i] in Elems(queue) && queue[j] in Elems(queue);
      FreeAtFirst(g, queue[i], queue[j]);
    }
  }

  /** Two such orders agree on how far they agree, and one group further. */
  lemma SameNext(g: Graph, a: seq<string>, b: seq<string>, k: nat)
    requires IsTopologicalOrder(g, a) && FirstFreedFirst(g, a, a)
    requires IsTopologicalOrder(g, b) && FirstFreedFirst(g, b, b)
    requires k < |a| && k < |b| && a[..k] == b[..k]
    ensures a[k] == b[k]
  {
    if a[k] != b[k] {
      var x, y := a[k], b[k];
      var j := LaterThan(a, b, k);
      var l := LaterThan(b, a, k);
      assert FreedBefore(g, a, a[k], a[j]) && FreedBefore(g, b, b[k], b[l]);
      assert DepsBefore(g, a, k) && DepsBefore(g, b, k);
      var i := FreedSomewhere(g, a, x, k);
      var m := FreedSomewhere(g, b, y, k);
      FreedAtPrefix(g, a, b, k, x, i);
      FreedAtPrefix(g, b, a, k, y, m);
      FreedTwice(g, a, x, y, i, m);
      FreedTwice(g, b, y, x, m, i);
      LeExact(x, y);
      LeExact(y, x);
      LeAntisymmetric(x, y);
    }
  }

  lemma FreedTwice(g: Graph, order: seq<string>, x: string, y: string, i: nat, m: nat)
    requires FreedBefore(g, order, x, y) && FreedAt(g, order, x, i) && FreedAt(g, order, y, m)
    ensures i < m || (i == m && Precedes(x, y))
  {
    var k: nat, l: nat :| FreedAt(g, order, x, k) && FreedAt(g, order, y, l) && (k < l || (k == l && Precedes(x, y)));
    FreedAtOnce(g, order, x, i, k);
    FreedAtOnce(g, order, y, m, l);
  }

  lemma LaterThan(a: seq<string>, b: seq<string>, k: nat) returns (j: nat)
    requires NoDup(b) && Elems(a) == Elems(b) && k < |a| && k < |b| && a[..k] == b[..k] && a[k] != b[k]
    ensures k < j < |a| && a[j] == b[k]
  {
    assert b[k] in Elems(a);
    j :| 0 <= j < |a| && a[j] == b[k];
    assert forall i :: 0 <= i < k ==> a[..k][i] == a[i] && b[..k][i] == b[i];
  }

  lemma {:induction false} SamePrefix(g: Graph, a: seq<string>, b: seq<string>, k: nat)
    requires IsTopologicalOrder(g, a) && FirstFreedFirst(g, a, a)
    requires IsTopologicalOrder(g, b) && FirstFreedFirst(g, b, b)
    requires k <= |a| && |a| == |b|
    ensures a[..k] == b[..k]
  {
    if k > 0 {
      SamePrefix(g, a, b, k - 1);
      SameNext(g, a, b, k - 1);
      assert a[..k] == a[..k - 1] + [a[k - 1]] && b[..k] == b[..k - 1] + [b[k - 1]];
    }
  }

  lemma GroupOrderFifo(groups: seq<Group>)
    requires Resolvable(groups)
    ensures var g, r := GroupGraph(groups), GroupOrder(groups);
            IsTopologicalOrder(g, r) && FirstFreedFirst(g, r, r)
  {
    var g := GroupGraph(groups);
    InitialInv(g);
    FirstQueue(g);
    var queue := SortedKeys(set n | n in g && g[n] == {});
    assert [] + queue == queue;
    KahnFifo(g, queue, []);
    KnownClosed(groups);
    KahnFinal(g, GroupOrder(groups));
  }

  lemma OnlyOne(g: Graph, a: seq<string>, b: seq<string>)
    requires IsTopologicalOrder(g, a) && FirstFreedFirst(g, a, a)
    requires IsTopologicalOrder(g, b) && FirstFreedFirst(g, b, b)
    ensures a == b
  {
    NoDupSize(a);
    NoDupSize(b);
    SamePrefix(g, a, b, |a|);
    assert a[..|a|] == a && b[..|b|] == b;
  }

  /** The order of resolvable groups is the one order that has requirements first and is first
      freed, first served. */
  lemma GroupOrderExact(groups: seq<Group>, order: seq<string>)
    requires Resolvable(groups)
    ensures var g := GroupGraph(groups);
            order == GroupOrder(groups) <==> IsTopologicalOrder(g, order) && FirstFreedFirst(g, order, order)
  {
    var g := GroupGraph(groups);
    GroupOrderFifo(groups);
    if IsTopologicalOrder(g, order) && FirstFreedFirst(g, order, order) {
      OnlyOne(g, order, GroupOrder(groups));
    }
  }
}
