/** The dependency graph: reachability along `depends` edges, topological
    orders, cycles, and the two depth-first queries of the graph module. */
module Reachability {
  import opened Ordering

  type Id = string

  // An edge goes from a node to each node it depends on.
  type Graph = map<Id, set<Id>>

  ghost predicate Closed(g: Graph) {
    forall x :: x in g ==> g[x] <= g.Keys
  }

  ghost predicate ReachesIn(g: Graph, a: Id, b: Id, n: nat)
    decreases n
  {
    a in g && if n == 0 then b in g[a] else exists c :: c in g[a] && ReachesIn(g, c, b, n - 1)
  }

  /** There is a path of at least one edge from `a` to `b`. */
  ghost predicate Reaches(g: Graph, a: Id, b: Id) {
    exists n: nat :: ReachesIn(g, a, b, n)
  }

  /** Everything `x` depends on, directly or not, except `x` itself. */
  ghost function TransDeps(g: Graph, x: Id): set<Id> {
    set y | y in g && y != x && Reaches(g, x, y)
  }

  /** Everything that depends on `x`, directly or not, except `x` itself. */
  ghost function TransDependents(g: Graph, x: Id): set<Id> {
    set y | y in g && y != x && Reaches(g, y, x)
  }

  ghost predicate Acyclic(g: Graph) {
    forall x :: !Reaches(g, x, x)
  }

  /** A permutation of the nodes in which every node follows all it depends on. */
  ghost predicate IsTopologicalOrder(g: Graph, order: seq<Id>) {
    && NoDup(order)
    && Elems(order) == g.Keys
    && forall i :: 0 <= i < |order| ==> DepsBefore(g, order, i)
  }

  ghost predicate DepsBefore(g: Graph, order: seq<Id>, i: int)
    requires 0 <= i < |order|
  {
    order[i] in g && g[order[i]] <= Elems(order[..i])
  }

  lemma ReachesEdge(g: Graph, a: Id, b: Id)
    requires a in g && b in g[a]
    ensures Reaches(g, a, b)
  {
    assert ReachesIn(g, a, b, 0);
  }

  lemma ReachesCons(g: Graph, a: Id, c: Id, b: Id)
    requires a in g && c in g[a] && Reaches(g, c, b)
    ensures Reaches(g, a, b)
  {
    var n: nat :| ReachesIn(g, c, b, n);
    assert ReachesIn(g, a, b, n + 1);
  }

  lemma {:induction false} ReachesInSnoc(g: Graph, a: Id, c: Id, b: Id, n: nat)
    requires ReachesIn(g, a, c, n) && c in g && b in g[c]
    ensures ReachesIn(g, a, b, n + 1)
    decreases n
  {
    if n == 0 {
      assert ReachesIn(g, c, b, 0);
    } else {
      var d :| d in g[a] && ReachesIn(g, d, c, n - 1);
      ReachesInSnoc(g, d, c, b, n - 1);
    }
  }

  lemma ReachesSnoc(g: Graph, a: Id, c: Id, b: Id)
    requires Reaches(g, a, c) && c in g && b in g[c]
    ensures Reaches(g, a, b)
  {
    var n: nat :| ReachesIn(g, a, c, n);
    ReachesInSnoc(g, a, c, b, n);
  }

  lemma {:induction false} ReachesInTrans(g: Graph, a: Id, b: Id, c: Id, n: nat)
    requires ReachesIn(g, a, b, n) && Reaches(g, b, c)
    ensures Reaches(g, a, c)
    decreases n
  {
    if n == 0 {
      ReachesCons(g, a, b, c);
    } else {
      var d :| d in g[a] && ReachesIn(g, d, b, n - 1);
      ReachesInTrans(g, d, b, c, n - 1);
      ReachesCons(g, a, d, c);
    }
  }

  lemma ReachesTrans(g: Graph, a: Id, b: Id, c: Id)
    requires Reaches(g, a, b) && Reaches(g, b, c)
    ensures Reaches(g, a, c)
  {
    var n: nat :| ReachesIn(g, a, b, n);
    ReachesInTrans(g, a, b, c, n);
  }

  lemma {:induction false} ReachesInKeys(g: Graph, a: Id, b: Id, n: nat)
    requires Closed(g) && ReachesIn(g, a, b, n)
    ensures a in g && b in g
    decreases n
  {
    if n > 0 {
      var c :| c in g[a] && ReachesIn(g, c, b, n - 1);
      ReachesInKeys(g, c, b, n - 1);
    }
  }

  lemma ReachesKeys(g: Graph, a: Id, b: Id)
    requires Closed(g) && Reaches(g, a, b)
    ensures a in g && b in g
  {
    var n: nat :| ReachesIn(g, a, b, n);
    ReachesInKeys(g, a, b, n);
  }

  /** A set closed under edges contains everything reachable from its members. */
  lemma {:induction false} ClosedSetReach(g: Graph, s: set<Id>, a: Id, b: Id, n: nat)
    requires a in s && ReachesIn(g, a, b, n)
    requires forall x :: x in s && x in g ==> g[x] <= s
    ensures b in s
    decreases n
  {
    if n > 0 {
      var c :| c in g[a] && ReachesIn(g, c, b, n - 1);
      ClosedSetReach(g, s, c, b, n - 1);
    }
  }

  // ----- topological orders and cycles -----

  ghost function IndexOf(s: seq<Id>, x: Id): (i: nat)
    requires x in s
    ensures i < |s| && s[i] == x
  {
    var i :| 0 <= i < |s| && s[i] == x;
    i
  }

  lemma TopoEdge(g: Graph, order: seq<Id>, a: Id, b: Id)
    requires IsTopologicalOrder(g, order) && a in g && b in g[a]
    ensures a in order && b in order && IndexOf(order, b) < IndexOf(order, a)
  {
    assert a in Elems(order);
    var i := IndexOf(order, a);
    assert DepsBefore(g, order, i);
    assert b in Elems(order[..i]);
    var j :| 0 <= j < i && order[j] == b;
    assert IndexOf(order, b) == j;
  }

  lemma {:induction false} TopoPathDescends(g: Graph, order: seq<Id>, a: Id, b: Id, n: nat)
    requires IsTopologicalOrder(g, order) && ReachesIn(g, a, b, n)
    ensures a in order && b in order && IndexOf(order, b) < IndexOf(order, a)
    decreases n
  {
    if n == 0 {
      TopoEdge(g, order, a, b);
    } else {
      var c :| c in g[a] && ReachesIn(g, c, b, n - 1);
      TopoEdge(g, order, a, c);
      TopoPathDescends(g, order, c, b, n - 1);
    }
  }

  /** Whatever `a` depends on comes before `a` in a topological order. */
  lemma TopoDescends(g: Graph, order: seq<Id>, a: Id, b: Id)
    requires IsTopologicalOrder(g, order) && Reaches(g, a, b)
    ensures a in order && b in order && IndexOf(order, b) < IndexOf(order, a)
  {
    var n: nat :| ReachesIn(g, a, b, n);
    TopoPathDescends(g, order, a, b, n);
  }

  lemma TopoAcyclic(g: Graph, order: seq<Id>)
    requires IsTopologicalOrder(g, order)
    ensures Acyclic(g)
  {
    forall x ensures !Reaches(g, x, x) {
      if Reaches(g, x, x) {
        TopoDescends(g, order, x, x);
      }
    }
  }

  ghost function Onward(g: Graph, s: set<Id>, a: Id): set<Id> {
    set y | y in s && Reaches(g, a, y)
  }

  ghost predicate Inescapable(g: Graph, s: set<Id>) {
    forall x :: x in s ==> x in g && g[x] * s != {}
  }

  lemma OnwardInescapable(g: Graph, s: set<Id>, a: Id)
    requires a in s && Inescapable(g, s)
    ensures Inescapable(g, Onward(g, s, a)) && Onward(g, s, a) != {}
  {
    var w := Onward(g, s, a);
    var y :| y in g[a] * s;
    ReachesEdge(g, a, y);
    assert y in w;
    forall x | x in w ensures g[x] * w != {} {
      var y :| y in g[x] * s;
      ReachesSnoc(g, a, x, y);
      assert y in g[x] * w;
    }
  }

  /** A nonempty set in which everyone has an edge into the set contains a cycle. */
  lemma {:induction false} CycleInside(g: Graph, s: set<Id>)
    requires s != {} && Inescapable(g, s)
    ensures !Acyclic(g)
    decreases |s|
  {
    var a :| a in s;
    OnwardInescapable(g, s, a);
    if !Reaches(g, a, a) {
      SmallerSet(Onward(g, s, a), s);
      CycleInside(g, Onward(g, s, a));
    }
  }

  lemma SmallerSet<T>(a: set<T>, b: set<T>)
    requires a < b
    ensures |a| < |b|
  {
    var x :| x in b && x !in a;
    SubsetSize(a, b - {x});
  }

  lemma {:induction false} SubsetSize<T>(a: set<T>, b: set<T>)
    requires a <= b
    ensures |a| <= |b|
  {
    if a != {} {
      var x :| x in a;
      SubsetSize(a - {x}, b - {x});
    }
  }

  // ----- depth-first queries -----

  ghost predicate ReachedFrom(g: Graph, start: Id, visited: set<Id>) {
    forall v :: v in visited ==> v == start || Reaches(g, start, v)
  }

  /** All edges out of visited nodes that are not open any more lead to visited nodes. */
  ghost predicate Explored(g: Graph, visited: set<Id>, open: set<Id>) {
    visited <= g.Keys && forall v :: v in visited && v !in open ==> g[v] <= visited
  }

  lemma ReachedStep(g: Graph, start: Id, visited: set<Id>, current: Id, target: Id)
    requires ReachedFrom(g, start, visited) && current in visited && current in g && target in g[current]
    ensures ReachedFrom(g, start, visited + {target})
  {
    if current == start { ReachesEdge(g, start, target); } else { ReachesSnoc(g, start, current, target); }
  }

  lemma ExploredAll(g: Graph, start: Id, visited: set<Id>)
    requires start in visited && Explored(g, visited, {}) && ReachedFrom(g, start, visited)
    ensures visited - {start} == TransDeps(g, start)
  {
    forall y | y != start && Reaches(g, start, y) ensures y in visited {
      var n: nat :| ReachesIn(g, start, y, n);
      ClosedSetReach(g, visited, start, y, n);
    }
  }

  lemma PushElems(stack: seq<Id>, x: Id)
    requires NoDup(stack) && x !in Elems(stack)
    ensures NoDup(stack + [x]) && Elems(stack + [x]) == Elems(stack) + {x}
  {
    assert x !in stack;
  }

  lemma PopElems(stack: seq<Id>)
    requires NoDup(stack) && stack != []
    ensures var rest, x := stack[..|stack| - 1], stack[|stack| - 1];
            NoDup(rest) && x !in Elems(rest) && Elems(stack) == Elems(rest) + {x}
  {
    assert stack == stack[..|stack| - 1] + [stack[|stack| - 1]];
  }

  /** The nodes reached from `start` along edges, without `start`. */
  method TransitiveDeps(g: Graph, start: Id) returns (r: set<Id>)
    requires Closed(g)
    ensures r == TransDeps(g, start)
  {
    if start !in g {
      return {};
    }
    var visited := {start};
    var stack := [start];
    while stack != []
      invariant start in visited && Elems(stack) <= visited && NoDup(stack)
      invariant ReachedFrom(g, start, visited) && Explored(g, visited, Elems(stack))
      decreases g.Keys - visited, |stack|
    {
      var current := stack[|stack| - 1];
      ghost var before := visited;
      PopElems(stack);
      stack := stack[..|stack| - 1];
      ghost var popped := stack;
      var rest := g[current];
      while rest != {}
        invariant start in visited && before <= visited && rest <= g[current] <= visited + rest
        invariant visited == before ==> stack == popped
        invariant Elems(stack) <= visited && NoDup(stack) && current in visited && current !in Elems(stack)
        invariant ReachedFrom(g, start, visited) && Explored(g, visited, Elems(stack) + {current})
        decreases rest
      {
        var target :| target in rest;
        rest := rest - {target};
        if target !in visited {
          ReachedStep(g, start, visited, current, target);
          PushElems(stack, target);
          visited := visited + {target};
          stack := stack + [target];
        }
      }
    }
    assert Elems(stack) == {};
    ExploredAll(g, start, visited);
    r := visited - {start};
  }

  function Reverse(g: Graph): Graph {
    map x | x in g :: set y | y in g && x in g[y]
  }

  lemma {:induction false} ReversePath(g: Graph, a: Id, b: Id, n: nat)
    requires Closed(g) && ReachesIn(g, a, b, n)
    ensures Reaches(Reverse(g), b, a)
    decreases n
  {
    ReachesInKeys(g, a, b, n);
    if n == 0 {
      ReachesEdge(Reverse(g), b, a);
    } else {
      var c :| c in g[a] && ReachesIn(g, c, b, n - 1);
      ReversePath(g, c, b, n - 1);
      ReachesSnoc(Reverse(g), b, c, a);
    }
  }

  lemma ReverseReaches(g: Graph, a: Id, b: Id)
    requires Closed(g)
    ensures Reaches(g, a, b) <==> Reaches(Reverse(g), b, a)
  {
    var r := Reverse(g);
    forall x | x in g ensures Reverse(r)[x] == g[x] {
      assert forall y :: y in g[x] ==> x in r[y];
    }
    assert Reverse(r) == g;
    if Reaches(g, a, b) {
      var n: nat :| ReachesIn(g, a, b, n);
      ReversePath(g, a, b, n);
    }
    if Reaches(r, b, a) {
      var n: nat :| ReachesIn(r, b, a, n);
      ReversePath(r, b, a, n);
    }
  }

  /** The nodes that reach `start`, found by following edges backwards. */
  method TransitiveDependents(g: Graph, start: Id) returns (r: set<Id>)
    requires Closed(g)
    ensures r == TransDependents(g, start)
  {
    r := TransitiveDeps(Reverse(g), start);
    forall y | y in g { ReverseReaches(g, y, start); }
  }
}
