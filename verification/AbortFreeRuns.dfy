/** The exact condition on the groups alone for an orchestrated run never to hit an invalid
    transition, from whatever state without stale nodes it starts and whatever the outcomes. */
module AbortFreeRuns {
  import opened Ordering
  import opened Reachability
  import opened Lifecycle
  import opened Tracker
  import opened Scheduler
  import opened Groups
  import opened Orchestration
  import opened GroupTheorems
  import opened Arrangement
  import opened ArrangedRuns

  // ----- one parallel group -----

  /** No member depends on one before it, unless at most c - 1 members come before the dependent,
      so that the two can never be in different chunks. */
  ghost predicate Spread(g: Graph, l: seq<Id>, c: nat) {
    forall i, j :: 0 <= i < j < |l| && c <= j ==> !Reaches(g, l[j], l[i])
  }

  /** Two places of a filtered list come from two places of the list, not further to the front. */
  lemma {:induction false} KeepPair(l: seq<Id>, t: set<Id>, a: nat, b: nat) returns (i: nat, j: nat)
    requires a < b < |Keep(l, t)|
    ensures i < j < |l| && b <= j && l[i] == Keep(l, t)[a] && l[j] == Keep(l, t)[b]
    decreases |l|
  {
    if l[0] !in t {
      i, j := KeepPair(l[1..], t, a, b);
    } else if a > 0 {
      i, j := KeepPair(l[1..], t, a - 1, b - 1);
    } else {
      i := 0;
      j := KeepPlace(l[1..], t, b - 1);
      return i, j + 1;
    }
    i, j := i + 1, j + 1;
  }

  lemma {:induction false} KeepPlace(l: seq<Id>, t: set<Id>, b: nat) returns (j: nat)
    requires b < |Keep(l, t)|
    ensures b <= j < |l| && l[j] == Keep(l, t)[b]
    decreases |l|
  {
    if l[0] !in t {
      j := KeepPlace(l[1..], t, b);
    } else if b > 0 {
      j := KeepPlace(l[1..], t, b - 1);
    } else {
      return 0;
    }
    j := j + 1;
  }

  lemma SpreadKeep(g: Graph, l: seq<Id>, t: set<Id>, c: nat)
    requires Spread(g, l, c)
    ensures Spread(g, Keep(l, t), c)
  {
    var k := Keep(l, t);
    forall a, b | 0 <= a < b < |k| && c <= b ensures !Reaches(g, k[b], k[a]) {
      var i, j := KeepPair(l, t, a, b);
    }
  }

  lemma {:induction false} SpreadChunkFree(g: Graph, l: seq<Id>, c: nat)
    requires NoDup(l) && Spread(g, l, c) && c > 0
    ensures ChunkFree(g, l, c)
    decreases |l|
  {
    if l != [] {
      var k := Min(c, |l|);
      var head, tail := Head(l, c), Tail(l, c);
      NoDupSplit(l, c);
      forall x, y | x in head && y in tail ensures x != y && !Reaches(g, y, x) {
        var i :| 0 <= i < k && head[i] == x;
        var j :| 0 <= j < |tail| && tail[j] == y;
        assert l[i] == x && l[k + j] == y && k == c;
        assert x in Elems(head) && y in Elems(tail);
      }
      forall i, j | 0 <= i < j < |tail| && c <= j ensures !Reaches(g, tail[j], tail[i]) {
        assert tail[i] == l[k + i] && tail[j] == l[k + j];
      }
      SpreadChunkFree(g, tail, c);
    }
  }

  // ----- where it fails: the members that bring it about are the only active nodes -----

  lemma {:induction false} KeepAppend(a: seq<Id>, b: seq<Id>, t: set<Id>)
    ensures Keep(a + b, t) == Keep(a, t) + Keep(b, t)
  {
    if a == [] {
      assert a + b == b;
    } else {
      assert (a + b)[0] == a[0] && (a + b)[1..] == a[1..] + b;
      KeepAppend(a[1..], b, t);
    }
  }

  lemma {:induction false} KeepNone(l: seq<Id>, t: set<Id>)
    requires Elems(l) !! t
    ensures Keep(l, t) == []
  {
    if l != [] {
      assert l == [l[0]] + l[1..] && l[0] in Elems(l);
      KeepNone(l[1..], t);
    }
  }

  lemma {:induction false} KeepWhole(l: seq<Id>, t: set<Id>)
    requires Elems(l) <= t
    ensures Keep(l, t) == l
  {
    if l != [] {
      assert l == [l[0]] + l[1..] && l[0] in Elems(l);
      KeepWhole(l[1..], t);
    }
  }

  /** Keeping a stretch of a list without repeats. */
  lemma KeepStretch(a: seq<Id>, b: seq<Id>, d: seq<Id>, t: set<Id>)
    requires NoDup(a + b + d) && Elems(b) <= t && t !! Elems(d)
    ensures Keep(a + b + d, t) == Keep(a, t) + b
  {
    NoDupParts(a + b, d);
    KeepAppend(a + b, d, t);
    KeepAppend(a, b, t);
    KeepNone(d, t);
    KeepWhole(b, t);
    assert Keep(a, t) + b + [] == Keep(a, t) + b;
  }

  /** The dependency, then so many of the members before the dependent that it comes first in the
      second chunk, and the dependent. */
  function Offenders(l: seq<Id>, i: nat, j: nat, c: nat): seq<Id>
    requires i < j < |l| && 1 < c <= j
  {
    if j - c <= i then l[j - c..j + 1] else [l[i]] + l[j - c + 1..j + 1]
  }

  lemma StretchAlone(a: seq<Id>, b: seq<Id>, d: seq<Id>)
    requires NoDup(a + b + d)
    ensures Keep(a + b + d, Elems(b)) == b
  {
    NoDupParts(a + b, d);
    NoDupParts(a, b);
    assert Elems(a + b) == Elems(a) + Elems(b);
    KeepStretch(a, b, d, Elems(b));
    KeepNone(a, Elems(b));
    assert [] + b == b;
  }

  lemma TwoStretches(a: seq<Id>, x: Id, m: seq<Id>, b: seq<Id>, d: seq<Id>)
    requires NoDup(a + [x] + m + b + d)
    ensures Keep(a + [x] + m + b + d, {x} + Elems(b)) == [x] + b
  {
    var t := {x} + Elems(b);
    DisjointParts(a, x, m, b, d);
    KeepStretch(a + [x] + m, b, d, t);
    KeepStretch(a, [x], m, t);
    KeepNone(a, t);
    assert [] + [x] == [x];
  }

  lemma NearOffenders(l: seq<Id>, i: nat, j: nat, c: nat)
    requires i < j < |l| && 1 < c <= j && NoDup(l) && j - c <= i
    ensures var o := Offenders(l, i, j, c);
            Keep(l, Elems(o)) == o && |o| == c + 1 && o[c] == l[j] && l[i] in o[..c]
  {
    var o := Offenders(l, i, j, c);
    assert l == l[..j - c] + l[j - c..j + 1] + l[j + 1..];
    StretchAlone(l[..j - c], l[j - c..j + 1], l[j + 1..]);
    assert o[..c][i - (j - c)] == l[i];
  }

  lemma CutInFive(l: seq<Id>, i: nat, k: nat, j: nat)
    requires i < k <= j < |l|
    ensures l == l[..i] + [l[i]] + l[i + 1..k] + l[k..j + 1] + l[j + 1..]
  {
  }

  lemma FarOffenders(l: seq<Id>, i: nat, j: nat, c: nat)
    requires i < j < |l| && 1 < c <= j && NoDup(l) && i < j - c
    ensures var o := Offenders(l, i, j, c);
            Keep(l, Elems(o)) == o && |o| == c + 1 && o[c] == l[j] && l[i] in o[..c]
  {
    var k := j - c + 1;
    var o := Offenders(l, i, j, c);
    CutInFive(l, i, k, j);
    TwoStretches(l[..i], l[i], l[i + 1..k], l[k..j + 1], l[j + 1..]);
    assert Elems(o) == {l[i]} + Elems(l[k..j + 1]);
    assert o[..c][0] == l[i];
  }

  lemma OffendersKept(l: seq<Id>, i: nat, j: nat, c: nat)
    requires i < j < |l| && 1 < c <= j && NoDup(l)
    ensures var o := Offenders(l, i, j, c);
            && Keep(l, Elems(o)) == o && |o| == c + 1 && o[c] == l[j] && l[i] in o[..c] && Elems(o) <= Elems(l)
  {
    if j - c <= i { NearOffenders(l, i, j, c); } else { FarOffenders(l, i, j, c); }
    assert Elems(Keep(l, Elems(Offenders(l, i, j, c)))) <= Elems(l);
  }

  lemma DisjointParts(a: seq<Id>, x: Id, m: seq<Id>, b: seq<Id>, d: seq<Id>)
    requires NoDup(a + [x] + m + b + d)
    ensures NoDup(a + [x] + m) && {x} + Elems(b) !! Elems(a) && {x} + Elems(b) !! Elems(m) && {x} + Elems(b) !! Elems(d)
  {
    NoDupParts(a + [x] + m + b, d);
    NoDupParts(a + [x] + m, b);
    NoDupParts(a + [x], m);
    NoDupParts(a, [x]);
    assert Elems(a + [x] + m) == Elems(a) + {x} + Elems(m);
    assert Elems(a + [x] + m + b) == Elems(a + [x] + m) + Elems(b);
  }

  /** Only these nodes are active; what depends on them is Blocked, and the rest is Completed. */
  ghost function OnlyActive(g: Graph, xs: set<Id>): StatusMap {
    map x | x in g :: if x in xs then Pending else if Above(g, xs, x) then Blocked else Completed
  }

  ghost predicate Above(g: Graph, xs: set<Id>, x: Id) {
    exists y :: y in xs && Reaches(g, x, y)
  }

  /** No history rules such a state out: the invariants hold in it. */
  lemma OnlyActiveIds(g: Graph, xs: set<Id>)
    requires Closed(g) && xs <= g.Keys
    ensures ActiveIds(OnlyActive(g, xs)) == xs && AtRest(g, OnlyActive(g, xs))
  {
    var s := OnlyActive(g, xs);
    forall x | x in s && s[x].Completed? ensures Settled(g, s, x) {
      forall d | d in g[x] ensures s[d].Completed? {
        ReachesEdge(g, x, d);
        if y :| y in xs && Reaches(g, d, y) { ReachesCons(g, x, d, y); }
      }
    }
  }

  /** If a member can be split from one it depends on, that one's failure makes the run abort. */
  lemma SplitAborts(g: Graph, l: seq<Id>, i: nat, j: nat, c: nat)
    requires Closed(g) && NoDup(l) && Elems(l) <= g.Keys && i < j < |l| && 1 < c <= j && Reaches(g, l[j], l[i])
    ensures var o := Offenders(l, i, j, c);
            ParallelChunks(g, g.Keys - {l[i]}, false, OnlyActive(g, Elems(o)), o, c).error
  {
    var o, ok := Offenders(l, i, j, c), g.Keys - {l[i]};
    var s := OnlyActive(g, Elems(o));
    var batch, rest := Head(o, c), Tail(o, c);
    OffendersKept(l, i, j, c);
    OnlyActiveIds(g, Elems(o));
    assert batch == o[..c] && rest == [l[j]];
    KeptNoDup(l, Elems(o));
    NoDupSplit(o, c);
    HeadTail(o, c);
    forall x | x in batch ensures CanBegin(g, s, x) {
      assert x in Elems(batch) && x in Elems(o);
    }
    ChunkTurn(g, ok, false, s, o, c);
    DependentFails(g, ok, s, batch, rest, c, l[i], l[j]);
  }

  lemma KeptNoDup(l: seq<Id>, t: set<Id>)
    requires NoDup(l)
    ensures NoDup(Keep(l, t))
  {
    KeepNoDup(l, t);
  }

  // ----- whole runs -----

  /** The members of a group that no earlier group lists. */
  function Unseen(g: Graph, seen: set<Id>, ids: seq<Id>): seq<Id> {
    Keep(ids, g.Keys - seen)
  }

  ghost predicate GroupAbortFree(g: Graph, failFast: bool, seen: set<Id>, ids: seq<Id>, c: nat) {
    var l := Unseen(g, seen, ids);
    c > 1 ==> NoDup(l) && (failFast || Spread(g, l, c))
  }

  /** No parallel group repeats a member that is new to the run, or without fail-fast can split
      such a member from one it depends on. */
  ghost predicate AbortFree(o: Setting, seen: set<Id>, names: seq<string>, completed: set<string>)
    requires Elems(names) <= Names(o.groups)
    decreases |names|
  {
    names == [] ||
    (assert names == [names[0]] + names[1..];
     if o.target.Some? && names[0] != o.target.value then AbortFree(o, seen, names[1..], completed)
     else
       assert names[0] in Elems(names);
       var group := GroupNamed(o.groups, names[0]);
       FirstMissing(group.prerequisites, completed).Some? ||
       (&& GroupAbortFree(o.g, o.failFast, seen, group.nodes, Concurrency(group, o.limit))
        && AbortFree(o, seen + Elems(group.nodes), names[1..], completed + {names[0]})))
  }

  lemma GroupNeverFails(g: Graph, ok: set<Id>, failFast: bool, seen: set<Id>, u: StatusMap, ids: seq<Id>, c: nat)
    requires Closed(g) && u.Keys == g.Keys && NoneInProgress(u) && Spent(u, seen)
    requires GroupAbortFree(g, failFast, seen, ids, c)
    ensures !GroupRun(g, ok, failFast, u, ids, c).error
  {
    if c <= 1 {
      SequentialSucceeds(g, ok, failFast, u, ids);
    } else {
      var l, a := Unseen(g, seen, ids), StillActive(u, ids);
      KeepTwice(ids, g.Keys - seen, ActiveIds(u));
      assert (g.Keys - seen) * ActiveIds(u) == ActiveIds(u);
      KeepNoDup(l, ActiveIds(u));
      StillActiveAll(g, u, ids);
      if failFast {
        DistinctFailFastSafe(g, ok, u, a, c);
      } else {
        SpreadKeep(g, l, ActiveIds(u), c);
        SpreadChunkFree(g, a, c);
        ChunkFreeSafe(g, ok, failFast, u, a, c);
      }
    }
  }

  lemma GroupUsesUp(g: Graph, ok: set<Id>, failFast: bool, seen: set<Id>, u: StatusMap, ids: seq<Id>, c: nat)
    requires Closed(g) && u.Keys == g.Keys && NoneInProgress(u) && Spent(u, seen)
    requires RanOut(failFast, GroupRun(g, ok, failFast, u, ids, c))
    ensures var t := GroupRun(g, ok, failFast, u, ids, c).statuses;
            t.Keys == g.Keys && NoneInProgress(t) && Spent(t, seen + Elems(ids))
  {
    var t := GroupRun(g, ok, failFast, u, ids, c).statuses;
    ProgressedStart(g, u);
    GroupLeavesOff(g, ok, failFast, u, u, ids, c);
    forall x | x in t ensures !t[x].InProgress? {
      assert Advanced(g, u, t, x);
    }
    forall x | x in seen + Elems(ids) && x in t ensures !Active(t[x]) {
      assert x in ActiveIds(t) ==> x in ActiveIds(u);
    }
  }

  lemma {:induction false} RunNeverFails(o: Setting, seen: set<Id>, u: StatusMap, names: seq<string>,
                                         completed: set<string>)
    requires Closed(o.g) && u.Keys == o.g.Keys && NoneInProgress(u) && Spent(u, seen)
    requires Elems(names) <= Names(o.groups) && AbortFree(o, seen, names, completed)
    ensures RunGroups(o, u, names, completed).error != InvalidTransition
    decreases |names|
  {
    if names != [] {
      assert names == [names[0]] + names[1..];
      assert names[0] in Elems(names);
      var group := GroupNamed(o.groups, names[0]);
      var c := Concurrency(group, o.limit);
      if o.target.Some? && names[0] != o.target.value {
        RunNeverFails(o, seen, u, names[1..], completed);
      } else if FirstMissing(group.prerequisites, completed).None? {
        var r := GroupRun(o.g, o.ok, o.failFast, u, group.nodes, c);
        GroupNeverFails(o.g, o.ok, o.failFast, seen, u, group.nodes, c);
        if RanOut(o.failFast, r) {
          GroupUsesUp(o.g, o.ok, o.failFast, seen, u, group.nodes, c);
          RunNeverFails(o, seen + Elems(group.nodes), r.statuses, names[1..], completed + {names[0]});
        }
      }
    }
  }

  /** With nothing else active, a group dispatches just these members. */
  lemma ActiveAlone(g: Graph, seen: set<Id>, ids: seq<Id>, o: seq<Id>)
    requires Closed(g) && Keep(Unseen(g, seen, ids), Elems(o)) == o && Elems(o) <= g.Keys - seen
    ensures StillActive(OnlyActive(g, Elems(o)), ids) == o
    ensures AllActive(g, OnlyActive(g, Elems(o)), o)
  {
    OnlyActiveIds(g, Elems(o));
    KeepTwice(ids, g.Keys - seen, Elems(o));
    assert (g.Keys - seen) * Elems(o) == Elems(o);
    StillActiveAll(g, OnlyActive(g, Elems(o)), ids);
  }

  lemma RepeatCanFail(g: Graph, failFast: bool, seen: set<Id>, ids: seq<Id>, c: nat)
    requires Closed(g) && c > 1 && !NoDup(Unseen(g, seen, ids))
    ensures GroupRun(g, g.Keys, failFast, OnlyActive(g, Elems(Unseen(g, seen, ids))), ids, c).error
  {
    var l := Unseen(g, seen, ids);
    KeepWhole(l, Elems(l));
    ActiveAlone(g, seen, ids, l);
    RepeatsAbort(g, failFast, OnlyActive(g, Elems(l)), l, c);
  }

  lemma SplitCanFail(g: Graph, seen: set<Id>, ids: seq<Id>, c: nat, i: nat, j: nat)
    requires var l := Unseen(g, seen, ids);
             Closed(g) && 1 < c && NoDup(l) && i < j < |l| && c <= j && Reaches(g, l[j], l[i])
    ensures var l := Unseen(g, seen, ids);
            var xs := Elems(Offenders(l, i, j, c));
            xs <= g.Keys - seen && GroupRun(g, g.Keys - {l[i]}, false, OnlyActive(g, xs), ids, c).error
  {
    var l := Unseen(g, seen, ids);
    var o := Offenders(l, i, j, c);
    OffendersKept(l, i, j, c);
    ActiveAlone(g, seen, ids, o);
    SplitAborts(g, l, i, j, c);
  }

  /** A group that can abort at all: from this state, with these outcomes. */
  lemma GroupCanFail(g: Graph, failFast: bool, seen: set<Id>, ids: seq<Id>, c: nat) returns (xs: set<Id>, ok: set<Id>)
    requires Closed(g) && !GroupAbortFree(g, failFast, seen, ids, c)
    ensures xs <= g.Keys - seen && GroupRun(g, ok, failFast, OnlyActive(g, xs), ids, c).error
  {
    var l := Unseen(g, seen, ids);
    if !NoDup(l) {
      RepeatCanFail(g, failFast, seen, ids, c);
      return Elems(l), g.Keys;
    }
    var i, j :| 0 <= i < j < |l| && c <= j && Reaches(g, l[j], l[i]);
    SplitCanFail(g, seen, ids, c, i, j);
    return Elems(Offenders(l, i, j, c)), g.Keys - {l[i]};
  }

  /** A group none of whose members can begin is passed over. */
  lemma {:induction false} IdleSequential(g: Graph, ok: set<Id>, failFast: bool, u: StatusMap, ids: seq<Id>)
    requires Closed(g) && u.Keys == g.Keys && NoneInProgress(u) && Elems(ids) !! ActiveIds(u)
    ensures SequentialGroup(g, ok, failFast, u, ids) == GroupOutcome(u, [], false)
    decreases |ids|
  {
    if ids != [] {
      assert ids == [ids[0]] + ids[1..];
      assert ids[0] in Elems(ids);
      assert Elems(ids[1..]) <= Elems(ids);
      SequentialPass(g, ok, failFast, u, ids);
      IdleSequential(g, ok, failFast, u, ids[1..]);
    }
  }

  lemma IdleGroup(g: Graph, ok: set<Id>, failFast: bool, u: StatusMap, ids: seq<Id>, c: nat)
    requires Closed(g) && u.Keys == g.Keys && NoneInProgress(u) && Elems(ids) !! ActiveIds(u)
    ensures GroupRun(g, ok, failFast, u, ids, c) == GroupOutcome(u, [], false)
  {
    IdleSequential(g, ok, failFast, u, ids);
    KeepNone(ids, ActiveIds(u));
  }

  /** If the groups are not abort-free, there are a state and outcomes for which the run aborts. */
  lemma {:induction false} RunCanFail(o: Setting, seen: set<Id>, names: seq<string>, completed: set<string>)
    returns (xs: set<Id>, ok: set<Id>)
    requires Closed(o.g) && Elems(names) <= Names(o.groups) && !AbortFree(o, seen, names, completed)
    ensures xs <= o.g.Keys - seen
    ensures RunGroups(o.(ok := ok), OnlyActive(o.g, xs), names, completed).error == InvalidTransition
    decreases |names|
  {
    assert names == [names[0]] + names[1..];
    assert names[0] in Elems(names);
    var group := GroupNamed(o.groups, names[0]);
    var c := Concurrency(group, o.limit);
    if o.target.Some? && names[0] != o.target.value {
      xs, ok := RunCanFail(o, seen, names[1..], completed);
    } else if !GroupAbortFree(o.g, o.failFast, seen, group.nodes, c) {
      xs, ok := GroupCanFail(o.g, o.failFast, seen, group.nodes, c);
    } else {
      xs, ok := RunCanFail(o, seen + Elems(group.nodes), names[1..], completed + {names[0]});
      OnlyActiveIds(o.g, xs);
      IdleGroup(o.g, ok, o.failFast, OnlyActive(o.g, xs), group.nodes, c);
    }
  }

  /** No outcomes make the run from `s` end in an invalid transition. */
  ghost predicate NeverInvalidFrom(o: Setting, names: seq<string>, s: StatusMap)
    requires Elems(names) <= Names(o.groups)
  {
    forall ok :: RunGroups(o.(ok := ok), s, names, {}).error != InvalidTransition
  }

  ghost predicate NeverInvalid(o: Setting, names: seq<string>)
    requires Elems(names) <= Names(o.groups)
  {
    forall s: StatusMap :: s.Keys == o.g.Keys && NoneInProgress(s) ==> NeverInvalidFrom(o, names, s)
  }

  ghost predicate NeverInvalidAtRest(o: Setting, names: seq<string>)
    requires Elems(names) <= Names(o.groups)
  {
    forall s :: AtRest(o.g, s) ==> NeverInvalidFrom(o, names, s)
  }

  /** From the states that histories lead to, and as well from all states without a node left
      InProgress, an orchestrated run never hits an invalid transition, whatever the outcomes,
      exactly when its groups are abort-free. */
  lemma NeverInvalidExact(o: Setting, names: seq<string>)
    requires Closed(o.g) && Elems(names) <= Names(o.groups)
    ensures NeverInvalidAtRest(o, names) <==> AbortFree(o, {}, names, {})
    ensures NeverInvalid(o, names) <==> AbortFree(o, {}, names, {})
  {
    if AbortFree(o, {}, names, {}) {
      forall s: StatusMap, ok | s.Keys == o.g.Keys && NoneInProgress(s)
        ensures RunGroups(o.(ok := ok), s, names, {}).error != InvalidTransition
      {
        AbortFreeAnyOutcome(o, ok, {}, names, {});
        RunNeverFails(o.(ok := ok), {}, s, names, {});
      }
    } else {
      var xs, ok := RunCanFail(o, {}, names, {});
      OnlyActiveIds(o.g, xs);
      assert !NeverInvalidFrom(o, names, OnlyActive(o.g, xs));
    }
  }

  lemma {:induction false} AbortFreeAnyOutcome(o: Setting, ok: set<Id>, seen: set<Id>, names: seq<string>,
                                               completed: set<string>)
    requires Elems(names) <= Names(o.groups)
    ensures AbortFree(o.(ok := ok), seen, names, completed) == AbortFree(o, seen, names, completed)
    decreases |names|
  {
    if names != [] {
      assert names == [names[0]] + names[1..];
      assert names[0] in Elems(names);
      AbortFreeAnyOutcome(o, ok, seen, names[1..], completed);
      AbortFreeAnyOutcome(o, ok, seen + Elems(GroupNamed(o.groups, names[0]).nodes), names[1..],
                          completed + {names[0]});
    }
  }
}
