/** Groups against `depends`: neither kind of group looks at the dependencies of its members,
    so whether they run in order is up to the lists. Exactly when do the lists arrange it? */
module Arrangement {
  import opened Ordering
  import opened Reachability
  import opened Lifecycle
  import opened Tracker
  import opened Scheduler
  import opened RunTheorems
  import opened Orchestration
  import opened GroupTheorems

  // ----- what is asked for: every dispatched node has its dependencies done -----

  ghost predicate SequentialReady(g: Graph, ok: set<Id>, failFast: bool, u: StatusMap, ids: seq<Id>)
    decreases |ids|
  {
    ids == [] || Stale(u, ids[0]) ||
    if CanBegin(g, u, ids[0]) then
      && DepsDone(g, u, ids[0])
      && ((failFast && ids[0] !in ok) || SequentialReady(g, ok, failFast, After(g, ok, u, {ids[0]}), ids[1..]))
    else SequentialReady(g, ok, failFast, u, ids[1..])
  }

  ghost predicate ChunksReady(g: Graph, ok: set<Id>, failFast: bool, u: StatusMap, ids: seq<Id>, c: nat)
    requires c > 0
    decreases |ids|
  {
    ids == [] || !Dispatchable(g, u, Head(ids, c)) ||
    (&& (forall x :: x in Head(ids, c) ==> DepsDone(g, u, x))
     && ((failFast && !(Elems(Head(ids, c)) <= ok))
         || ChunksReady(g, ok, failFast, After(g, ok, u, Elems(Head(ids, c))), Tail(ids, c), c)))
  }

  /** In this run of the group no node is dispatched before its dependencies are done. */
  ghost predicate GroupReady(g: Graph, ok: set<Id>, failFast: bool, u: StatusMap, ids: seq<Id>, c: nat) {
    if c <= 1 then SequentialReady(g, ok, failFast, u, ids)
    else ChunksReady(g, ok, failFast, u, StillActive(u, ids), c)
  }

  // ----- what the lists can do about it -----

  /** `d` is done, or active and among `done`, the nodes listed so far. */
  predicate DepArranged(s: StatusMap, done: set<Id>, d: Id) {
    d in s && (Done(s[d]) || (Active(s[d]) && d in done))
  }

  predicate DepsArranged(g: Graph, s: StatusMap, done: set<Id>, x: Id) {
    x in g ==> forall d :: d in g[x] ==> DepArranged(s, done, d)
  }

  /** Each active member is listed after its active dependencies, up to a stale member. */
  predicate SequentialArranged(g: Graph, s: StatusMap, done: set<Id>, ids: seq<Id>)
    decreases |ids|
  {
    ids == [] || Stale(s, ids[0]) ||
    if ids[0] in s && Active(s[ids[0]]) && ids[0] !in done then
      DepsArranged(g, s, done, ids[0]) && SequentialArranged(g, s, done + {ids[0]}, ids[1..])
    else SequentialArranged(g, s, done, ids[1..])
  }

  /** Each member is in a later chunk than its active dependencies, up to a repeated member. */
  ghost predicate ChunksArranged(g: Graph, s: StatusMap, done: set<Id>, ids: seq<Id>, c: nat)
    requires c > 0
    decreases |ids|
  {
    ids == [] || !NoDup(Head(ids, c)) || !(Elems(Head(ids, c)) !! done) ||
    (&& (forall x :: x in Head(ids, c) ==> DepsArranged(g, s, done, x))
     && ChunksArranged(g, s, done + Elems(Head(ids, c)), Tail(ids, c), c))
  }

  ghost predicate GroupArranged(g: Graph, s: StatusMap, ids: seq<Id>, c: nat) {
    if c <= 1 then SequentialArranged(g, s, {}, ids) else ChunksArranged(g, s, {}, StillActive(s, ids), c)
  }

  // ----- how far a run has come -----

  /** Nothing that depends on `x` can begin any more. */
  ghost predicate CutOff(g: Graph, u: StatusMap, x: Id) {
    forall y :: y in u && Reaches(g, y, x) ==> !Active(u[y])
  }

  ghost predicate Advanced(g: Graph, s: StatusMap, u: StatusMap, x: Id)
    requires x in s
  {
    && x in u && (Active(u[x]) ==> Active(s[x])) && (Done(s[x]) ==> Done(u[x])) && (Stale(u, x) <==> Stale(s, x))
    && (Active(s[x]) ==> Active(u[x]) || Done(u[x]) || CutOff(g, u, x))
  }

  /** `u` comes from `s` by dispatches: what was active is still active, done, or failed or
      blocked together with everything that depends on it. */
  ghost predicate Progressed(g: Graph, s: StatusMap, u: StatusMap) {
    s.Keys == g.Keys && u.Keys == g.Keys && forall x :: x in s ==> Advanced(g, s, u, x)
  }

  /** None of these nodes can begin any more. */
  ghost predicate Spent(u: StatusMap, done: set<Id>) {
    forall d :: d in done && d in u ==> !Active(u[d])
  }

  lemma SpentAfter(g: Graph, ok: set<Id>, u: StatusMap, done: set<Id>, batch: set<Id>)
    requires Spent(u, done)
    ensures Spent(After(g, ok, u, batch), done + batch)
  {
  }

  lemma SpentDisjoint(u: StatusMap, done: set<Id>, batch: set<Id>)
    requires Spent(u, done) && batch <= ActiveIds(u)
    ensures batch !! done
  {
    forall x | x in batch ensures x !in done {
      assert x in ActiveIds(u);
    }
  }

  lemma ProgressedAfter(g: Graph, ok: set<Id>, s: StatusMap, u: StatusMap, batch: set<Id>)
    requires Progressed(g, s, u) && batch <= ActiveIds(u)
    ensures Progressed(g, s, After(g, ok, u, batch))
  {
    var t := After(g, ok, u, batch);
    forall x | x in s ensures Advanced(g, s, t, x) {
      assert Advanced(g, s, u, x);
      if Active(s[x]) && !Active(t[x]) && !Done(t[x]) {
        CutOffAfter(g, ok, u, batch, x);
      }
    }
  }

  lemma CutOffAfter(g: Graph, ok: set<Id>, u: StatusMap, batch: set<Id>, x: Id)
    requires batch <= ActiveIds(u) && x in u && (Active(u[x]) || CutOff(g, u, x))
    requires var t := After(g, ok, u, batch); !Active(t[x]) && !Done(t[x])
    ensures CutOff(g, After(g, ok, u, batch), x)
  {
    var t := After(g, ok, u, batch);
    forall y | y in t && Reaches(g, y, x) ensures !Active(t[y]) {
      if Active(u[y]) && y !in batch && x !in batch && Active(u[x]) {
        var f :| f in batch && f !in ok && Reaches(g, x, f);
        ReachesTrans(g, y, x, f);
        assert HitBy(g, ok, batch, y);
      }
    }
  }

  /** Where the list has put the dependencies of a node that is still active, they are done. */
  lemma ArrangedReady(g: Graph, s: StatusMap, u: StatusMap, done: set<Id>, x: Id)
    requires Progressed(g, s, u) && x in u && Active(u[x])
    requires DepsArranged(g, s, done, x) && Spent(u, done)
    ensures DepsDone(g, u, x)
  {
    forall d | d in g[x] ensures d in u && Done(u[d]) {
      assert DepArranged(s, done, d) && Advanced(g, s, u, d);
      ReachesEdge(g, x, d);
    }
  }

  // ----- sufficient -----

  lemma {:induction false} SequentialSufficient(g: Graph, ok: set<Id>, failFast: bool, s: StatusMap, done: set<Id>,
                                                u: StatusMap, ids: seq<Id>)
    requires Progressed(g, s, u) && Spent(u, done) && SequentialArranged(g, s, done, ids)
    ensures SequentialReady(g, ok, failFast, u, ids)
    decreases |ids|
  {
    if ids != [] && !Stale(u, ids[0]) {
      var x := ids[0];
      assert x in s ==> Advanced(g, s, u, x);
      if CanBegin(g, u, x) {
        ArrangedReady(g, s, u, done, x);
        ProgressedAfter(g, ok, s, u, {x});
        SpentAfter(g, ok, u, done, {x});
        SequentialSufficient(g, ok, failFast, s, done + {x}, After(g, ok, u, {x}), ids[1..]);
      } else if x in s && Active(s[x]) && x !in done {
        SequentialSufficient(g, ok, failFast, s, done + {x}, u, ids[1..]);
      } else {
        SequentialSufficient(g, ok, failFast, s, done, u, ids[1..]);
      }
    }
  }

  lemma DispatchableActive(g: Graph, u: StatusMap, batch: seq<Id>)
    requires Dispatchable(g, u, batch)
    ensures Elems(batch) <= ActiveIds(u) && Elems(batch) <= g.Keys && NoDup(batch)
  {
    forall x | x in Elems(batch) ensures x in ActiveIds(u) && x in g {
      assert CanBegin(g, u, x);
    }
  }

  lemma {:induction false} ChunksSufficient(g: Graph, ok: set<Id>, failFast: bool, s: StatusMap, done: set<Id>,
                                            u: StatusMap, ids: seq<Id>, c: nat)
    requires Progressed(g, s, u) && Spent(u, done) && c > 0 && ChunksArranged(g, s, done, ids, c)
    ensures ChunksReady(g, ok, failFast, u, ids, c)
    decreases |ids|
  {
    if ids != [] && Dispatchable(g, u, Head(ids, c)) {
      var batch := Head(ids, c);
      DispatchableActive(g, u, batch);
      SpentDisjoint(u, done, Elems(batch));
      SpentAfter(g, ok, u, done, Elems(batch));
      forall x | x in batch ensures DepsDone(g, u, x) {
        assert x in Elems(batch);
        ArrangedReady(g, s, u, done, x);
      }
      ProgressedAfter(g, ok, s, u, Elems(batch));
      ChunksSufficient(g, ok, failFast, s, done + Elems(batch), After(g, ok, u, Elems(batch)), Tail(ids, c), c);
    }
  }

  // ----- necessary: the outcome where everything succeeds -----

  /** With the nodes of `done` run and successful, a dependency is done exactly if it is arranged. */
  lemma ArrangedIsDone(g: Graph, s: StatusMap, done: set<Id>, x: Id)
    requires Closed(g) && s.Keys == g.Keys && done <= ActiveIds(s)
    ensures DepsDone(g, After(g, g.Keys, s, done), x) <==> DepsArranged(g, s, done, x)
  {
    var u := After(g, g.Keys, s, done);
    forall d | d in s ensures d in u && (Done(u[d]) <==> DepArranged(s, done, d)) {
      assert d in g;
    }
  }

  lemma SuccessCompose(g: Graph, s: StatusMap, done: set<Id>, batch: set<Id>)
    requires done <= ActiveIds(s) && batch <= ActiveIds(s) && batch !! done && s.Keys == g.Keys
    ensures After(g, g.Keys, After(g, g.Keys, s, done), batch) == After(g, g.Keys, s, done + batch)
    ensures ActiveIds(After(g, g.Keys, s, done)) == ActiveIds(s) - done
  {
    var u := After(g, g.Keys, s, done);
    forall y | y in s ensures Active(u[y]) <==> Active(s[y]) && y !in done {
      assert !HitBy(g, g.Keys, done, y) by { HitKeys(g, done, y); }
    }
    AfterCompose(g, g.Keys, s, done, batch);
  }

  lemma HitKeys(g: Graph, batch: set<Id>, y: Id)
    requires batch <= g.Keys
    ensures !HitBy(g, g.Keys, batch, y)
  {
  }

  lemma {:induction false} SequentialNecessary(g: Graph, failFast: bool, s: StatusMap, done: set<Id>, ids: seq<Id>)
    requires Closed(g) && s.Keys == g.Keys && done <= ActiveIds(s)
    requires SequentialReady(g, g.Keys, failFast, After(g, g.Keys, s, done), ids)
    ensures SequentialArranged(g, s, done, ids)
    decreases |ids|
  {
    if ids != [] {
      var x, u := ids[0], After(g, g.Keys, s, done);
      StaleStays(g, g.Keys, s, done, x);
      SuccessCompose(g, s, done, {});
      assert CanBegin(g, u, x) <==> x in ActiveIds(u);
      if CanBegin(g, u, x) {
        ArrangedIsDone(g, s, done, x);
        SuccessCompose(g, s, done, {x});
        SequentialNecessary(g, failFast, s, done + {x}, ids[1..]);
      } else if !Stale(s, x) {
        SequentialNecessary(g, failFast, s, done, ids[1..]);
      }
    }
  }

  lemma {:induction false} ChunksNecessary(g: Graph, failFast: bool, s: StatusMap, done: set<Id>, ids: seq<Id>, c: nat)
    requires Closed(g) && s.Keys == g.Keys && done <= ActiveIds(s) && c > 0 && Elems(ids) <= ActiveIds(s)
    requires ChunksReady(g, g.Keys, failFast, After(g, g.Keys, s, done), ids, c)
    ensures ChunksArranged(g, s, done, ids, c)
    decreases |ids|
  {
    if ids != [] && NoDup(Head(ids, c)) && Elems(Head(ids, c)) !! done {
      var batch, u := Head(ids, c), After(g, g.Keys, s, done);
      HeadTail(ids, c);
      assert Elems(batch) <= ActiveIds(s) && Elems(Tail(ids, c)) <= ActiveIds(s);
      SuccessCompose(g, s, done, Elems(batch));
      forall x | x in batch ensures CanBegin(g, u, x) {
        assert x in Elems(batch) && x in ActiveIds(u);
      }
      assert Dispatchable(g, u, batch);
      forall x | x in batch ensures DepsArranged(g, s, done, x) {
        ArrangedIsDone(g, s, done, x);
      }
      ChunksNecessary(g, failFast, s, done + Elems(batch), Tail(ids, c), c);
    }
  }

  lemma AfterNone(g: Graph, ok: set<Id>, s: StatusMap)
    ensures After(g, ok, s, {}) == s
  {
  }

  lemma ProgressedStart(g: Graph, s: StatusMap)
    requires s.Keys == g.Keys
    ensures Progressed(g, s, s)
  {
    forall x | x in s ensures Advanced(g, s, s, x) {
    }
  }

  /** Under every outcome the group dispatches nodes only after their dependencies exactly when
      its list puts every active member behind its active dependencies, in a sequential group
      anywhere before it and in a parallel one in an earlier chunk. */
  lemma GroupArrangedExact(g: Graph, failFast: bool, s: StatusMap, ids: seq<Id>, c: nat)
    requires Closed(g) && s.Keys == g.Keys
    ensures (forall ok :: GroupReady(g, ok, failFast, s, ids, c)) <==> GroupArranged(g, s, ids, c)
  {
    ProgressedStart(g, s);
    AfterNone(g, g.Keys, s);
    if GroupArranged(g, s, ids, c) {
      forall ok ensures GroupReady(g, ok, failFast, s, ids, c) {
        if c <= 1 { SequentialSufficient(g, ok, failFast, s, {}, s, ids); }
        else { ChunksSufficient(g, ok, failFast, s, {}, s, StillActive(s, ids), c); }
      }
    }
    if GroupReady(g, g.Keys, failFast, s, ids, c) {
      if c <= 1 { SequentialNecessary(g, failFast, s, {}, ids); }
      else { ChunksNecessary(g, failFast, s, {}, StillActive(s, ids), c); }
    }
  }

  // ----- the two ways to put it -----

  lemma ListedEarlier(g: Graph, s: StatusMap, ids: seq<Id>, i: nat, k: nat)
    requires i <= k < |ids| && ids[i] == ids[k] && DepsListedAt(g, s, ids, i)
    ensures DepsListedAt(g, s, ids, k)
  {
    assert ids[..i] == ids[..k][..i];
  }

  lemma ListedPrefix(g: Graph, s: StatusMap, ids: seq<Id>, k: nat)
    requires k < |ids|
    ensures DepsListed(g, s, ids[..k + 1]) <==>
            DepsListed(g, s, ids[..k]) && (CanBegin(g, s, ids[k]) ==> DepsListedAt(g, s, ids, k))
  {
    var a, b := ids[..k], ids[..k + 1];
    forall i | 0 <= i < k ensures b[i] == a[i] && b[..i] == a[..i] {
    }
    assert b[..k] == ids[..k];
    if DepsListed(g, s, b) {
      forall i | 0 <= i < k && CanBegin(g, s, a[i]) ensures DepsListedAt(g, s, a, i) {
        assert DepsListedAt(g, s, b, i);
      }
      assert CanBegin(g, s, b[k]) ==> DepsListedAt(g, s, b, k);
    }
    if DepsListed(g, s, a) && (CanBegin(g, s, ids[k]) ==> DepsListedAt(g, s, ids, k)) {
      forall i | 0 <= i <= k && CanBegin(g, s, b[i]) ensures DepsListedAt(g, s, b, i) {
        if i < k { assert DepsListedAt(g, s, a, i); }
      }
    }
  }

  lemma {:induction false} ListedPrefixes(g: Graph, s: StatusMap, ids: seq<Id>, k: nat)
    requires k <= |ids| && DepsListed(g, s, ids)
    ensures DepsListed(g, s, ids[..k])
    decreases |ids| - k
  {
    if k < |ids| {
      ListedPrefixes(g, s, ids, k + 1);
      ListedPrefix(g, s, ids, k);
    } else {
      assert ids[..k] == ids;
    }
  }

  lemma {:induction false} ArrangedFrom(g: Graph, s: StatusMap, ids: seq<Id>, k: nat)
    requires Closed(g) && s.Keys == g.Keys && NoneInProgress(s) && k <= |ids| && DepsListed(g, s, ids[..k])
    ensures SequentialArranged(g, s, Elems(ids[..k]) * ActiveIds(s), ids[k..]) <==> DepsListed(g, s, ids)
    decreases |ids| - k
  {
    if k == |ids| {
      assert ids[..k] == ids;
    } else {
      var x, done := ids[k], Elems(ids[..k]) * ActiveIds(s);
      assert ids[k..][0] == x && ids[k..][1..] == ids[k + 1..];
      assert Elems(ids[..k + 1]) == Elems(ids[..k]) + {x} by { assert ids[..k + 1] == ids[..k] + [x]; }
      ListedPrefix(g, s, ids, k);
      if CanBegin(g, s, x) {
        ArrangedListedAt(g, s, ids, k);
        if x in done {
          var i :| 0 <= i < k && ids[..k][i] == x;
          assert DepsListedAt(g, s, ids[..k], i);
          assert ids[..k][..i] == ids[..i];
          ListedEarlier(g, s, ids, i, k);
        }
      }
      var more := Elems(ids[..k + 1]) * ActiveIds(s);
      assert more == if x in ActiveIds(s) && x !in done then done + {x} else done;
      assert !Stale(s, x) && (CanBegin(g, s, x) <==> x in ActiveIds(s));
      assert SequentialArranged(g, s, done, ids[k..]) <==>
             (x in ActiveIds(s) && x !in done ==> DepsArranged(g, s, done, x))
             && SequentialArranged(g, s, more, ids[k + 1..]);
      if DepsListed(g, s, ids[..k + 1]) {
        ArrangedFrom(g, s, ids, k + 1);
      } else if DepsListed(g, s, ids) {
        ListedPrefixes(g, s, ids, k + 1);
      }
    }
  }

  lemma ArrangedListedAt(g: Graph, s: StatusMap, ids: seq<Id>, k: nat)
    requires s.Keys == g.Keys && k < |ids|
    ensures DepsArranged(g, s, Elems(ids[..k]) * ActiveIds(s), ids[k]) <==> DepsListedAt(g, s, ids, k)
  {
    var done := Elems(ids[..k]) * ActiveIds(s);
    forall d ensures DepArranged(s, done, d) <==> (d in s && Done(s[d])) || (d in ids[..k] && CanBegin(g, s, d)) {
      assert d in ids[..k] <==> d in Elems(ids[..k]);
    }
  }

  /** Between commands the two conditions on a sequential list, by position and step by step,
      are the same. */
  lemma ArrangedListed(g: Graph, s: StatusMap, ids: seq<Id>)
    requires Closed(g) && s.Keys == g.Keys && NoneInProgress(s)
    ensures SequentialArranged(g, s, {}, ids) <==> DepsListed(g, s, ids)
  {
    assert ids[..0] == [] && ids[0..] == ids && Elems(ids[..0]) * ActiveIds(s) == {};
    ArrangedFrom(g, s, ids, 0);
  }

  /** A parallel group starts a node whose dependency has not run. */
  lemma ParallelIgnoresDepends()
    ensures var g: Graph := map["a" := {}, "b" := {"a"}];
            var s := map["a" := Ready, "b" := Pending];
            && !DepsDone(g, s, "b")
            && GroupRun(g, g.Keys, false, s, ["b"], 2) ==
               GroupOutcome(s["b" := Completed], [NodeResult("b", Completed)], false)
  {
    var g: Graph := map["a" := {}, "b" := {"a"}];
    var s := map["a" := Ready, "b" := Pending];
    assert Keep(["b"], ActiveIds(s)) == ["b"];
    assert Head(["b"], 2) == ["b"] && Tail(["b"], 2) == [];
    SingletonDispatch(g, g.Keys, s, "b");
    assert s["b" := InProgress]["b" := Completed] == s["b" := Completed];
  }
}
