/** The exact condition for an orchestrated run to respect `depends` and never abort, whatever
    the outcomes. */
module SoundRuns {
  import opened Ordering
  import opened Reachability
  import opened Lifecycle
  import opened Tracker
  import opened Groups
  import opened Orchestration
  import opened GroupTheorems
  import opened Arrangement
  import opened ArrangedRuns

  // ----- sufficient -----

  /** If the dependencies of all members are used up already, the chunks do not matter. */
  lemma {:induction false} ChunksReadyAll(g: Graph, ok: set<Id>, failFast: bool, s: StatusMap, done: set<Id>,
                                          u: StatusMap, ids: seq<Id>, c: nat)
    requires Progressed(g, s, u) && Spent(u, done) && c > 0
    requires forall x :: x in ids ==> DepsArranged(g, s, done, x)
    ensures ChunksReady(g, ok, failFast, u, ids, c)
    decreases |ids|
  {
    if ids != [] && Dispatchable(g, u, Head(ids, c)) {
      var batch := Head(ids, c);
      HeadTail(ids, c);
      assert forall x :: x in batch || x in Tail(ids, c) ==> x in ids;
      DispatchableActive(g, u, batch);
      forall x | x in batch ensures DepsDone(g, u, x) {
        ArrangedReady(g, s, u, done, x);
      }
      ProgressedAfter(g, ok, s, u, Elems(batch));
      SpentAfter(g, ok, u, done, Elems(batch));
      ChunksReadyAll(g, ok, failFast, s, done, After(g, ok, u, Elems(batch)), Tail(ids, c), c);
    }
  }

  /** Distinct nodes that could all begin now, in a safe state, do not depend on each other. */
  lemma EligibleIndependent(g: Graph, u: StatusMap, ids: seq<Id>)
    requires Safe(g, u) && NoDup(ids) && forall x :: x in ids ==> x in Eligible(g, u)
    ensures Independent(g, ids)
  {
    forall x, y | x in ids && y in ids ensures !Reaches(g, y, x) {
      EligibleSettled(g, u, x);
      EligibleSettled(g, u, y);
      if Reaches(g, y, x) { SettledDown(g, u, y, x); }
    }
  }

  /** The actual state `u` behind the plan: it comes from `s`, and the listed nodes are used up;
      with fail-fast exactly they, because no failure has gone before. */
  ghost predicate OnPlan(g: Graph, failFast: bool, s: StatusMap, done: set<Id>, u: StatusMap) {
    && Safe(g, u) && Progressed(g, s, u) && Spent(u, done)
    && (failFast ==> ActiveIds(s) - done <= ActiveIds(u))
  }

  lemma PlanActive(g: Graph, failFast: bool, s: StatusMap, done: set<Id>, u: StatusMap)
    requires OnPlan(g, failFast, s, done, u)
    ensures ActiveIds(u) <= ActiveIds(s) - done
    ensures failFast ==> ActiveIds(u) == ActiveIds(s) - done
  {
    forall x | x in ActiveIds(u) ensures x in ActiveIds(s) - done {
      assert Advanced(g, s, u, x);
    }
  }

  lemma ParallelSufficient(g: Graph, ok: set<Id>, s: StatusMap, done: set<Id>, u: StatusMap, ids: seq<Id>, c: nat)
    requires OnPlan(g, false, s, done, u) && c > 1 && GroupSound(g, false, s, done, ids, c)
    ensures GroupReady(g, ok, false, u, ids, c) && !GroupRun(g, ok, false, u, ids, c).error
  {
    var l, a := Keep(ids, ActiveIds(s) - done), StillActive(u, ids);
    PlanActive(g, false, s, done, u);
    KeepTwice(ids, ActiveIds(s) - done, ActiveIds(u));
    assert (ActiveIds(s) - done) * ActiveIds(u) == ActiveIds(u);
    KeepNoDup(l, ActiveIds(u));
    forall x | x in a ensures x in l && x in ActiveIds(u) {
      assert x in Elems(a) && Elems(a) == Elems(l) * ActiveIds(u);
    }
    ChunksReadyAll(g, ok, false, s, done, u, a, c);
    forall x | x in a ensures x in Eligible(g, u) {
      ArrangedReady(g, s, u, done, x);
    }
    EligibleIndependent(g, u, a);
    IndependentChunkFree(g, a, c);
    StillActiveAll(g, u, ids);
    ChunkFreeSafe(g, ok, false, u, a, c);
  }

  lemma GroupSufficient(g: Graph, ok: set<Id>, failFast: bool, s: StatusMap, done: set<Id>, u: StatusMap,
                        ids: seq<Id>, c: nat)
    requires OnPlan(g, failFast, s, done, u) && GroupSound(g, failFast, s, done, ids, c)
    ensures GroupReady(g, ok, failFast, u, ids, c) && !GroupRun(g, ok, failFast, u, ids, c).error
  {
    PlanActive(g, failFast, s, done, u);
    if c <= 1 {
      SequentialSufficient(g, ok, failFast, s, done, u, ids);
      forall x | x in ids ensures !Stale(u, x) {
        assert x in s ==> Advanced(g, s, u, x);
      }
      SequentialSucceeds(g, ok, failFast, u, ids);
    } else if failFast {
      ChunksSufficient(g, ok, true, s, done, u, StillActive(u, ids), c);
      StillActiveAll(g, u, ids);
      DistinctFailFastSafe(g, ok, u, StillActive(u, ids), c);
    } else {
      ParallelSufficient(g, ok, s, done, u, ids, c);
    }
  }

  lemma PlanGoesOn(g: Graph, ok: set<Id>, failFast: bool, s: StatusMap, done: set<Id>, u: StatusMap, ids: seq<Id>,
                   c: nat)
    requires OnPlan(g, failFast, s, done, u) && GroupReady(g, ok, failFast, u, ids, c)
    requires RanOut(failFast, GroupRun(g, ok, failFast, u, ids, c))
    ensures OnPlan(g, failFast, s, done + Elems(ids) * ActiveIds(s), GroupRun(g, ok, failFast, u, ids, c).statuses)
  {
    var r := GroupRun(g, ok, failFast, u, ids, c);
    GroupKeepsSafe(g, ok, failFast, u, ids, c);
    GroupLeavesOff(g, ok, failFast, s, u, ids, c);
    forall d | d in done && d in r.statuses ensures !Active(r.statuses[d]) {
      assert d in ActiveIds(r.statuses) ==> d in ActiveIds(u);
    }
  }

  lemma {:induction false} RunSufficient(o: Setting, s: StatusMap, done: set<Id>, u: StatusMap,
                                         names: seq<string>, completed: set<string>)
    requires OnPlan(o.g, o.failFast, s, done, u) && Elems(names) <= Names(o.groups)
    requires RunSound(o, s, done, names, completed)
    ensures RunFine(o, u, names, completed)
    decreases |names|
  {
    if names != [] {
      assert names == [names[0]] + names[1..];
      assert names[0] in Elems(names);
      var group := GroupNamed(o.groups, names[0]);
      var c := Concurrency(group, o.limit);
      if o.target.Some? && names[0] != o.target.value {
        RunSufficient(o, s, done, u, names[1..], completed);
      } else if FirstMissing(group.prerequisites, completed).None? {
        var r := GroupRun(o.g, o.ok, o.failFast, u, group.nodes, c);
        GroupSufficient(o.g, o.ok, o.failFast, s, done, u, group.nodes, c);
        if RanOut(o.failFast, r) {
          PlanGoesOn(o.g, o.ok, o.failFast, s, done, u, group.nodes, c);
          RunSufficient(o, s, done + Elems(group.nodes) * ActiveIds(s), r.statuses, names[1..], completed + {names[0]});
        }
      }
    }
  }

  // ----- necessary -----

  lemma SuccessSame(g: Graph, ok: set<Id>, u: StatusMap, batch: set<Id>)
    requires batch <= ok && batch <= g.Keys
    ensures After(g, ok, u, batch) == After(g, g.Keys, u, batch)
  {
  }

  /** The group after whose members, all successful, the active nodes of `done + new` have run. */
  ghost predicate AllSucceed(g: Graph, s: StatusMap, ran: set<Id>, r: GroupOutcome) {
    !r.error && r.statuses == After(g, g.Keys, s, ran) && !SomeFailed(r.results)
  }

  lemma PrependSucceeds(g: Graph, ok: set<Id>, s: StatusMap, ran: set<Id>, batch: seq<Id>, rest: GroupOutcome)
    requires AllSucceed(g, s, ran, rest) && Elems(batch) <= ok
    ensures AllSucceed(g, s, ran, Prepend(Results(ok, batch), rest))
  {
    var r := Results(ok, batch) + rest.results;
    forall j | 0 <= j < |r| ensures !r[j].status.Failed? {
      if j < |batch| { assert batch[j] in Elems(batch); } else { assert r[j] == rest.results[j - |batch|]; }
    }
  }

  /** What a list adds to `done`, its first member taken by itself. */
  lemma ListedCons(done: set<Id>, ids: seq<Id>, active: set<Id>)
    requires ids != []
    ensures done + Elems(ids) * active ==
            (if ids[0] in active then done + {ids[0]} else done) + Elems(ids[1..]) * active
  {
    assert ids == [ids[0]] + ids[1..];
    assert Elems(ids) == {ids[0]} + Elems(ids[1..]);
  }

  lemma SuccessTurn(g: Graph, s: StatusMap, done: set<Id>, x: Id)
    requires Closed(g) && s.Keys == g.Keys && done <= ActiveIds(s)
    ensures var u := After(g, g.Keys, s, done);
            && u.Keys == g.Keys && (Stale(u, x) <==> Stale(s, x)) && (CanBegin(g, u, x) <==> x in ActiveIds(s) - done)
  {
    SuccessCompose(g, s, done, {});
    StaleStays(g, g.Keys, s, done, x);
    assert CanBegin(g, After(g, g.Keys, s, done), x) <==> x in ActiveIds(After(g, g.Keys, s, done));
  }

  lemma {:induction false} SequentialAllSucceed(g: Graph, ok: set<Id>, failFast: bool, s: StatusMap, done: set<Id>,
                                                ids: seq<Id>)
    requires Closed(g) && s.Keys == g.Keys && done <= ActiveIds(s) && forall x :: x in ids ==> !Stale(s, x)
    requires Elems(ids) * ActiveIds(s) <= ok
    ensures AllSucceed(g, s, done + Elems(ids) * ActiveIds(s),
                       SequentialGroup(g, ok, failFast, After(g, g.Keys, s, done), ids))
    decreases |ids|
  {
    if ids == [] {
      assert done + Elems(ids) * ActiveIds(s) == done;
    } else {
      var x, rest, u := ids[0], ids[1..], After(g, g.Keys, s, done);
      var all := done + Elems(ids) * ActiveIds(s);
      ListedCons(done, ids, ActiveIds(s));
      SuccessTurn(g, s, done, x);
      assert forall y :: y in rest ==> y in ids;
      if CanBegin(g, u, x) {
        assert x in Elems(ids);
        SequentialStep(g, ok, failFast, u, ids);
        SuccessSame(g, ok, u, {x});
        SuccessCompose(g, s, done, {x});
        SequentialAllSucceed(g, ok, failFast, s, done + {x}, rest);
        OneResult(ok, x);
        PrependSucceeds(g, ok, s, all, [x], SequentialGroup(g, ok, failFast, After(g, g.Keys, s, done + {x}), rest));
      } else {
        SequentialPass(g, ok, failFast, u, ids);
        SequentialAllSucceed(g, ok, failFast, s, done, rest);
        assert done == if x in ActiveIds(s) then done + {x} else done;
      }
    }
  }

  lemma {:induction false} ChunksAllSucceed(g: Graph, ok: set<Id>, failFast: bool, s: StatusMap, done: set<Id>,
                                            ids: seq<Id>, c: nat)
    requires Closed(g) && s.Keys == g.Keys && done <= ActiveIds(s) && c > 0
    requires NoDup(ids) && Elems(ids) <= ActiveIds(s) - done && Elems(ids) <= ok
    ensures AllSucceed(g, s, done + Elems(ids), ParallelChunks(g, ok, failFast, After(g, g.Keys, s, done), ids, c))
    decreases |ids|
  {
    var u := After(g, g.Keys, s, done);
    if ids == [] {
      assert done + Elems(ids) == done;
    } else {
      var batch, rest := Head(ids, c), Tail(ids, c);
      HeadTail(ids, c);
      NoDupSplit(ids, c);
      assert Elems(ids) == Elems(batch) + Elems(rest);
      SuccessCompose(g, s, done, Elems(batch));
      forall x | x in batch ensures CanBegin(g, u, x) {
        assert x in Elems(batch) && x in ActiveIds(u);
      }
      ChunkTurn(g, ok, failFast, u, ids, c);
      SuccessSame(g, ok, u, Elems(batch));
      ChunksAllSucceed(g, ok, failFast, s, done + Elems(batch), rest, c);
      assert done + Elems(batch) + Elems(rest) == done + Elems(ids);
      PrependSucceeds(g, ok, s, done + Elems(ids), batch,
                      ParallelChunks(g, ok, failFast, After(g, g.Keys, s, done + Elems(batch)), rest, c));
    }
  }

  lemma GroupAllSucceed(g: Graph, ok: set<Id>, failFast: bool, s: StatusMap, done: set<Id>, ids: seq<Id>, c: nat)
    requires Closed(g) && s.Keys == g.Keys && done <= ActiveIds(s) && GroupSound(g, failFast, s, done, ids, c)
    requires Elems(ids) * ActiveIds(s) <= ok
    ensures AllSucceed(g, s, done + Elems(ids) * ActiveIds(s),
                       GroupRun(g, ok, failFast, After(g, g.Keys, s, done), ids, c))
  {
    if c <= 1 {
      SequentialAllSucceed(g, ok, failFast, s, done, ids);
    } else {
      var l := Keep(ids, ActiveIds(s) - done);
      SuccessCompose(g, s, done, {});
      assert Elems(l) == Elems(ids) * (ActiveIds(s) - done);
      assert done + Elems(l) == done + Elems(ids) * ActiveIds(s);
      ChunksAllSucceed(g, ok, failFast, s, done, l, c);
    }
  }

  /** If a dependency in an earlier chunk of the same group fails, the run aborts. */
  lemma {:induction false} LateDependent(g: Graph, s: StatusMap, done: set<Id>, ids: seq<Id>, c: nat, y: Id, d: Id)
    requires Closed(g) && s.Keys == g.Keys && done <= ActiveIds(s) && c > 0
    requires NoDup(ids) && Elems(ids) <= ActiveIds(s) - done && ChunksArranged(g, s, done, ids, c)
    requires y in ids && y in g && d in g[y] && !DepArranged(s, done, d)
    ensures ParallelChunks(g, g.Keys - {d}, false, After(g, g.Keys, s, done), ids, c).error
    decreases |ids|
  {
    var ok, u := g.Keys - {d}, After(g, g.Keys, s, done);
    var batch, rest := Head(ids, c), Tail(ids, c);
    HeadTail(ids, c);
    NoDupSplit(ids, c);
    assert Elems(ids) == Elems(batch) + Elems(rest);
    assert !DepsArranged(g, s, done, y);
    assert y !in batch;
    SuccessCompose(g, s, done, Elems(batch));
    forall x | x in batch ensures CanBegin(g, u, x) {
      assert x in Elems(batch) && x in ActiveIds(u);
    }
    ChunkTurn(g, ok, false, u, ids, c);
    ReachesEdge(g, y, d);
    if d in batch {
      DependentFails(g, ok, u, batch, rest, c, d, y);
    } else {
      assert d !in Elems(batch) && Elems(batch) <= ok;
      SuccessSame(g, ok, u, Elems(batch));
      LateDependent(g, s, done + Elems(batch), rest, c, y, d);
    }
  }

  /** The run of the group is fine under every outcome in which the nodes of `done` succeed. */
  ghost predicate GroupFine(g: Graph, ok: set<Id>, failFast: bool, u: StatusMap, ids: seq<Id>, c: nat) {
    GroupReady(g, ok, failFast, u, ids, c) && !GroupRun(g, ok, failFast, u, ids, c).error
  }

  lemma GroupNecessary(g: Graph, failFast: bool, s: StatusMap, done: set<Id>, ids: seq<Id>, c: nat)
    requires Closed(g) && s.Keys == g.Keys && done <= ActiveIds(s)
    requires forall ok :: done <= ok ==> GroupFine(g, ok, failFast, After(g, g.Keys, s, done), ids, c)
    ensures GroupSound(g, failFast, s, done, ids, c)
  {
    var u := After(g, g.Keys, s, done);
    assert done <= g.Keys && GroupFine(g, g.Keys, failFast, u, ids, c);
    SuccessCompose(g, s, done, {});
    if c <= 1 {
      forall x | x in ids ensures !Stale(s, x) {
        StaleStays(g, g.Keys, s, done, x);
        if Stale(u, x) { StaleAborts(g, g.Keys, failFast, u, ids, x); }
      }
      SequentialNecessary(g, failFast, s, done, ids);
    } else {
      var l := Keep(ids, ActiveIds(s) - done);
      StillActiveAll(g, u, ids);
      if !NoDup(l) { RepeatsAbort(g, failFast, u, l, c); }
      ChunksNecessary(g, failFast, s, done, l, c);
      if !failFast {
        forall y, d | y in l && y in g && d in g[y] ensures DepArranged(s, done, d) {
          if !DepArranged(s, done, d) {
            assert done <= g.Keys - {d} && GroupFine(g, g.Keys - {d}, failFast, u, ids, c);
            LateDependent(g, s, done, l, c, y, d);
          }
        }
      }
    }
  }

  /** Fine under every outcome in which the nodes of `done` succeed. */
  ghost predicate FineFrom(o: Setting, s: StatusMap, done: set<Id>, names: seq<string>, completed: set<string>)
    requires Elems(names) <= Names(o.groups)
  {
    forall ok :: done <= ok ==> RunFine(o.(ok := ok), After(o.g, o.g.Keys, s, done), names, completed)
  }

  /** The group that is up. */
  ghost predicate Turns(o: Setting, names: seq<string>, completed: set<string>)
    requires Elems(names) <= Names(o.groups)
  {
    && names != [] && (o.target.None? || names[0] == o.target.value) && names[0] in Elems(names)
    && FirstMissing(GroupNamed(o.groups, names[0]).prerequisites, completed).None?
  }

  lemma FineGroup(o: Setting, u: StatusMap, names: seq<string>, completed: set<string>)
    requires Elems(names) <= Names(o.groups) && Turns(o, names, completed) && RunFine(o, u, names, completed)
    ensures var group := GroupNamed(o.groups, names[0]);
            var c := Concurrency(group, o.limit);
            && GroupFine(o.g, o.ok, o.failFast, u, group.nodes, c)
            && names == [names[0]] + names[1..]
            && var r := GroupRun(o.g, o.ok, o.failFast, u, group.nodes, c);
               !SomeFailed(r.results) ==> RunFine(o, r.statuses, names[1..], completed + {names[0]})
  {
    assert names == [names[0]] + names[1..];
  }

  lemma {:induction false} RunNecessary(o: Setting, s: StatusMap, done: set<Id>, names: seq<string>,
                                        completed: set<string>)
    requires Closed(o.g) && s.Keys == o.g.Keys && done <= ActiveIds(s)
    requires Elems(names) <= Names(o.groups) && FineFrom(o, s, done, names, completed)
    ensures RunSound(o, s, done, names, completed)
    decreases |names|
  {
    if names != [] {
      var u := After(o.g, o.g.Keys, s, done);
      assert names == [names[0]] + names[1..];
      assert names[0] in Elems(names);
      if o.target.Some? && names[0] != o.target.value {
        forall ok | done <= ok ensures RunFine(o.(ok := ok), u, names[1..], completed) {
          assert RunFine(o.(ok := ok), u, names, completed);
        }
        RunNecessary(o, s, done, names[1..], completed);
      } else if Turns(o, names, completed) {
        var group := GroupNamed(o.groups, names[0]);
        var c := Concurrency(group, o.limit);
        forall ok | done <= ok ensures GroupFine(o.g, ok, o.failFast, u, group.nodes, c) {
          FineGroup(o.(ok := ok), u, names, completed);
        }
        GroupNecessary(o.g, o.failFast, s, done, group.nodes, c);
        var more := done + Elems(group.nodes) * ActiveIds(s);
        forall ok | more <= ok
          ensures RunFine(o.(ok := ok), After(o.g, o.g.Keys, s, more), names[1..], completed + {names[0]})
        {
          FineGroup(o.(ok := ok), u, names, completed);
          GroupAllSucceed(o.g, ok, o.failFast, s, done, group.nodes, c);
        }
        RunNecessary(o, s, more, names[1..], completed + {names[0]});
      }
    }
  }

  /** From a safe state, an orchestrated run dispatches every node after its dependencies and never
      hits an invalid transition, under every outcome, exactly when the groups arrange it. */
  lemma RunSoundExact(o: Setting, s: StatusMap, names: seq<string>)
    requires Safe(o.g, s) && Elems(names) <= Names(o.groups)
    ensures (forall ok :: RunFine(o.(ok := ok), s, names, {})) <==> RunSound(o, s, {}, names, {})
  {
    AfterNone(o.g, o.g.Keys, s);
    ProgressedStart(o.g, s);
    if RunSound(o, s, {}, names, {}) {
      forall ok ensures RunFine(o.(ok := ok), s, names, {}) {
        SoundAnyOutcome(o, ok, s, {}, names, {});
        RunSufficient(o.(ok := ok), s, {}, s, names, {});
      }
    }
    if forall ok :: RunFine(o.(ok := ok), s, names, {}) {
      RunNecessary(o, s, {}, names, {});
    }
  }

  lemma {:induction false} SoundAnyOutcome(o: Setting, ok: set<Id>, s: StatusMap, done: set<Id>, names: seq<string>,
                                           completed: set<string>)
    requires Elems(names) <= Names(o.groups)
    ensures RunSound(o.(ok := ok), s, done, names, completed) == RunSound(o, s, done, names, completed)
    decreases |names|
  {
    if names != [] {
      assert names == [names[0]] + names[1..];
      assert names[0] in Elems(names);
      SoundAnyOutcome(o, ok, s, done, names[1..], completed);
      SoundAnyOutcome(o, ok, s, done + Elems(GroupNamed(o.groups, names[0]).nodes) * ActiveIds(s), names[1..],
                      completed + {names[0]});
    }
  }
}
