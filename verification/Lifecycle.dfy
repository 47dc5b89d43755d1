/** The seven-status life of a node, and what dispatching a batch of nodes
    does to the status map. Everything here is about values; the tracker and
    the scheduler are proved against it. */
module Lifecycle {
  import opened Ordering
  import opened Reachability

  datatype Status = Pending | Ready | InProgress | Completed | Failed | Blocked | Skipped

  type StatusMap = map<Id, Status>

  predicate ValidTransition(from: Status, to: Status) {
    match (from, to)
    case (Pending, Ready) => true
    case (Pending, Blocked) => true
    case (Pending, Skipped) => true
    case (Ready, InProgress) => true
    case (InProgress, Completed) => true
    case (InProgress, Failed) => true
    case (Failed, Ready) => true
    case (Blocked, Ready) => true
    case _ => false
  }

  /** The table, read by where a transition leads: work starts from Ready only and ends in an
      outcome, Blocked and Skipped come from Pending, nothing leaves Completed or Skipped, and
      Ready is for what has not started, has failed or was blocked. */
  lemma TableExact(from: Status, to: Status)
    ensures to.Pending? ==> !ValidTransition(from, to)
    ensures to.Ready? ==> (ValidTransition(from, to) <==> from in {Pending, Failed, Blocked})
    ensures to.InProgress? ==> (ValidTransition(from, to) <==> from == Ready)
    ensures to in {Completed, Failed} ==> (ValidTransition(from, to) <==> from == InProgress)
    ensures to in {Blocked, Skipped} ==> (ValidTransition(from, to) <==> from == Pending)
  {
  }

  predicate Active(st: Status) {
    st.Pending? || st.Ready?
  }

  predicate Done(st: Status) {
    st.Completed? || st.Skipped?
  }

  /** Every dependency is Completed or Skipped; an unknown one is not satisfied. */
  predicate DepsDone(g: Graph, s: StatusMap, x: Id) {
    x in g ==> forall d :: d in g[x] ==> d in s && Done(s[d])
  }

  function Eligible(g: Graph, s: StatusMap): set<Id> {
    set x | x in s && (s[x].Ready? || (s[x].Pending? && DepsDone(g, s, x)))
  }

  function ActiveIds(s: StatusMap): set<Id> {
    set x | x in s && Active(s[x])
  }

  // ----- one dispatch, as the code performs it -----

  datatype NodeResult = NodeResult(id: Id, status: Status)

  datatype Begun = Begun(statuses: StatusMap, error: bool)

  datatype Dispatched = Dispatched(statuses: StatusMap, results: seq<NodeResult>, error: bool)

  /** Can `x` be promoted to Ready if need be and then moved to InProgress? */
  predicate CanBegin(g: Graph, s: StatusMap, x: Id) {
    x in g && x in s && Active(s[x])
  }

  /** Moves the batch to InProgress one by one, stopping at the first that cannot begin. */
  function BeginAll(g: Graph, s: StatusMap, batch: seq<Id>): (r: Begun)
    ensures r.statuses.Keys == s.Keys
  {
    if batch == [] then Begun(s, false)
    else if !CanBegin(g, s, batch[0]) then Begun(s, true)
    else BeginAll(g, s[batch[0] := InProgress], batch[1..])
  }

  ghost function Propagate(g: Graph, s: StatusMap, x: Id): StatusMap {
    map y | y in s :: if y in TransDependents(g, x) && Active(s[y]) then Blocked else s[y]
  }

  function Verdict(ok: set<Id>, x: Id): Status {
    if x in ok then Completed else Failed
  }

  /** The outcome of `x` is written; a failure blocks the active nodes that depend on `x`. */
  ghost function Finish(g: Graph, ok: set<Id>, s: StatusMap, x: Id): StatusMap {
    var t := s[x := Verdict(ok, x)];
    if x in ok then t else Propagate(g, t, x)
  }

  ghost function FinishAll(g: Graph, ok: set<Id>, s: StatusMap, batch: seq<Id>): StatusMap
    decreases |batch|
  {
    if batch == [] then s else FinishAll(g, ok, Finish(g, ok, s, batch[0]), batch[1..])
  }

  function Results(ok: set<Id>, batch: seq<Id>): seq<NodeResult> {
    seq(|batch|, i requires 0 <= i < |batch| => NodeResult(batch[i], Verdict(ok, batch[i])))
  }

  ghost function Dispatch(g: Graph, ok: set<Id>, s: StatusMap, batch: seq<Id>): Dispatched {
    var b := BeginAll(g, s, batch);
    if b.error then Dispatched(b.statuses, [], true)
    else Dispatched(FinishAll(g, ok, b.statuses, batch), Results(ok, batch), false)
  }

  // ----- one dispatch, in closed form -----

  ghost predicate HitBy(g: Graph, ok: set<Id>, batch: set<Id>, y: Id) {
    exists x :: x in batch && x !in ok && Reaches(g, y, x)
  }

  /** The status map after a set of active nodes ran together. */
  ghost function After(g: Graph, ok: set<Id>, s: StatusMap, batch: set<Id>): StatusMap {
    map y | y in s ::
      if y in batch then Verdict(ok, y)
      else if Active(s[y]) && HitBy(g, ok, batch, y) then Blocked
      else s[y]
  }

  function Started(s: StatusMap, batch: set<Id>): StatusMap {
    map y | y in s :: if y in batch then InProgress else s[y]
  }

  ghost predicate Dispatchable(g: Graph, s: StatusMap, batch: seq<Id>) {
    NoDup(batch) && forall x :: x in batch ==> CanBegin(g, s, x)
  }

  /** A batch begins without an error exactly when its members are distinct and all active. */
  lemma {:induction false} BeginAllExact(g: Graph, s: StatusMap, batch: seq<Id>)
    ensures !BeginAll(g, s, batch).error <==> Dispatchable(g, s, batch)
    ensures Dispatchable(g, s, batch) ==> BeginAll(g, s, batch).statuses == Started(s, Elems(batch))
  {
    if batch != [] && CanBegin(g, s, batch[0]) {
      var x, rest, t := batch[0], batch[1..], s[batch[0] := InProgress];
      assert batch == [x] + rest;
      BeginAllExact(g, t, rest);
      if Dispatchable(g, s, batch) {
        forall y | y in rest ensures y != x && CanBegin(g, t, y) {
          assert y in batch;
        }
        assert Dispatchable(g, t, rest);
      }
      if Dispatchable(g, t, rest) {
        assert !CanBegin(g, t, x);
        assert x !in rest;
        forall y | y in batch ensures CanBegin(g, s, y) {
          if y != x { assert y in rest; }
        }
        assert Started(t, Elems(rest)) == Started(s, Elems(batch));
      }
    }
  }

  /** A batch that cannot begin stops at the first member that is inactive or repeated; the ones
      before it stay InProgress. */
  lemma {:induction false} BeginAllStops(g: Graph, s: StatusMap, batch: seq<Id>) returns (k: nat)
    requires !Dispatchable(g, s, batch)
    ensures k < |batch| && Dispatchable(g, s, batch[..k]) && !Dispatchable(g, s, batch[..k + 1])
    ensures BeginAll(g, s, batch) == Begun(Started(s, Elems(batch[..k])), true)
  {
    if !CanBegin(g, s, batch[0]) {
      k := 0;
      assert batch[..1][0] == batch[0];
      assert Started(s, {}) == s;
    } else {
      var t := s[batch[0] := InProgress];
      BeginAllExact(g, s, batch);
      BeginAllExact(g, t, batch[1..]);
      var j := BeginAllStops(g, t, batch[1..]);
      k := j + 1;
      assert batch[..k][1..] == batch[1..][..j] && batch[..k + 1][1..] == batch[1..][..k];
      BeginAllExact(g, s, batch[..k]);
      BeginAllExact(g, t, batch[1..][..j]);
      BeginAllExact(g, s, batch[..k + 1]);
      BeginAllExact(g, t, batch[1..][..k]);
    }
  }

  lemma {:induction false} FinishAllIsAfter(g: Graph, ok: set<Id>, s: StatusMap, batch: seq<Id>)
    requires Closed(g) && s.Keys == g.Keys && NoDup(batch)
    requires forall x :: x in batch ==> x in s && s[x].InProgress?
    ensures FinishAll(g, ok, s, batch) == After(g, ok, s, Elems(batch))
  {
    if batch == [] {
      assert After(g, ok, s, {}) == s;
    } else {
      var x, rest := batch[0], batch[1..];
      assert batch == [x] + rest;
      var t := Finish(g, ok, s, x);
      assert t.Keys == s.Keys;
      FinishAllIsAfter(g, ok, t, rest);
      assert Elems(batch) == {x} + Elems(rest);
      AfterFinish(g, ok, s, x, Elems(rest));
    }
  }

  lemma AfterFinish(g: Graph, ok: set<Id>, s: StatusMap, x: Id, rest: set<Id>)
    requires Closed(g) && s.Keys == g.Keys && x in s && s[x].InProgress? && x !in rest
    ensures After(g, ok, Finish(g, ok, s, x), rest) == After(g, ok, s, {x} + rest)
  {
    var t := Finish(g, ok, s, x);
    forall y | y in s ensures After(g, ok, t, rest)[y] == After(g, ok, s, {x} + rest)[y] {
      if y != x && y !in rest && Active(s[y]) {
        assert HitBy(g, ok, {x} + rest, y) <==> (x !in ok && Reaches(g, y, x)) || HitBy(g, ok, rest, y);
      }
    }
  }

  /** What a dispatch does: it fails on a repeated or inactive member, and otherwise its
      effect depends on which nodes are in the batch and not on their order. */
  lemma DispatchExact(g: Graph, ok: set<Id>, s: StatusMap, batch: seq<Id>)
    requires Closed(g) && s.Keys == g.Keys
    ensures Dispatch(g, ok, s, batch).error <==> !Dispatchable(g, s, batch)
    ensures Dispatchable(g, s, batch) ==>
      && Dispatch(g, ok, s, batch).statuses == After(g, ok, s, Elems(batch))
      && Dispatch(g, ok, s, batch).results == Results(ok, batch)
  {
    BeginAllExact(g, s, batch);
    if Dispatchable(g, s, batch) {
      var t := Started(s, Elems(batch));
      FinishAllIsAfter(g, ok, t, batch);
      AfterStarted(g, ok, s, Elems(batch));
    }
  }

  lemma AfterStarted(g: Graph, ok: set<Id>, s: StatusMap, batch: set<Id>)
    ensures After(g, ok, Started(s, batch), batch) == After(g, ok, s, batch)
  {
  }

  // ----- invariants -----

  /** Left InProgress by an interrupted run. */
  predicate Stale(s: StatusMap, x: Id) {
    x in s && s[x].InProgress?
  }

  ghost predicate NoneInProgress(s: StatusMap) {
    forall x :: x in s ==> !s[x].InProgress?
  }

  ghost predicate Settled(g: Graph, s: StatusMap, x: Id)
    requires x in g
  {
    forall d :: d in g[x] ==> d in s && s[d].Completed?
  }

  /** No node past Pending, other than a Blocked one, has an unfinished dependency. */
  ghost predicate Safe(g: Graph, s: StatusMap) {
    && Closed(g)
    && s.Keys == g.Keys
    && forall x :: x in s ==> !s[x].Skipped? && (s[x].Pending? || s[x].Blocked? || Settled(g, s, x))
  }

  /** What holds between commands: the safety invariant, and no node left InProgress. */
  ghost predicate AtRest(g: Graph, s: StatusMap) {
    Safe(g, s) && NoneInProgress(s)
  }

  /** `x` cannot succeed: something it depends on does not. */
  ghost predicate Doomed(g: Graph, ok: set<Id>, x: Id) {
    exists y :: y !in ok && Reaches(g, x, y)
  }

  /** What holds between the dispatches of one run with outcomes `ok`. */
  ghost predicate RunInv(g: Graph, ok: set<Id>, s: StatusMap) {
    && Safe(g, s)
    && forall x :: x in s ==> Explained(g, ok, s, x)
  }

  ghost predicate Explained(g: Graph, ok: set<Id>, s: StatusMap, x: Id)
    requires x in s
  {
    match s[x]
    case Completed => x in ok
    case Failed => x !in ok
    case Blocked => exists y :: y in s && s[y].Failed? && Reaches(g, x, y)
    case InProgress => false
    case Skipped => false
    case _ => forall y :: y in s && Reaches(g, x, y) ==> !s[y].Failed?
  }

  lemma {:induction false} SettledPath(g: Graph, s: StatusMap, x: Id, y: Id, n: nat)
    requires Safe(g, s) && x in g && Settled(g, s, x) && ReachesIn(g, x, y, n)
    ensures y in s && s[y].Completed?
    decreases n
  {
    if n > 0 {
      var c :| c in g[x] && ReachesIn(g, c, y, n - 1);
      SettledPath(g, s, c, y, n - 1);
    }
  }

  /** In a safe state everything below a settled node is Completed. */
  lemma SettledDown(g: Graph, s: StatusMap, x: Id, y: Id)
    requires Safe(g, s) && x in g && Settled(g, s, x) && Reaches(g, x, y)
    ensures y in s && s[y].Completed?
  {
    var n: nat :| ReachesIn(g, x, y, n);
    SettledPath(g, s, x, y, n);
  }

  lemma EligibleSettled(g: Graph, s: StatusMap, x: Id)
    requires Safe(g, s) && x in Eligible(g, s)
    ensures x in g && Active(s[x]) && Settled(g, s, x)
  {
  }

  lemma AfterSafe(g: Graph, ok: set<Id>, s: StatusMap, batch: set<Id>)
    requires Safe(g, s) && batch <= Eligible(g, s)
    ensures Safe(g, After(g, ok, s, batch))
  {
    var t := After(g, ok, s, batch);
    forall x | x in t ensures !t[x].Skipped? && (t[x].Pending? || t[x].Blocked? || Settled(g, t, x)) {
      if x in batch { EligibleSettled(g, s, x); }
      if Settled(g, s, x) {
        forall d | d in g[x] ensures t[d].Completed? {
          assert d !in batch by { assert s[d].Completed?; }
        }
      }
    }
  }

  lemma AfterRunInv(g: Graph, ok: set<Id>, s: StatusMap, batch: set<Id>)
    requires RunInv(g, ok, s) && batch <= Eligible(g, s)
    ensures RunInv(g, ok, After(g, ok, s, batch))
  {
    var t := After(g, ok, s, batch);
    AfterSafe(g, ok, s, batch);
    forall x | x in t ensures Explained(g, ok, t, x) {
      assert Explained(g, ok, s, x);
    }
  }

  /** A dispatch of active nodes removes at least them from the active nodes and adds none. */
  lemma AfterShrinks(g: Graph, ok: set<Id>, s: StatusMap, batch: set<Id>)
    requires batch != {} && batch <= ActiveIds(s)
    ensures ActiveIds(After(g, ok, s, batch)) < ActiveIds(s)
    ensures |ActiveIds(After(g, ok, s, batch))| < |ActiveIds(s)|
  {
    var t := After(g, ok, s, batch);
    var x :| x in batch;
    assert x in ActiveIds(s) && x !in ActiveIds(t);
    SmallerSet(ActiveIds(t), ActiveIds(s));
  }

  // ----- where every schedule ends -----

  /** Blocked if something upstream fails, and otherwise the node's own outcome. */
  ghost function FinalMap(g: Graph, ok: set<Id>): StatusMap {
    map x | x in g :: if Doomed(g, ok, x) then Blocked else Verdict(ok, x)
  }

  lemma {:induction false} NoneActive(g: Graph, order: seq<Id>, ok: set<Id>, s: StatusMap, i: nat)
    requires IsTopologicalOrder(g, order) && RunInv(g, ok, s) && Eligible(g, s) == {}
    requires i <= |order|
    ensures forall x :: x in order[..i] ==> x in s && !Active(s[x])
  {
    if i > 0 {
      NoneActive(g, order, ok, s, i - 1);
      var x := order[i - 1];
      assert order[..i] == order[..i - 1] + [x];
      assert x in Elems(order) && DepsBefore(g, order, i - 1);
      if Active(s[x]) {
        assert x !in Eligible(g, s);
        var d :| d in g[x] && !(d in s && Done(s[d]));
        assert d in order[..i - 1];
        assert Explained(g, ok, s, d) && Explained(g, ok, s, x);
        ReachesEdge(g, x, d);
        var f :| f in s && s[f].Failed? && Reaches(g, d, f);
        ReachesCons(g, x, d, f);
        assert false;
      }
    }
  }

  /** A run that can dispatch nothing more has reached the one final map. */
  lemma QuiescentIsFinal(g: Graph, order: seq<Id>, ok: set<Id>, s: StatusMap)
    requires IsTopologicalOrder(g, order) && RunInv(g, ok, s) && Eligible(g, s) == {}
    ensures s == FinalMap(g, ok)
  {
    NoneActive(g, order, ok, s, |order|);
    assert order[..|order|] == order;
    forall x | x in g ensures s[x] == FinalMap(g, ok)[x] {
      assert x in Elems(order) && Explained(g, ok, s, x);
      assert !Active(s[x]);
      if s[x].Blocked? {
        var f :| f in s && s[f].Failed? && Reaches(g, x, f);
        assert Explained(g, ok, s, f);
        assert Doomed(g, ok, x);
      } else {
        forall y | Reaches(g, x, y) ensures y in ok {
          SettledDown(g, s, x, y);
          assert Explained(g, ok, s, y);
        }
      }
    }
  }
}
