/** The bench suite as interleaved steps: one thread per case, gated by a
    semaphore made of a counter, a mutex and a condition variable. */
module Suite {
  import opened Ordering
  import opened Options

  datatype Bucket = Pass | NormalizeFixable | SchemaOnly | ValidateOnly | Fail | Error

  datatype CaseResult = CaseResult(caseId: string, bucket: Bucket)

  predicate SchemaOk(b: Bucket) {
    b.Pass? || b.NormalizeFixable? || b.SchemaOnly?
  }

  predicate ValidateOk(b: Bucket) {
    b.Pass? || b.NormalizeFixable? || b.ValidateOnly?
  }

  // Where a thread is. From Running to Pushed it holds a permit; Notifying has returned the
  // permit, and released the mutex, but has not yet signalled the condition variable.
  datatype Pc =
    | Start | Sleeping | Woken | Running | Evaluated | SchemaTallied | ValidateTallied | Pushed | Notifying | Done

  datatype State = State(pcs: seq<Pc>, count: nat, schemaPass: nat, validatePass: nat, results: seq<CaseResult>)

  datatype Step =
    | Acquire(t: nat)
    | Evaluate(t: nat)
    | TallySchema(t: nat)
    | TallyValidate(t: nat)
    | Push(t: nat)
    | Release(t: nat)
    | Notify(t: nat, sleeper: Option<nat>)
    | SpuriousWakeup(t: nat)

  function Init(n: nat, cases: nat): State {
    State(seq(cases, _ => Start), n, 0, 0, [])
  }

  predicate At(s: State, t: nat, pc: Pc) {
    t < |s.pcs| && s.pcs[t] == pc
  }

  ghost predicate SomeoneSleeps(s: State) {
    exists t :: 0 <= t < |s.pcs| && s.pcs[t].Sleeping?
  }

  ghost predicate Enabled(s: State, step: Step) {
    match step
    case Acquire(t) => At(s, t, Start) || At(s, t, Woken)
    case Evaluate(t) => At(s, t, Running)
    case TallySchema(t) => At(s, t, Evaluated)
    case TallyValidate(t) => At(s, t, SchemaTallied)
    case Push(t) => At(s, t, ValidateTallied)
    case Release(t) => At(s, t, Pushed)
    case Notify(t, sleeper) =>
      At(s, t, Notifying) && (if sleeper.Some? then At(s, sleeper.value, Sleeping) else !SomeoneSleeps(s))
    case SpuriousWakeup(t) => At(s, t, Sleeping)
  }

  function Move(s: State, t: nat, pc: Pc): State
    requires t < |s.pcs|
  {
    s.(pcs := s.pcs[t := pc])
  }

  /** `verdicts[t]` is the result of case `t`; the schedule does not influence it. */
  ghost function Next(verdicts: seq<CaseResult>, s: State, step: Step): State
    requires |s.pcs| == |verdicts| && Enabled(s, step)
  {
    match step
    case Acquire(t) => if s.count == 0 then Move(s, t, Sleeping) else Move(s, t, Running).(count := s.count - 1)
    case Evaluate(t) => Move(s, t, Evaluated)
    case TallySchema(t) =>
      Move(s, t, SchemaTallied).(schemaPass := s.schemaPass + if SchemaOk(verdicts[t].bucket) then 1 else 0)
    case TallyValidate(t) =>
      Move(s, t, ValidateTallied).(validatePass := s.validatePass + if ValidateOk(verdicts[t].bucket) then 1 else 0)
    case Push(t) => Move(s, t, Pushed).(results := s.results + [verdicts[t]])
    case Release(t) => Move(s, t, Notifying).(count := s.count + 1)
    case Notify(t, sleeper) =>
      var done := Move(s, t, Done);
      if sleeper.Some? then Move(done, sleeper.value, Woken) else done
    case SpuriousWakeup(t) => Move(s, t, Woken)
  }

  // ----- sums over threads -----

  type Weight = (nat, Pc) -> int

  ghost function Sum(w: Weight, pcs: seq<Pc>): int {
    if pcs == [] then 0 else Sum(w, pcs[..|pcs| - 1]) + w(|pcs| - 1, pcs[|pcs| - 1])
  }

  lemma {:induction false} SumUpdate(w: Weight, pcs: seq<Pc>, t: nat, pc: Pc)
    requires t < |pcs|
    ensures Sum(w, pcs[t := pc]) == Sum(w, pcs) - w(t, pcs[t]) + w(t, pc)
  {
    var k := |pcs| - 1;
    if t < k {
      SumUpdate(w, pcs[..k], t, pc);
      assert pcs[t := pc][..k] == pcs[..k][t := pc];
    } else {
      assert pcs[t := pc][..k] == pcs[..k];
    }
  }

  predicate Holds(pc: Pc) {
    pc.Running? || pc.Evaluated? || pc.SchemaTallied? || pc.ValidateTallied? || pc.Pushed?
  }

  predicate PastSchema(pc: Pc) {
    pc.SchemaTallied? || PastValidate(pc)
  }

  predicate PastValidate(pc: Pc) {
    pc.ValidateTallied? || PastPush(pc)
  }

  predicate PastPush(pc: Pc) {
    pc.Pushed? || pc.Notifying? || pc.Done?
  }

  ghost function HolderWeight(): Weight {
    (t: nat, pc: Pc) => if Holds(pc) then 1 else 0
  }

  // Wakeups that are still to take effect: a signal not yet given, or a woken thread.
  ghost function PendingWeight(): Weight {
    (t: nat, pc: Pc) => if pc.Notifying? || pc.Woken? then 1 else 0
  }

  ghost function SchemaWeight(verdicts: seq<CaseResult>): Weight {
    (t: nat, pc: Pc) => if t < |verdicts| && PastSchema(pc) && SchemaOk(verdicts[t].bucket) then 1 else 0
  }

  ghost function ValidateWeight(verdicts: seq<CaseResult>): Weight {
    (t: nat, pc: Pc) => if t < |verdicts| && PastValidate(pc) && ValidateOk(verdicts[t].bucket) then 1 else 0
  }

  ghost function Holders(s: State): int {
    Sum(HolderWeight(), s.pcs)
  }

  ghost function PendingWakeups(s: State): int {
    Sum(PendingWeight(), s.pcs)
  }

  /** The verdicts of the threads that have pushed. */
  ghost function PushedBag(verdicts: seq<CaseResult>, pcs: seq<Pc>): multiset<CaseResult>
    requires |pcs| <= |verdicts|
  {
    if pcs == [] then multiset{}
    else
      var k := |pcs| - 1;
      PushedBag(verdicts, pcs[..k]) + if PastPush(pcs[k]) then multiset{verdicts[k]} else multiset{}
  }

  lemma {:induction false} PushedUpdate(verdicts: seq<CaseResult>, pcs: seq<Pc>, t: nat, pc: Pc)
    requires t < |pcs| <= |verdicts| && (PastPush(pcs[t]) ==> PastPush(pc))
    ensures PushedBag(verdicts, pcs[t := pc]) ==
            PushedBag(verdicts, pcs) + if PastPush(pc) && !PastPush(pcs[t]) then multiset{verdicts[t]} else multiset{}
  {
    var k := |pcs| - 1;
    if t < k {
      PushedUpdate(verdicts, pcs[..k], t, pc);
      assert pcs[t := pc][..k] == pcs[..k][t := pc];
    } else {
      assert pcs[t := pc][..k] == pcs[..k];
    }
  }

  // ----- the invariant -----

  /** Permits are conserved, and a sleeping thread never misses a free permit: there are at
      least as many wakeups under way as permits free. */
  ghost predicate Permits(n: nat, s: State) {
    && s.count + Holders(s) == n
    && (SomeoneSleeps(s) ==> s.count <= PendingWakeups(s))
  }

  ghost predicate Tallies(verdicts: seq<CaseResult>, s: State) {
    && |s.pcs| == |verdicts|
    && s.schemaPass == Sum(SchemaWeight(verdicts), s.pcs)
    && s.validatePass == Sum(ValidateWeight(verdicts), s.pcs)
    && multiset(s.results) == PushedBag(verdicts, s.pcs)
  }

  lemma {:induction false} SumZero(w: Weight, pcs: seq<Pc>)
    requires forall t :: 0 <= t < |pcs| ==> w(t, pcs[t]) == 0
    ensures Sum(w, pcs) == 0
  {
    if pcs != [] {
      SumZero(w, pcs[..|pcs| - 1]);
    }
  }

  lemma {:induction false} SumPositive(w: Weight, pcs: seq<Pc>)
    requires forall t :: 0 <= t < |pcs| ==> w(t, pcs[t]) >= 0
    ensures Sum(w, pcs) >= 0
    ensures Sum(w, pcs) > 0 ==> exists t :: 0 <= t < |pcs| && w(t, pcs[t]) > 0
  {
    if pcs != [] {
      SumPositive(w, pcs[..|pcs| - 1]);
      if Sum(w, pcs[..|pcs| - 1]) > 0 {
        var t :| 0 <= t < |pcs| - 1 && w(t, pcs[..|pcs| - 1][t]) > 0;
        assert w(t, pcs[t]) > 0;
      }
    }
  }

  lemma InitInv(n: nat, verdicts: seq<CaseResult>)
    ensures Permits(n, Init(n, |verdicts|)) && Tallies(verdicts, Init(n, |verdicts|))
  {
    var s := Init(n, |verdicts|);
    SumZero(HolderWeight(), s.pcs);
    SumZero(SchemaWeight(verdicts), s.pcs);
    SumZero(ValidateWeight(verdicts), s.pcs);
    NothingPushed(verdicts, s.pcs);
  }

  lemma {:induction false} NothingPushed(verdicts: seq<CaseResult>, pcs: seq<Pc>)
    requires |pcs| <= |verdicts| && forall t :: 0 <= t < |pcs| ==> !PastPush(pcs[t])
    ensures PushedBag(verdicts, pcs) == multiset{}
  {
    if pcs != [] {
      NothingPushed(verdicts, pcs[..|pcs| - 1]);
    }
  }

  lemma MoveSums(s: State, t: nat, pc: Pc)
    requires t < |s.pcs|
    ensures Holders(Move(s, t, pc)) == Holders(s) - (if Holds(s.pcs[t]) then 1 else 0) + (if Holds(pc) then 1 else 0)
    ensures PendingWakeups(Move(s, t, pc)) ==
            PendingWakeups(s) - (if s.pcs[t].Notifying? || s.pcs[t].Woken? then 1 else 0)
                              + (if pc.Notifying? || pc.Woken? then 1 else 0)
    ensures PendingWakeups(Move(s, t, pc)) >= 0
    ensures !pc.Sleeping? && SomeoneSleeps(Move(s, t, pc)) ==> SomeoneSleeps(s)
  {
    SumUpdate(HolderWeight(), s.pcs, t, pc);
    SumUpdate(PendingWeight(), s.pcs, t, pc);
    SumPositive(PendingWeight(), Move(s, t, pc).pcs);
    if !pc.Sleeping? && SomeoneSleeps(Move(s, t, pc)) {
      var u :| 0 <= u < |s.pcs| && Move(s, t, pc).pcs[u].Sleeping?;
      assert s.pcs[u].Sleeping?;
    }
  }

  lemma NextPermits(n: nat, verdicts: seq<CaseResult>, s: State, step: Step)
    requires |s.pcs| == |verdicts| && Enabled(s, step) && Permits(n, s)
    ensures Permits(n, Next(verdicts, s, step))
  {
    match step
    case Acquire(t) => MoveSums(s, t, if s.count == 0 then Sleeping else Running);
    case Evaluate(t) => MoveSums(s, t, Evaluated);
    case TallySchema(t) => MoveSums(s, t, SchemaTallied);
    case TallyValidate(t) => MoveSums(s, t, ValidateTallied);
    case Push(t) => MoveSums(s, t, Pushed);
    case Release(t) => MoveSums(s, t, Notifying);
    case Notify(t, sleeper) =>
      MoveSums(s, t, Done);
      if sleeper.Some? {
        assert SomeoneSleeps(s);
        MoveSums(Move(s, t, Done), sleeper.value, Woken);
      } else {
        assert !SomeoneSleeps(s);
      }
    case SpuriousWakeup(t) =>
      assert SomeoneSleeps(s);
      MoveSums(s, t, Woken);
  }

  /** The thread and the place a step moves it to; a signalled sleeper moves too. */
  ghost function NewPc(s: State, step: Step): Pc {
    match step
    case Acquire(t) => if s.count == 0 then Sleeping else Running
    case Evaluate(t) => Evaluated
    case TallySchema(t) => SchemaTallied
    case TallyValidate(t) => ValidateTallied
    case Push(t) => Pushed
    case Release(t) => Notifying
    case Notify(t, _) => Pc.Done
    case SpuriousWakeup(t) => Woken
  }

  lemma NextPcs(verdicts: seq<CaseResult>, s: State, step: Step)
    requires |s.pcs| == |verdicts| && Enabled(s, step)
    ensures var pcs := s.pcs[step.t := NewPc(s, step)];
            Next(verdicts, s, step).pcs ==
            if step.Notify? && step.sleeper.Some? then pcs[step.sleeper.value := Woken] else pcs
  {
  }

  /** A weight that ignores the difference between sleeping and woken sums up as if only the
      stepping thread moved. */
  lemma NextSum(w: Weight, verdicts: seq<CaseResult>, s: State, step: Step)
    requires |s.pcs| == |verdicts| && Enabled(s, step)
    requires forall t: nat :: w(t, Sleeping) == w(t, Woken)
    ensures Sum(w, Next(verdicts, s, step).pcs) == Sum(w, s.pcs) - w(step.t, s.pcs[step.t]) + w(step.t, NewPc(s, step))
  {
    NextPcs(verdicts, s, step);
    SumUpdate(w, s.pcs, step.t, NewPc(s, step));
    if step.Notify? && step.sleeper.Some? {
      SumUpdate(w, s.pcs[step.t := Pc.Done], step.sleeper.value, Woken);
    }
  }

  lemma PushIsPush(s: State, step: Step)
    requires Enabled(s, step)
    ensures PastPush(s.pcs[step.t]) ==> PastPush(NewPc(s, step))
    ensures PastPush(NewPc(s, step)) && !PastPush(s.pcs[step.t]) <==> step.Push?
  {
  }

  lemma NextBag(verdicts: seq<CaseResult>, s: State, step: Step)
    requires |s.pcs| == |verdicts| && Enabled(s, step)
    ensures PushedBag(verdicts, Next(verdicts, s, step).pcs) ==
            PushedBag(verdicts, s.pcs) + if step.Push? then multiset{verdicts[step.t]} else multiset{}
  {
    NextPcs(verdicts, s, step);
    PushIsPush(s, step);
    var pcs := s.pcs[step.t := NewPc(s, step)];
    PushedUpdate(verdicts, s.pcs, step.t, NewPc(s, step));
    if step.Notify? && step.sleeper.Some? {
      PushedUpdate(verdicts, pcs, step.sleeper.value, Woken);
    }
  }

  /** Each counter grows by one exactly when its own step passes it. */
  lemma NextCounters(verdicts: seq<CaseResult>, s: State, step: Step)
    requires |s.pcs| == |verdicts| && Enabled(s, step)
    ensures var r := Next(verdicts, s, step);
            var bucket := verdicts[step.t].bucket;
            && r.schemaPass == s.schemaPass + (if step.TallySchema? && SchemaOk(bucket) then 1 else 0)
            && r.validatePass == s.validatePass + (if step.TallyValidate? && ValidateOk(bucket) then 1 else 0)
            && r.results == s.results + (if step.Push? then [verdicts[step.t]] else [])
            && |r.pcs| == |s.pcs|
  {
  }

  lemma WeightDifference(verdicts: seq<CaseResult>, s: State, step: Step)
    requires |s.pcs| == |verdicts| && Enabled(s, step)
    ensures SchemaWeight(verdicts)(step.t, NewPc(s, step)) - SchemaWeight(verdicts)(step.t, s.pcs[step.t]) ==
            if step.TallySchema? && SchemaOk(verdicts[step.t].bucket) then 1 else 0
    ensures ValidateWeight(verdicts)(step.t, NewPc(s, step)) - ValidateWeight(verdicts)(step.t, s.pcs[step.t]) ==
            if step.TallyValidate? && ValidateOk(verdicts[step.t].bucket) then 1 else 0
  {
  }

  lemma NextTallies(verdicts: seq<CaseResult>, s: State, step: Step)
    requires Tallies(verdicts, s) && Enabled(s, step)
    ensures Tallies(verdicts, Next(verdicts, s, step))
  {
    NextSum(SchemaWeight(verdicts), verdicts, s, step);
    NextSum(ValidateWeight(verdicts), verdicts, s, step);
    WeightDifference(verdicts, s, step);
    NextBag(verdicts, s, step);
    NextCounters(verdicts, s, step);
  }

  // ----- runs -----

  ghost predicate LegalRun(verdicts: seq<CaseResult>, s: State, steps: seq<Step>)
    decreases |steps|
  {
    |s.pcs| == |verdicts| &&
    (steps == [] || (Enabled(s, steps[0]) && LegalRun(verdicts, Next(verdicts, s, steps[0]), steps[1..])))
  }

  ghost function Reached(verdicts: seq<CaseResult>, s: State, steps: seq<Step>): State
    requires LegalRun(verdicts, s, steps)
    decreases |steps|
  {
    if steps == [] then s else Reached(verdicts, Next(verdicts, s, steps[0]), steps[1..])
  }

  lemma {:induction false} RunInvariant(n: nat, verdicts: seq<CaseResult>, s: State, steps: seq<Step>)
    requires LegalRun(verdicts, s, steps) && Permits(n, s) && Tallies(verdicts, s)
    ensures Permits(n, Reached(verdicts, s, steps)) && Tallies(verdicts, Reached(verdicts, s, steps))
    decreases |steps|
  {
    if steps != [] {
      NextPermits(n, verdicts, s, steps[0]);
      NextTallies(verdicts, s, steps[0]);
      RunInvariant(n, verdicts, Next(verdicts, s, steps[0]), steps[1..]);
    }
  }

  /** Over every interleaving, with any spurious wakeups: permits are conserved, no more than
      `n` cases are in flight, and no wakeup is lost. */
  lemma NoLostWakeup(n: nat, verdicts: seq<CaseResult>, steps: seq<Step>)
    requires LegalRun(verdicts, Init(n, |verdicts|), steps)
    ensures var s := Reached(verdicts, Init(n, |verdicts|), steps);
            && s.count + Holders(s) == n && Holders(s) <= n
            && (SomeoneSleeps(s) ==> s.count <= PendingWakeups(s))
  {
    InitInv(n, verdicts);
    RunInvariant(n, verdicts, Init(n, |verdicts|), steps);
  }

  // ----- progress -----

  ghost predicate AllDone(s: State) {
    forall t :: 0 <= t < |s.pcs| ==> s.pcs[t].Done?
  }

  /** Some thread can take a step that is not a spurious wakeup. */
  ghost predicate CanProgress(s: State) {
    exists step :: Enabled(s, step) && !step.SpuriousWakeup?
  }

  lemma AwakeCanStep(s: State, t: nat) returns (step: Step)
    requires t < |s.pcs| && !s.pcs[t].Done? && !s.pcs[t].Sleeping?
    ensures Enabled(s, step) && !step.SpuriousWakeup?
  {
    match s.pcs[t]
    case Running => step := Evaluate(t);
    case Evaluated => step := TallySchema(t);
    case SchemaTallied => step := TallyValidate(t);
    case ValidateTallied => step := Push(t);
    case Pushed => step := Release(t);
    case Notifying =>
      if u :| 0 <= u < |s.pcs| && s.pcs[u].Sleeping? { step := Notify(t, Some(u)); } else { step := Notify(t, None); }
    case _ => step := Acquire(t);
  }

  lemma NoDeadlock(n: nat, s: State)
    requires n >= 1 && Permits(n, s) && !AllDone(s)
    ensures CanProgress(s)
  {
    if t :| 0 <= t < |s.pcs| && !s.pcs[t].Done? && !s.pcs[t].Sleeping? {
      var step := AwakeCanStep(s, t);
    } else {
      var t :| 0 <= t < |s.pcs| && !s.pcs[t].Done?;
      assert At(s, t, Sleeping);
      SumZero(HolderWeight(), s.pcs);
      SumZero(PendingWeight(), s.pcs);
      assert false;
    }
  }

  ghost predicate NobodyRuns(s: State) {
    forall t :: 0 <= t < |s.pcs| ==> s.pcs[t].Start? || s.pcs[t].Sleeping? || s.pcs[t].Woken?
  }

  /** With no permits at all, nothing ever runs. */
  lemma {:induction false} ZeroPermitsHang(verdicts: seq<CaseResult>, s: State, steps: seq<Step>)
    requires LegalRun(verdicts, s, steps) && s.count == 0 && NobodyRuns(s)
    ensures NobodyRuns(Reached(verdicts, s, steps)) && |Reached(verdicts, s, steps).pcs| == |s.pcs|
    decreases |steps|
  {
    if steps != [] {
      ZeroPermitsHang(verdicts, Next(verdicts, s, steps[0]), steps[1..]);
    }
  }

  // ----- bounded runs -----

  function Remaining(pc: Pc): nat {
    match pc
    case Start => 10
    case Woken => 9
    case Sleeping => 8
    case Running => 7
    case Evaluated => 6
    case SchemaTallied => 5
    case ValidateTallied => 4
    case Pushed => 3
    case Notifying => 2
    case Done => 0
  }

  ghost function RemainingWeight(): Weight {
    (t: nat, pc: Pc) => Remaining(pc)
  }

  function SpuriousCount(steps: seq<Step>): nat {
    if steps == [] then 0 else (if steps[0].SpuriousWakeup? then 1 else 0) + SpuriousCount(steps[1..])
  }

  lemma StepRemaining(verdicts: seq<CaseResult>, s: State, step: Step)
    requires |s.pcs| == |verdicts| && Enabled(s, step)
    ensures var before, after := Sum(RemainingWeight(), s.pcs), Sum(RemainingWeight(), Next(verdicts, s, step).pcs);
            if step.SpuriousWakeup? then after == before + 1 else after < before
  {
    NextPcs(verdicts, s, step);
    SumUpdate(RemainingWeight(), s.pcs, step.t, NewPc(s, step));
    RemainingDrops(s, step);
    if step.Notify? && step.sleeper.Some? {
      SumUpdate(RemainingWeight(), s.pcs[step.t := Pc.Done], step.sleeper.value, Woken);
    }
  }

  lemma RemainingDrops(s: State, step: Step)
    requires Enabled(s, step)
    ensures var before, after := Remaining(s.pcs[step.t]), Remaining(NewPc(s, step));
            if step.SpuriousWakeup? then after == before + 1
            else if step.Notify? then after == before - 2
            else after < before
  {
  }

  lemma {:induction false} RunBound(verdicts: seq<CaseResult>, s: State, steps: seq<Step>)
    requires LegalRun(verdicts, s, steps)
    ensures |steps| <= Sum(RemainingWeight(), s.pcs) + 2 * SpuriousCount(steps)
    decreases |steps|
  {
    if steps == [] {
      SumPositive(RemainingWeight(), s.pcs);
    } else {
      StepRemaining(verdicts, s, steps[0]);
      RunBound(verdicts, Next(verdicts, s, steps[0]), steps[1..]);
    }
  }

  lemma {:induction false} InitRemaining(k: nat)
    ensures Sum(RemainingWeight(), seq(k, _ => Start)) == 10 * k
  {
    if k > 0 {
      InitRemaining(k - 1);
      assert seq(k, _ => Start)[..k - 1] == seq(k - 1, _ => Start);
    }
  }

  // ----- the report -----

  function CaseId(r: CaseResult): string { r.caseId }

  function CountSchema(rs: seq<CaseResult>): nat {
    if rs == [] then 0 else CountSchema(rs[..|rs| - 1]) + if SchemaOk(rs[|rs| - 1].bucket) then 1 else 0
  }

  function CountValidate(rs: seq<CaseResult>): nat {
    if rs == [] then 0 else CountValidate(rs[..|rs| - 1]) + if ValidateOk(rs[|rs| - 1].bucket) then 1 else 0
  }

  lemma {:induction false} DoneSums(verdicts: seq<CaseResult>, pcs: seq<Pc>)
    requires |pcs| <= |verdicts| && forall t :: 0 <= t < |pcs| ==> pcs[t].Done?
    ensures Sum(SchemaWeight(verdicts), pcs) == CountSchema(verdicts[..|pcs|])
    ensures Sum(ValidateWeight(verdicts), pcs) == CountValidate(verdicts[..|pcs|])
    ensures PushedBag(verdicts, pcs) == multiset(verdicts[..|pcs|])
  {
    if pcs != [] {
      var k := |pcs| - 1;
      DoneSums(verdicts, pcs[..k]);
      assert verdicts[..k + 1][..k] == verdicts[..k];
      assert verdicts[..k + 1] == verdicts[..k] + [verdicts[k]];
    }
  }

  /** The cases that ended in one of these buckets. */
  function Having(rs: seq<CaseResult>, buckets: set<Bucket>): set<int> {
    set t | 0 <= t < |rs| && rs[t].bucket in buckets
  }

  lemma HavingLast(rs: seq<CaseResult>, buckets: set<Bucket>)
    requires rs != []
    ensures |Having(rs, buckets)| ==
            |Having(rs[..|rs| - 1], buckets)| + if rs[|rs| - 1].bucket in buckets then 1 else 0
  {
    var k := |rs| - 1;
    assert Having(rs, buckets) == Having(rs[..k], buckets) + if rs[k].bucket in buckets then {k} else {};
    assert k !in Having(rs[..k], buckets);
  }

  /** What the two tallies count. */
  lemma {:induction false} TalliesExact(rs: seq<CaseResult>)
    ensures CountSchema(rs) == |Having(rs, {Pass, NormalizeFixable, SchemaOnly})|
    ensures CountValidate(rs) == |Having(rs, {Pass, NormalizeFixable, ValidateOnly})|
  {
    if rs != [] {
      TalliesExact(rs[..|rs| - 1]);
      HavingLast(rs, {Pass, NormalizeFixable, SchemaOnly});
      HavingLast(rs, {Pass, NormalizeFixable, ValidateOnly});
    }
  }

  /** With at least one permit and distinct case ids: a run of m cases takes at most 10m steps,
      plus two per spurious wakeup; it can stop only when every thread is done; and the report
      is then the same for every interleaving, sorted by case id. */
  lemma SuiteDeterministic(n: nat, verdicts: seq<CaseResult>, steps: seq<Step>)
    requires n >= 1 && LegalRun(verdicts, Init(n, |verdicts|), steps)
    requires forall i, j :: 0 <= i < j < |verdicts| ==> verdicts[i].caseId != verdicts[j].caseId
    ensures var s := Reached(verdicts, Init(n, |verdicts|), steps);
            && |steps| <= 10 * |verdicts| + 2 * SpuriousCount(steps)
            && (CanProgress(s) || AllDone(s))
            && (AllDone(s) ==>
                  && SortBy(CaseId, s.results) == SortBy(CaseId, verdicts)
                  && Increasing(Keys(CaseId, SortBy(CaseId, s.results)))
                  && s.schemaPass == |Having(verdicts, {Pass, NormalizeFixable, SchemaOnly})|
                  && s.validatePass == |Having(verdicts, {Pass, NormalizeFixable, ValidateOnly})|)
  {
    var init := Init(n, |verdicts|);
    var s := Reached(verdicts, init, steps);
    InitInv(n, verdicts);
    RunInvariant(n, verdicts, init, steps);
    InitRemaining(|verdicts|);
    RunBound(verdicts, init, steps);
    if AllDone(s) {
      DoneSums(verdicts, s.pcs);
      assert verdicts[..|verdicts|] == verdicts;
      SortByForgetsOrder(CaseId, verdicts, s.results);
      SortByIncreasing(CaseId, s.results);
      TalliesExact(verdicts);
    } else {
      NoDeadlock(n, s);
    }
  }
}
