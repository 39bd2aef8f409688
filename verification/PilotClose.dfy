/**
 The pilot plan's validator, rule by rule, and the exact condition on rosters and seed
 functions under which a built plan passes it.
 */
module PilotClose {
  import opened Prelude
  import opened PilotContracts
  import opened PilotPlan
  import opened PilotOrder
  import opened RunSafety

  /** The arms as the validator sees them: filtered out of the global list. */
  function ArmsIn(calls: seq<CallSlot>): Arms {
    Arms(
      ArmCalls(calls, PURE), ArmCalls(calls, STATIC), ArmCalls(calls, SCORE), ArmCalls(calls, FULL),
      ArmCalls(calls, PURE_AT_B))
  }

  // ---------------------------------------------------------------- the checks

  /** A slot on its own: its ID joins its coordinates, and only controllers are without a task. */
  ghost predicate SlotCloses(c: CallSlot) {
    && c.callId == CallId(c.arm, c.armSlot, c.kind, c.task, c.variant)
    && c.callId !in c.dependsOn && NoDuplicates(c.dependsOn)
    && (IsController(c.kind) <==> c.task.None?)
  }

  ghost predicate DependsEarlier(calls: seq<CallSlot>, i: nat)
    requires i < |calls|
  {
    forall d :: d in calls[i].dependsOn ==> exists j :: 0 <= j < i && calls[j].callId == d
  }

  ghost predicate GlobalCloses(r: Roster, calls: seq<CallSlot>) {
    && |calls| == Total(r)
    && (forall i :: 0 <= i < |calls| ==> calls[i].globalSlot == i)
    && (forall i, j :: 0 <= i < j < |calls| ==> calls[i].callId != calls[j].callId)
    && (forall i :: 0 <= i < |calls| ==> SlotCloses(calls[i]))
    && (forall i :: 0 <= i < |calls| ==> DependsEarlier(calls, i))
  }

  type Coordinate = (CallKind, Option<TaskId>, Variant)

  function Projection(c: CallSlot): Coordinate {
    (c.kind, c.task, c.variant)
  }

  function FitCoordinates(r: Roster, kind: CallKind, variant: Variant): (cs: seq<Coordinate>)
    ensures |cs| == |r.fit| && forall i :: 0 <= i < |cs| ==> cs[i] == (kind, Some(r.fit[i]), variant)
  {
    seq(|r.fit|, i requires 0 <= i < |r.fit| => (kind, Some(r.fit[i]), variant))
  }

  function GateCoordinates(r: Roster, t: nat): seq<Coordinate>
    requires t <= |r.gate|
  {
    if t == 0 then []
    else
      GateCoordinates(r, t - 1)
      + [(GATE, Some(r.gate[t - 1]), Parent), (GATE, Some(r.gate[t - 1]), Candidate),
         (GATE, Some(r.gate[t - 1]), Revert), (GATE, Some(r.gate[t - 1]), Placebo)]
  }

  function HoldoutCoordinates(r: Roster, variant: Variant): (cs: seq<Coordinate>)
    ensures |cs| == |r.holdout| && forall i :: 0 <= i < |cs| ==> cs[i] == (HOLDOUT, Some(r.holdout[i]), variant)
  {
    seq(|r.holdout|, i requires 0 <= i < |r.holdout| => (HOLDOUT, Some(r.holdout[i]), variant))
  }

  /** The expected coordinates of an adaptive arm. */
  function ExpectedAdaptive(r: Roster): seq<Coordinate> {
    FitCoordinates(r, PARENT_FIT, Parent)
    + [(DIAGNOSIS, None, DiagnosticController), (PROPOSAL, None, ProposalController)]
    + FitCoordinates(r, CANDIDATE_FIT, Candidate)
    + GateCoordinates(r, |r.gate|)
    + HoldoutCoordinates(r, SelectedOrFallback)
  }

  function ExpectedSamples(r: Roster, t: nat): seq<Coordinate>
    requires t <= |r.holdout|
  {
    if t == 0 then []
    else
      ExpectedSamples(r, t - 1)
      + seq(if t - 1 < 4 then 4 else 3, s requires 0 <= s =>
          (PURE_AT_B_SAMPLE, Some(r.holdout[t - 1]), BareSample(s)))
  }

  ghost predicate Projects(calls: seq<CallSlot>, expected: seq<Coordinate>) {
    |calls| == |expected| && forall i :: 0 <= i < |calls| ==> Projection(calls[i]) == expected[i]
  }

  ghost predicate ArmsClose(r: Roster, calls: seq<CallSlot>) {
    var a := ArmsIn(calls);
    && Sized(r, a)
    && (forall arm: Arm, s :: 0 <= s < |ArmList(a, arm)| ==> ArmList(a, arm)[s].armSlot == s)
    && Projects(a.pure, HoldoutCoordinates(r, Bare))
    && Projects(a.static_, HoldoutCoordinates(r, StaticFrozen))
    && Projects(a.score, ExpectedAdaptive(r)) && Projects(a.full, ExpectedAdaptive(r))
    && Projects(a.pureAtB, ExpectedSamples(r, |r.holdout|))
    && calls == Topological(r, a)
  }

  /** The dependency dictionary of the joint-barrier DAG. */
  function ExpectedDependencies(r: Roster, a: Arms, arm: Arm, s: nat): seq<CallId>
    requires Sized(r, a) && s < |ArmList(a, arm)|
  {
    var own := ArmList(a, arm);
    var gates := IdsOf(a.score[GateStart(r)..HoldoutStart(r)]) + IdsOf(a.full[GateStart(r)..HoldoutStart(r)]);
    if arm == SCORE || arm == FULL then
      if s < DiagnosisSlot(r) then []
      else if s == DiagnosisSlot(r) then IdsOf(own[..DiagnosisSlot(r)])
      else if s == ProposalSlot(r) then [own[DiagnosisSlot(r)].callId]
      else if s < GateStart(r) then [a.score[ProposalSlot(r)].callId, a.full[ProposalSlot(r)].callId]
      else if s < HoldoutStart(r) then IdsOf(own[CandidateStart(r)..GateStart(r)])
      else gates
    else gates
  }

  ghost predicate DependenciesClose(r: Roster, a: Arms)
    requires Sized(r, a)
  {
    forall arm: Arm, s :: 0 <= s < |ArmList(a, arm)| ==>
      ArmList(a, arm)[s].dependsOn == ExpectedDependencies(r, a, arm, s)
  }

  /** Who may see feedback, and which barrier flag each call carries. */
  ghost predicate FlagsClose(r: Roster, calls: seq<CallSlot>) {
    forall i :: 0 <= i < |calls| ==>
      && calls[i].feedback == (if IsController(calls[i].kind) && IsAdaptive(calls[i].arm) then ViewOf(calls[i].arm)
                               else NoFeedback)
      && calls[i].graderFeedback == IsController(calls[i].kind)
      && calls[i].requiresCandidates == (calls[i].kind == CANDIDATE_FIT)
      && calls[i].requiresSelections == (i >= HoldoutBase(r))
  }

  /** No holdout task before joint selection, and only holdout tasks after it. */
  ghost predicate BarrierCloses(r: Roster, calls: seq<CallSlot>) {
    forall i :: 0 <= i < |calls| ==>
      ((calls[i].task.Some? && calls[i].task.value in r.holdout) <==> i >= HoldoutBase(r))
  }

  function Normalized(d: CallId): CallId {
    if d.arm == FULL then d.(arm := SCORE) else d
  }

  function NormalizedAll(ds: seq<CallId>): (n: seq<CallId>)
    ensures |n| == |ds| && forall i :: 0 <= i < |n| ==> n[i] == Normalized(ds[i])
  {
    seq(|ds|, i requires 0 <= i < |ds| => Normalized(ds[i]))
  }

  /** SCORE and FULL differ in nothing but arm and feedback. */
  ghost predicate PairingCloses(a: Arms) {
    |a.score| == |a.full| && forall s :: 0 <= s < |a.score| ==> Paired(a.score[s], a.full[s])
  }

  ghost predicate Paired(x: CallSlot, y: CallSlot) {
    && x.armSlot == y.armSlot && Projection(x) == Projection(y) && x.seed == y.seed
    && NormalizedAll(x.dependsOn) == NormalizedAll(y.dependsOn)
  }

  /** Parent and candidate FIT share seeds, GATE variants of a task share one, and so do the holdout arms. */
  ghost predicate SeedsClose(r: Roster, a: Arms)
    requires Sized(r, a)
  {
    && (forall i :: 0 <= i < |r.fit| ==> FitSeedShared(r, a, i))
    && (forall t, v :: 0 <= t < |r.gate| && 0 <= v < 4 ==> GateSeedShared(r, a, t, v))
    && (forall i :: 0 <= i < |r.holdout| ==> HoldoutSeedShared(r, a, i))
  }

  ghost predicate FitSeedShared(r: Roster, a: Arms, i: nat)
    requires Sized(r, a) && i < |r.fit|
  {
    a.score[i].seed == a.score[CandidateStart(r) + i].seed
  }

  ghost predicate HoldoutSeedShared(r: Roster, a: Arms, i: nat)
    requires Sized(r, a) && i < |r.holdout|
  {
    a.pure[i].seed == a.static_[i].seed == a.score[HoldoutStart(r) + i].seed == a.full[HoldoutStart(r) + i].seed
  }

  ghost predicate GateSeedShared(r: Roster, a: Arms, t: nat, v: nat)
    requires Sized(r, a) && t < |r.gate| && v < 4
  {
    && a.score[GateStart(r) + 4 * t + v].seed == a.score[GateStart(r) + 4 * t].seed
    && a.full[GateStart(r) + 4 * t + v].seed == a.full[GateStart(r) + 4 * t].seed
  }

  ghost predicate SamplesDiffer(a: Arms) {
    forall i, j :: 0 <= i < j < |a.pureAtB| ==> a.pureAtB[i].seed != a.pureAtB[j].seed
  }

  /** `_close_plan` without its frozen digests. */
  ghost predicate PlanCloses(r: Roster, calls: seq<CallSlot>) {
    var a := ArmsIn(calls);
    && GlobalCloses(r, calls)
    && ArmsClose(r, calls)
    && DependenciesClose(r, a)
    && FlagsClose(r, calls)
    && BarrierCloses(r, calls)
    && PairingCloses(a)
    && SeedsClose(r, a)
    && SamplesDiffer(a)
  }

  // ---------------------------------------------------------------- a built plan, call by call

  /** Call `s` of an arm as built, before global numbering. */
  function Built(r: Roster, seed: SeedFunction, arm: Arm, s: nat): CallSlot
    requires s < ArmSize(r, arm)
  {
    ArmList(ArmsOf(r, seed), arm)[s]
  }

  lemma {:induction false} SampleShape(r: Roster, seed: SeedFunction, t: nat, s: nat)
    requires t <= |r.holdout| && s < SamplesBefore(t)
    ensures var c := Samples(r, seed, t)[s];
            && c.arm == PURE_AT_B && c.armSlot == s && c.kind == PURE_AT_B_SAMPLE
            && c.task.Some? && c.task.value in r.holdout && c.variant.BareSample?
            && c.seed == seed(PureSample(c.task.value, c.variant.index))
            && c == Slot(
                      PURE_AT_B, s, PURE_AT_B_SAMPLE, c.task, c.variant, c.seed, AllGateIds(r), NoFeedback,
                      false, true, false)
    decreases t
  {
    hide AllGateIds;
    if s < SamplesBefore(t - 1) {
      SampleShape(r, seed, t - 1, s);
    } else {
      var k := s - SamplesBefore(t - 1);
      assert Samples(r, seed, t)[s] == SampleRow(r, seed, t - 1, SampleCount(t - 1))[k];
    }
  }

  lemma BuiltAdaptive(r: Roster, seed: SeedFunction, arm: Arm, s: nat)
    requires IsAdaptive(arm) && s < AdaptiveSize(r)
    ensures Built(r, seed, arm, s) == AdaptiveAt(r, seed, arm, s)
  {
    hide AdaptiveAt;
  }

  lemma BuiltLate(r: Roster, seed: SeedFunction, arm: Arm, s: nat)
    requires !IsAdaptive(arm) && s < ArmSize(r, arm)
    ensures Built(r, seed, arm, s).kind == if arm == PURE_AT_B then PURE_AT_B_SAMPLE else HOLDOUT
  {
    hide AllGateIds;
    if arm == PURE_AT_B {
      SampleShape(r, seed, |r.holdout|, s);
    }
  }

  /** What one call may see and must wait for, by its arm and kind. */
  ghost predicate FlagsOf(c: CallSlot) {
    && c.feedback == (if IsController(c.kind) && IsAdaptive(c.arm) then ViewOf(c.arm) else NoFeedback)
    && c.graderFeedback == IsController(c.kind)
    && c.requiresCandidates == (c.kind == CANDIDATE_FIT)
    && c.requiresSelections == (c.kind == HOLDOUT || c.kind == PURE_AT_B_SAMPLE)
  }

  ghost predicate Labelled(c: CallSlot, arm: Arm, s: nat) {
    && c.arm == arm && c.armSlot == s && c.callId == CallId(c.arm, c.armSlot, c.kind, c.task, c.variant)
    && (IsController(c.kind) <==> c.task.None?) && !c.variant.OtherVariant?
  }

  lemma AdaptiveShape(r: Roster, seed: SeedFunction, arm: Arm, s: nat)
    requires s < AdaptiveSize(r) && IsAdaptive(arm)
    ensures var c := AdaptiveAt(r, seed, arm, s); Labelled(c, arm, s) && FlagsOf(c) && c.kind == KindAt(r, s)
  {
    hide AllGateIds, ParentIds, CandidateIds;
  }

  lemma PositionBarrier(r: Roster, arm: Arm, s: nat)
    requires s < ArmSize(r, arm)
    ensures Position(r, arm, s) >= HoldoutBase(r) <==> !IsAdaptive(arm) || HoldoutStart(r) <= s
  {
  }

  /** Everything the arm-independent checks read off a built call. */
  lemma LateShape(r: Roster, seed: SeedFunction, arm: Arm, s: nat)
    requires !IsAdaptive(arm) && s < ArmSize(r, arm)
    ensures var c := Built(r, seed, arm, s); Labelled(c, arm, s) && FlagsOf(c) && c.requiresSelections
  {
    hide AllGateIds;
    if arm == PURE_AT_B {
      SampleShape(r, seed, |r.holdout|, s);
    }
  }

  /** An adaptive call needs both selections exactly from the HOLDOUT stage on. */
  lemma BarrierKinds(r: Roster, c: CallSlot, s: nat)
    requires s < AdaptiveSize(r) && FlagsOf(c) && c.kind == KindAt(r, s)
    ensures c.requiresSelections <==> HoldoutStart(r) <= s
  {
  }

  lemma BuiltShape(r: Roster, seed: SeedFunction, arm: Arm, s: nat)
    requires s < ArmSize(r, arm)
    ensures var c := Built(r, seed, arm, s);
            && Labelled(c, arm, s) && FlagsOf(c)
            && (c.requiresSelections <==> Position(r, arm, s) >= HoldoutBase(r))
  {
    hide AdaptiveAt, Position, Built, Labelled, FlagsOf, KindAt;
    PositionBarrier(r, arm, s);
    if IsAdaptive(arm) {
      BuiltAdaptive(r, seed, arm, s);
      AdaptiveShape(r, seed, arm, s);
      BarrierKinds(r, AdaptiveAt(r, seed, arm, s), s);
    } else {
      LateShape(r, seed, arm, s);
    }
  }

  lemma PlanAt(r: Roster, seed: SeedFunction, i: nat)
    requires i < Total(r)
    ensures |Plan(r, seed)| == Total(r)
    ensures var (arm, s) := CellAt(r, i);
            && s < ArmSize(r, arm) && Position(r, arm, s) == i
            && Plan(r, seed)[i] == Built(r, seed, arm, s).(globalSlot := i)
            && Plan(r, seed)[i].arm == arm && Plan(r, seed)[i].armSlot == s
  {
    hide CellAt, Topological, ArmsOf, Position, FlagsOf;
    CellRoundTrip(r, i);
    TopologicalAt(r, ArmsOf(r, seed), i);
    var (arm, s) := CellAt(r, i);
    BuiltShape(r, seed, arm, s);
  }

  /** The validator's arms are the built arms with their global slots filled in. */
  lemma ArmCallAt(r: Roster, seed: SeedFunction, arm: Arm)
    ensures |ArmCalls(Plan(r, seed), arm)| == ArmSize(r, arm)
    ensures forall s :: 0 <= s < ArmSize(r, arm) ==>
              ArmCalls(Plan(r, seed), arm)[s] == Built(r, seed, arm, s).(globalSlot := Position(r, arm, s))
  {
    hide CellAt, Plan, Position, Built, ArmSize, Total;
    var calls, n := Plan(r, seed), Total(r);
    var positions := seq(ArmSize(r, arm), s requires 0 <= s < ArmSize(r, arm) => Position(r, arm, s));
    PlanSize(r, seed);
    forall s | 0 <= s < ArmSize(r, arm)
      ensures positions[s] < n && calls[positions[s]].arm == arm
      ensures calls[positions[s]] == Built(r, seed, arm, s).(globalSlot := Position(r, arm, s))
    {
      PositionRoundTrip(r, arm, s);
      PlanAt(r, seed, positions[s]);
    }
    forall j, k | 0 <= j < k < |positions|
      ensures positions[j] < positions[k]
    {
      PositionIncreases(r, arm, j, k);
    }
    forall i | 0 <= i < n && calls[i].arm == arm
      ensures i in positions
    {
      PlanAt(r, seed, i);
      var s := CellAt(r, i).1;
      assert positions[s] == i;
    }
    FilterByPositions(calls, arm, positions, n);
    assert calls[..n] == calls;
  }

  lemma PlanSize(r: Roster, seed: SeedFunction)
    ensures |Plan(r, seed)| == Total(r)
  {
    SearchSize(r, ArmsOf(r, seed).score, ArmsOf(r, seed).full);
    HoldoutSize(r, ArmsOf(r, seed));
  }

  // ---------------------------------------------------------------- unique IDs and backward dependencies

  lemma CallIdsDiffer(r: Roster, seed: SeedFunction, i: nat, j: nat)
    requires i < Total(r) && j < Total(r)
    ensures |Plan(r, seed)| == Total(r)
    ensures Plan(r, seed)[i].callId == Plan(r, seed)[j].callId ==> i == j
  {
    hide Plan, CellAt, Position, Total, Built;
    PlanAt(r, seed, i);
    PlanAt(r, seed, j);
    var (arm, s) := CellAt(r, i);
    var (arm', s') := CellAt(r, j);
    BuiltShape(r, seed, arm, s);
    BuiltShape(r, seed, arm', s');
  }

  /** Each dependency is the ID of a call standing earlier in the global order. */
  ghost predicate Precedes(r: Roster, seed: SeedFunction, arm: Arm, s: nat, arm': Arm, s': nat, d: CallId)
    requires s < ArmSize(r, arm)
  {
    && s' < ArmSize(r, arm') && Built(r, seed, arm', s').callId == d
    && Position(r, arm', s') < Position(r, arm, s)
  }

  lemma GateCall(r: Roster, seed: SeedFunction, arm: Arm, j: nat)
    requires IsAdaptive(arm) && j < 4 * |r.gate|
    ensures GateStart(r) + j < ArmSize(r, arm)
    ensures Built(r, seed, arm, GateStart(r) + j).callId == GateId(r, arm, j)
    ensures Position(r, arm, GateStart(r) + j) < HoldoutBase(r)
  {
    hide AdaptiveAt, Built, Position;
    PositionBarrier(r, arm, GateStart(r) + j);
    BuiltAdaptive(r, seed, arm, GateStart(r) + j);
    assert 4 * (j / 4) + j % 4 == j;
    GateAt(r, seed, arm, j / 4, j % 4);
  }

  lemma GatePrecedes(r: Roster, seed: SeedFunction, arm: Arm, s: nat, d: CallId)
    returns (arm': Arm, s': nat)
    requires s < ArmSize(r, arm) && Position(r, arm, s) >= HoldoutBase(r) && d in AllGateIds(r)
    ensures Precedes(r, seed, arm, s, arm', s', d)
  {
    hide Position, Built, AllGateIds, GateId;
    var j;
    arm', j := GateIdCell(r, d);
    s' := GateStart(r) + j;
    GateCall(r, seed, arm', j);
  }

  lemma GateIdCell(r: Roster, d: CallId) returns (arm: Arm, j: nat)
    requires d in AllGateIds(r)
    ensures IsAdaptive(arm) && j < 4 * |r.gate| && d == GateId(r, arm, j)
  {
    hide GateId;
    var g := 4 * |r.gate|;
    var k :| 0 <= k < |AllGateIds(r)| && AllGateIds(r)[k] == d;
    arm, j := if k < g then SCORE else FULL, if k < g then k else k - g;
  }

  /** The ID of an adaptive call before the GATE stage. */
  function EarlyId(r: Roster, arm: Arm, i: nat): CallId
    requires i < GateStart(r)
  {
    if i < DiagnosisSlot(r) then ParentId(r, arm, i)
    else if i == DiagnosisSlot(r) then DiagnosisId(r, arm)
    else if i == ProposalSlot(r) then ProposalId(r, arm)
    else CandidateId(r, arm, i - CandidateStart(r))
  }

  lemma EarlyCall(r: Roster, seed: SeedFunction, arm: Arm, i: nat)
    requires IsAdaptive(arm) && i < GateStart(r)
    ensures i < ArmSize(r, arm) && Built(r, seed, arm, i).callId == EarlyId(r, arm, i)
  {
    hide AllGateIds, ParentIds, CandidateIds;
    assert Built(r, seed, arm, i) == AdaptiveAt(r, seed, arm, i);
  }

  /** Stages of one arm follow each other, and both proposals precede both candidates. */
  lemma StagePositions(r: Roster, arm: Arm, s: nat, arm': Arm, s': nat)
    requires IsAdaptive(arm) && IsAdaptive(arm') && s' < s < HoldoutStart(r)
    requires arm == arm' || (s' == ProposalSlot(r) && CandidateStart(r) <= s)
    ensures Position(r, arm', s') < Position(r, arm, s)
  {
  }

  /** Which early call of which arm an adaptive call names as its dependency. */
  lemma DependencyCell(r: Roster, seed: SeedFunction, arm: Arm, s: nat, d: CallId)
    returns (arm': Arm, s': nat)
    requires s < AdaptiveSize(r) && IsAdaptive(arm) && s < HoldoutStart(r)
    requires d in AdaptiveAt(r, seed, arm, s).dependsOn
    ensures IsAdaptive(arm') && s' < s && s' < GateStart(r) && EarlyId(r, arm', s') == d
    ensures arm == arm' || (s' == ProposalSlot(r) && CandidateStart(r) <= s)
  {
    hide AllGateIds, ParentIds, CandidateIds;
    if s == DiagnosisSlot(r) {
      var i :| 0 <= i < |r.fit| && ParentIds(r, arm)[i] == d;
      arm', s' := arm, i;
    } else if s == ProposalSlot(r) {
      arm', s' := arm, DiagnosisSlot(r);
    } else if s < GateStart(r) {
      arm', s' := if d == ProposalId(r, SCORE) then SCORE else FULL, ProposalSlot(r);
    } else {
      var i :| 0 <= i < |r.fit| && CandidateIds(r, arm)[i] == d;
      arm', s' := arm, CandidateStart(r) + i;
    }
  }

  lemma AdaptivePrecedes(r: Roster, seed: SeedFunction, arm: Arm, s: nat, d: CallId)
    returns (arm': Arm, s': nat)
    requires s < AdaptiveSize(r) && IsAdaptive(arm) && s < HoldoutStart(r)
    requires d in AdaptiveAt(r, seed, arm, s).dependsOn
    ensures Precedes(r, seed, arm, s, arm', s', d)
  {
    hide AdaptiveAt, EarlyId, Position, Built;
    arm', s' := DependencyCell(r, seed, arm, s, d);
    EarlyCall(r, seed, arm', s');
    StagePositions(r, arm, s, arm', s');
  }

  lemma LateDependencies(r: Roster, seed: SeedFunction, arm: Arm, s: nat)
    requires s < ArmSize(r, arm) && (IsAdaptive(arm) ==> HoldoutStart(r) <= s)
    ensures Built(r, seed, arm, s).dependsOn == AllGateIds(r) && Position(r, arm, s) >= HoldoutBase(r)
  {
    hide AllGateIds, Position;
    PositionBarrier(r, arm, s);
    if arm == PURE_AT_B {
      SampleShape(r, seed, |r.holdout|, s);
    }
  }

  lemma DependencyPrecedes(r: Roster, seed: SeedFunction, arm: Arm, s: nat, d: CallId)
    returns (arm': Arm, s': nat)
    requires s < ArmSize(r, arm) && d in Built(r, seed, arm, s).dependsOn
    ensures Precedes(r, seed, arm, s, arm', s', d)
  {
    hide Precedes, Position, AdaptiveAt, AllGateIds;
    if IsAdaptive(arm) && s < HoldoutStart(r) {
      assert Built(r, seed, arm, s) == AdaptiveAt(r, seed, arm, s);
      arm', s' := AdaptivePrecedes(r, seed, arm, s, d);
    } else {
      LateDependencies(r, seed, arm, s);
      arm', s' := GatePrecedes(r, seed, arm, s, d);
    }
  }

  lemma PlanDependsEarlier(r: Roster, seed: SeedFunction, i: nat)
    requires i < Total(r)
    ensures |Plan(r, seed)| == Total(r) && DependsEarlier(Plan(r, seed), i)
  {
    hide Plan, CellAt, Position, Total, Built, ArmSize;
    PlanAt(r, seed, i);
    var (arm, s) := CellAt(r, i);
    forall d | d in Plan(r, seed)[i].dependsOn
      ensures exists j :: 0 <= j < i && Plan(r, seed)[j].callId == d
    {
      var arm', s' := DependencyPrecedes(r, seed, arm, s, d);
      PositionRoundTrip(r, arm', s');
      PlanAt(r, seed, Position(r, arm', s'));
    }
  }

  lemma DistinctSlots(ids: seq<CallId>)
    requires forall i, j :: 0 <= i < j < |ids| ==> ids[i].armSlot != ids[j].armSlot || ids[i].arm != ids[j].arm
    ensures NoDuplicates(ids)
  {
  }

  lemma BuiltDependenciesDistinct(r: Roster, seed: SeedFunction, arm: Arm, s: nat)
    requires s < ArmSize(r, arm)
    ensures NoDuplicates(Built(r, seed, arm, s).dependsOn)
  {
    DistinctSlots(AllGateIds(r));
    DistinctSlots(ParentIds(r, arm));
    DistinctSlots(CandidateIds(r, arm));
    hide AllGateIds, ParentIds, CandidateIds, NoDuplicates, Position;
    if IsAdaptive(arm) && s < HoldoutStart(r) {
      DistinctSlots([]);
      DistinctSlots([DiagnosisId(r, arm)]);
      DistinctSlots([ProposalId(r, SCORE), ProposalId(r, FULL)]);
    } else {
      LateDependencies(r, seed, arm, s);
    }
  }

  lemma PlanGlobalCloses(r: Roster, seed: SeedFunction)
    ensures GlobalCloses(r, Plan(r, seed))
  {
    hide Plan, CellAt, Position, Total, Built, NoDuplicates, DependsEarlier;
    var calls := Plan(r, seed);
    PlanSize(r, seed);
    forall i | 0 <= i < |calls|
      ensures calls[i].globalSlot == i && DependsEarlier(calls, i)
    {
      PlanAt(r, seed, i);
      PlanDependsEarlier(r, seed, i);
    }
    forall i, j | 0 <= i < j < |calls|
      ensures calls[i].callId != calls[j].callId
    {
      CallIdsDiffer(r, seed, i, j);
    }
    forall i | 0 <= i < |calls|
      ensures SlotCloses(calls[i])
    {
      PlanSlotCloses(r, seed, i);
    }
  }

  lemma PlanSlotCloses(r: Roster, seed: SeedFunction, i: nat)
    requires i < Total(r)
    ensures |Plan(r, seed)| == Total(r) && SlotCloses(Plan(r, seed)[i])
  {
    hide Plan, CellAt, Position, Total, Built, NoDuplicates, FlagsOf;
    PlanAt(r, seed, i);
    var (arm, s) := CellAt(r, i);
    BuiltShape(r, seed, arm, s);
    BuiltDependenciesDistinct(r, seed, arm, s);
    PlanDependsEarlier(r, seed, i);
    forall j | 0 <= j < i
      ensures Plan(r, seed)[j].callId != Plan(r, seed)[i].callId
    {
      CallIdsDiffer(r, seed, j, i);
    }
  }

  // ---------------------------------------------------------------- projections and order

  lemma {:induction false} GateCoordinateAt(r: Roster, t: nat, j: nat)
    requires t <= |r.gate|
    ensures |GateCoordinates(r, t)| == 4 * t
    ensures j < 4 * t ==> GateCoordinates(r, t)[j] == (GATE, Some(r.gate[j / 4]), GATE_VARIANTS[j % 4])
    decreases t
  {
    if t > 0 {
      GateCoordinateAt(r, t - 1, j);
      if 4 * (t - 1) <= j < 4 * t {
        assert j / 4 == t - 1 && j % 4 == j - 4 * (t - 1);
      }
    }
  }

  /** The coordinate expected at an adaptive slot. */
  function CoordinateAt(r: Roster, i: nat): Coordinate
    requires i < AdaptiveSize(r)
  {
    if i < DiagnosisSlot(r) then (PARENT_FIT, Some(r.fit[i]), Parent)
    else if i == DiagnosisSlot(r) then (DIAGNOSIS, None, DiagnosticController)
    else if i == ProposalSlot(r) then (PROPOSAL, None, ProposalController)
    else if i < GateStart(r) then (CANDIDATE_FIT, Some(r.fit[i - CandidateStart(r)]), Candidate)
    else if i < HoldoutStart(r) then
      var j := i - GateStart(r);
      (GATE, Some(r.gate[j / 4]), GATE_VARIANTS[j % 4])
    else (HOLDOUT, Some(r.holdout[i - HoldoutStart(r)]), SelectedOrFallback)
  }

  lemma ProjectionAt(r: Roster, seed: SeedFunction, arm: Arm, i: nat)
    requires i < AdaptiveSize(r)
    ensures Projection(AdaptiveAt(r, seed, arm, i)) == CoordinateAt(r, i)
  {
    hide AllGateIds, ParentIds, CandidateIds;
  }

  lemma CoordinatesAt(r: Roster, i: nat)
    requires i < AdaptiveSize(r)
    ensures |ExpectedAdaptive(r)| == AdaptiveSize(r)
    ensures ExpectedAdaptive(r)[i] == CoordinateAt(r, i)
  {
    hide GateCoordinates;
    GateCoordinateAt(r, |r.gate|, if GateStart(r) <= i < HoldoutStart(r) then i - GateStart(r) else 0);
    var p1 := FitCoordinates(r, PARENT_FIT, Parent)
      + [(DIAGNOSIS, None, DiagnosticController), (PROPOSAL, None, ProposalController)];
    var p2 := p1 + FitCoordinates(r, CANDIDATE_FIT, Candidate);
    var p3 := p2 + GateCoordinates(r, |r.gate|);
    assert ExpectedAdaptive(r) == p3 + HoldoutCoordinates(r, SelectedOrFallback);
    assert |p1| == CandidateStart(r) && |p2| == GateStart(r) && |p3| == HoldoutStart(r);
    if i < CandidateStart(r) {
      assert ExpectedAdaptive(r)[i] == p1[i];
    } else if i < GateStart(r) {
      assert ExpectedAdaptive(r)[i] == p2[i];
    } else if i < HoldoutStart(r) {
      assert ExpectedAdaptive(r)[i] == p3[i];
    }
  }

  lemma ExpectedAt(r: Roster, seed: SeedFunction, arm: Arm, i: nat)
    requires i < AdaptiveSize(r)
    ensures |ExpectedAdaptive(r)| == AdaptiveSize(r)
    ensures Projection(AdaptiveAt(r, seed, arm, i)) == ExpectedAdaptive(r)[i]
  {
    hide AdaptiveAt, ExpectedAdaptive, CoordinateAt;
    ProjectionAt(r, seed, arm, i);
    CoordinatesAt(r, i);
  }

  lemma {:induction false} ExpectedSampleAt(r: Roster, seed: SeedFunction, t: nat)
    requires t <= |r.holdout|
    ensures |ExpectedSamples(r, t)| == SamplesBefore(t)
    ensures forall s :: 0 <= s < SamplesBefore(t) ==> Projection(Samples(r, seed, t)[s]) == ExpectedSamples(r, t)[s]
    decreases t
  {
    hide AllGateIds;
    if t > 0 {
      ExpectedSampleAt(r, seed, t - 1);
    }
  }

  lemma PlanSized(r: Roster, seed: SeedFunction)
    ensures Sized(r, ArmsIn(Plan(r, seed)))
    ensures forall arm: Arm :: |ArmList(ArmsIn(Plan(r, seed)), arm)| == ArmSize(r, arm)
    ensures forall arm: Arm :: ArmList(ArmsIn(Plan(r, seed)), arm) == ArmCalls(Plan(r, seed), arm)
  {
    hide Plan, ArmCalls;
    ArmCallAt(r, seed, PURE);
    ArmCallAt(r, seed, STATIC);
    ArmCallAt(r, seed, SCORE);
    ArmCallAt(r, seed, FULL);
    ArmCallAt(r, seed, PURE_AT_B);
  }

  /** Call `s` of an arm, as the validator sees it. */
  lemma SeenCall(r: Roster, seed: SeedFunction, arm: Arm, s: nat)
    requires s < ArmSize(r, arm)
    ensures |ArmList(ArmsIn(Plan(r, seed)), arm)| == ArmSize(r, arm)
    ensures ArmList(ArmsIn(Plan(r, seed)), arm)[s] == Built(r, seed, arm, s).(globalSlot := Position(r, arm, s))
  {
    hide Plan, ArmCalls, Built, Position;
    PlanSized(r, seed);
    ArmCallAt(r, seed, arm);
  }

  lemma PlanProjects(r: Roster, seed: SeedFunction)
    ensures var a := ArmsIn(Plan(r, seed));
            && Projects(a.pure, HoldoutCoordinates(r, Bare))
            && Projects(a.static_, HoldoutCoordinates(r, StaticFrozen))
            && Projects(a.score, ExpectedAdaptive(r)) && Projects(a.full, ExpectedAdaptive(r))
            && Projects(a.pureAtB, ExpectedSamples(r, |r.holdout|))
  {
    hide Plan, ArmsIn, Position, AdaptiveAt, ExpectedAdaptive, ExpectedSamples, AllGateIds;
    var a := ArmsIn(Plan(r, seed));
    PlanSized(r, seed);
    ExpectedSampleAt(r, seed, |r.holdout|);
    ExpectedAt(r, seed, SCORE, 0);
    forall s | 0 <= s < AdaptiveSize(r)
      ensures Projection(a.score[s]) == ExpectedAdaptive(r)[s] == Projection(a.full[s])
    {
      SeenCall(r, seed, SCORE, s);
      SeenCall(r, seed, FULL, s);
      ExpectedAt(r, seed, SCORE, s);
      ExpectedAt(r, seed, FULL, s);
    }
    forall s | 0 <= s < |r.holdout|
      ensures Projection(a.pure[s]) == HoldoutCoordinates(r, Bare)[s]
      ensures Projection(a.static_[s]) == HoldoutCoordinates(r, StaticFrozen)[s]
    {
      SeenCall(r, seed, PURE, s);
      SeenCall(r, seed, STATIC, s);
    }
    forall s | 0 <= s < |a.pureAtB|
      ensures Projection(a.pureAtB[s]) == ExpectedSamples(r, |r.holdout|)[s]
    {
      SeenCall(r, seed, PURE_AT_B, s);
    }
  }

  lemma PlanIsTopological(r: Roster, seed: SeedFunction)
    ensures Sized(r, ArmsIn(Plan(r, seed))) && Plan(r, seed) == Topological(r, ArmsIn(Plan(r, seed)))
  {
    hide Plan, ArmsIn, Position, Built, Topological, CellAt, Total;
    var calls := Plan(r, seed);
    var a := ArmsIn(calls);
    PlanSized(r, seed);
    PlanSize(r, seed);
    TopologicalSize(r, a);
    forall i | 0 <= i < |calls|
      ensures calls[i] == Topological(r, a)[i]
    {
      PlanAt(r, seed, i);
      TopologicalAt(r, a, i);
      var (arm, s) := CellAt(r, i);
      SeenCall(r, seed, arm, s);
    }
  }

  lemma TopologicalSize(r: Roster, a: Arms)
    requires Sized(r, a)
    ensures |Topological(r, a)| == Total(r)
  {
    SearchSize(r, a.score, a.full);
    HoldoutSize(r, a);
  }

  lemma PlanArmsClose(r: Roster, seed: SeedFunction)
    ensures ArmsClose(r, Plan(r, seed))
  {
    hide Plan, ArmsIn, Position, Built, Topological, Projects, ExpectedAdaptive, ExpectedSamples, FlagsOf;
    PlanSized(r, seed);
    PlanProjects(r, seed);
    PlanIsTopological(r, seed);
    var a := ArmsIn(Plan(r, seed));
    forall arm: Arm, s | 0 <= s < |ArmList(a, arm)|
      ensures ArmList(a, arm)[s].armSlot == s
    {
      SeenCall(r, seed, arm, s);
      BuiltShape(r, seed, arm, s);
    }
  }

  // ---------------------------------------------------------------- dependencies

  lemma SeenIds(r: Roster, seed: SeedFunction, arm: Arm)
    requires IsAdaptive(arm)
    ensures var own := ArmList(ArmsIn(Plan(r, seed)), arm);
            && |own| == AdaptiveSize(r)
            && IdsOf(own[..DiagnosisSlot(r)]) == ParentIds(r, arm)
            && own[DiagnosisSlot(r)].callId == DiagnosisId(r, arm)
            && own[ProposalSlot(r)].callId == ProposalId(r, arm)
            && IdsOf(own[CandidateStart(r)..GateStart(r)]) == CandidateIds(r, arm)
            && IdsOf(own[GateStart(r)..HoldoutStart(r)]) == GateIdsOf(r, arm)
  {
    hide Plan, ArmsIn, Position, Built;
    var own := ArmList(ArmsIn(Plan(r, seed)), arm);
    SeenCall(r, seed, arm, 0);
    forall i | 0 <= i < GateStart(r)
      ensures own[i].callId == EarlyId(r, arm, i)
    {
      SeenCall(r, seed, arm, i);
      EarlyCall(r, seed, arm, i);
    }
    forall j | 0 <= j < 4 * |r.gate|
      ensures own[GateStart(r) + j].callId == GateId(r, arm, j)
    {
      SeenCall(r, seed, arm, GateStart(r) + j);
      GateCall(r, seed, arm, j);
    }
    assert IdsOf(own[GateStart(r)..HoldoutStart(r)]) == GateIdsOf(r, arm);
  }

  lemma PlanDependenciesClose(r: Roster, seed: SeedFunction)
    ensures Sized(r, ArmsIn(Plan(r, seed))) && DependenciesClose(r, ArmsIn(Plan(r, seed)))
  {
    hide Plan, ArmsIn, Position, Built, IdsOf, ParentIds, CandidateIds, GateIdsOf;
    PlanSized(r, seed);
    var a := ArmsIn(Plan(r, seed));
    SeenIds(r, seed, SCORE);
    SeenIds(r, seed, FULL);
    forall arm: Arm, s | 0 <= s < |ArmList(a, arm)|
      ensures ArmList(a, arm)[s].dependsOn == ExpectedDependencies(r, a, arm, s)
    {
      SeenCall(r, seed, arm, s);
      if IsAdaptive(arm) && s < HoldoutStart(r) {
        BuiltAdaptive(r, seed, arm, s);
      } else {
        LateDependencies(r, seed, arm, s);
      }
    }
  }

  // ---------------------------------------------------------------- flags, barrier, pairing and seeds

  lemma PlanFlagsClose(r: Roster, seed: SeedFunction)
    ensures FlagsClose(r, Plan(r, seed))
  {
    hide Plan, Position, Built, CellAt, Total, HoldoutBase;
    PlanSize(r, seed);
    forall i | 0 <= i < |Plan(r, seed)|
      ensures var c := Plan(r, seed)[i]; FlagsOf(c) && (c.requiresSelections <==> i >= HoldoutBase(r))
    {
      PlanAt(r, seed, i);
      var (arm, s) := CellAt(r, i);
      BuiltShape(r, seed, arm, s);
    }
  }

  /** No FIT or GATE task is also a holdout task. */
  predicate HoldoutDisjoint(r: Roster) {
    && (forall t :: t in r.fit ==> t !in r.holdout)
    && (forall t :: t in r.gate ==> t !in r.holdout)
  }

  /** The task of a built call, by stage. */
  lemma BuiltTask(r: Roster, seed: SeedFunction, arm: Arm, s: nat)
    requires s < ArmSize(r, arm)
    ensures var task := Built(r, seed, arm, s).task;
            if Position(r, arm, s) >= HoldoutBase(r) then task.Some? && task.value in r.holdout
            else task.Some? ==> task.value in r.fit || task.value in r.gate
  {
    hide AllGateIds, ParentIds, CandidateIds, Position;
    PositionBarrier(r, arm, s);
    if arm == PURE_AT_B {
      SampleShape(r, seed, |r.holdout|, s);
    }
  }

  lemma PlanTask(r: Roster, seed: SeedFunction, i: nat)
    requires i < Total(r)
    ensures |Plan(r, seed)| == Total(r)
    ensures var task := Plan(r, seed)[i].task;
            if i >= HoldoutBase(r) then task.Some? && task.value in r.holdout
            else task.Some? ==> task.value in r.fit || task.value in r.gate
  {
    hide Plan, Position, Built, CellAt, Total, HoldoutBase;
    PlanAt(r, seed, i);
    var (arm, s) := CellAt(r, i);
    BuiltTask(r, seed, arm, s);
    assert Position(r, arm, s) == i;
  }

  lemma FitAt(r: Roster, seed: SeedFunction, arm: Arm, i: nat)
    requires i < |r.fit|
    ensures AdaptiveAt(r, seed, arm, i).task == Some(r.fit[i])
  {
  }

  lemma NotHeldOut(r: Roster, t: TaskId)
    requires HoldoutDisjoint(r) && (t in r.fit || t in r.gate)
    ensures t !in r.holdout
  {
  }

  lemma DisjointCloses(r: Roster, seed: SeedFunction)
    requires HoldoutDisjoint(r)
    ensures BarrierCloses(r, Plan(r, seed))
  {
    hide Plan, HoldoutBase, Total;
    PlanSize(r, seed);
    forall i | 0 <= i < |Plan(r, seed)|
      ensures (Plan(r, seed)[i].task.Some? && Plan(r, seed)[i].task.value in r.holdout) <==> i >= HoldoutBase(r)
    {
      PlanTask(r, seed, i);
      var task := Plan(r, seed)[i].task;
      if i < HoldoutBase(r) && task.Some? {
        NotHeldOut(r, task.value);
      }
    }
  }

  lemma BarrierExactly(r: Roster, seed: SeedFunction)
    ensures BarrierCloses(r, Plan(r, seed)) <==> HoldoutDisjoint(r)
  {
    hide Plan, AdaptiveAt, Total;
    if HoldoutDisjoint(r) {
      DisjointCloses(r, seed);
    }
    if BarrierCloses(r, Plan(r, seed)) {
      forall t | t in r.fit
        ensures t !in r.holdout
      {
        var i :| 0 <= i < |r.fit| && r.fit[i] == t;
        FitAt(r, seed, SCORE, i);
        SearchTask(r, seed, i, t);
      }
      forall t | t in r.gate
        ensures t !in r.holdout
      {
        var i :| 0 <= i < |r.gate| && r.gate[i] == t;
        GateAt(r, seed, SCORE, i, 0);
        SearchTask(r, seed, GateStart(r) + 4 * i, t);
      }
    }
  }

  /** Every FIT and GATE task has a SCORE call before the barrier. */
  lemma SearchTask(r: Roster, seed: SeedFunction, s: nat, t: TaskId)
    requires s < HoldoutStart(r) && AdaptiveAt(r, seed, SCORE, s).task == Some(t)
    ensures exists i :: 0 <= i < |Plan(r, seed)| && i < HoldoutBase(r) && Plan(r, seed)[i].task == Some(t)
  {
    hide Plan, Position, CellAt, Total, HoldoutBase, AdaptiveAt;
    PlanSize(r, seed);
    PositionRoundTrip(r, SCORE, s);
    PositionBarrier(r, SCORE, s);
    PlanAt(r, seed, Position(r, SCORE, s));
    assert Built(r, seed, SCORE, s) == AdaptiveAt(r, seed, SCORE, s);
  }

  lemma NormalizedLists(r: Roster)
    ensures NormalizedAll(ParentIds(r, SCORE)) == NormalizedAll(ParentIds(r, FULL))
    ensures NormalizedAll(CandidateIds(r, SCORE)) == NormalizedAll(CandidateIds(r, FULL))
    ensures NormalizedAll([DiagnosisId(r, SCORE)]) == NormalizedAll([DiagnosisId(r, FULL)])
  {
  }

  lemma AdaptivePaired(r: Roster, seed: SeedFunction, s: nat)
    requires s < AdaptiveSize(r)
    ensures Paired(AdaptiveAt(r, seed, SCORE, s), AdaptiveAt(r, seed, FULL, s))
  {
    hide AllGateIds, ParentIds, CandidateIds, NormalizedAll;
    NormalizedLists(r);
  }

  lemma PlanPairingCloses(r: Roster, seed: SeedFunction)
    ensures PairingCloses(ArmsIn(Plan(r, seed)))
  {
    hide Plan, ArmsIn, Position, AdaptiveAt, NormalizedAll;
    PlanSized(r, seed);
    var a := ArmsIn(Plan(r, seed));
    forall s | 0 <= s < |a.score|
      ensures Paired(a.score[s], a.full[s])
    {
      SeenCall(r, seed, SCORE, s);
      SeenCall(r, seed, FULL, s);
      AdaptivePaired(r, seed, s);
    }
  }

  /** The seeds of built adaptive calls, by stage. */
  lemma AdaptiveSeeds(r: Roster, seed: SeedFunction, arm: Arm)
    ensures forall i :: 0 <= i < |r.fit| ==>
              AdaptiveAt(r, seed, arm, i).seed == AdaptiveAt(r, seed, arm, CandidateStart(r) + i).seed
              == seed(AdaptiveFit(r.fit[i]))
    ensures forall i :: 0 <= i < |r.holdout| ==>
              AdaptiveAt(r, seed, arm, HoldoutStart(r) + i).seed == seed(MatchedHoldout(r.holdout[i]))
  {
    hide AllGateIds, ParentIds, CandidateIds;
  }

  lemma SharedGateSeed(r: Roster, seed: SeedFunction, arm: Arm, t: nat, v: nat)
    requires t < |r.gate| && v < 4
    ensures AdaptiveAt(r, seed, arm, GateStart(r) + 4 * t + v).seed == seed(AdaptiveGate(r.gate[t]))
  {
    GateAt(r, seed, arm, t, v);
  }

  lemma SeenFitSeeds(r: Roster, seed: SeedFunction, i: nat)
    requires i < |r.fit|
    ensures var score := ArmList(ArmsIn(Plan(r, seed)), SCORE);
            |score| == AdaptiveSize(r) && score[i].seed == score[CandidateStart(r) + i].seed
  {
    hide Plan, ArmsIn, Position, AdaptiveAt;
    AdaptiveSeeds(r, seed, SCORE);
    SeenCall(r, seed, SCORE, i);
    SeenCall(r, seed, SCORE, CandidateStart(r) + i);
  }

  lemma SeenHoldoutSeeds(r: Roster, seed: SeedFunction, arm: Arm, i: nat)
    requires i < |r.holdout| && arm != PURE_AT_B
    ensures |ArmList(ArmsIn(Plan(r, seed)), arm)| == ArmSize(r, arm)
    ensures ArmList(ArmsIn(Plan(r, seed)), arm)[if IsAdaptive(arm) then HoldoutStart(r) + i else i].seed
         == seed(MatchedHoldout(r.holdout[i]))
  {
    hide Plan, ArmsIn, Position, AdaptiveAt, AllGateIds;
    AdaptiveSeeds(r, seed, arm);
    SeenCall(r, seed, arm, if IsAdaptive(arm) then HoldoutStart(r) + i else i);
  }

  lemma PlanSeedsClose(r: Roster, seed: SeedFunction)
    ensures Sized(r, ArmsIn(Plan(r, seed))) && SeedsClose(r, ArmsIn(Plan(r, seed)))
  {
    hide Plan, ArmsIn;
    PlanSized(r, seed);
    var a := ArmsIn(Plan(r, seed));
    forall i | 0 <= i < |r.fit|
      ensures FitSeedShared(r, a, i)
    {
      SeenFitSeeds(r, seed, i);
    }
    forall t, v | 0 <= t < |r.gate| && 0 <= v < 4
      ensures GateSeedShared(r, a, t, v)
    {
      SeenGateSeed(r, seed, SCORE, t, v);
      SeenGateSeed(r, seed, SCORE, t, 0);
      SeenGateSeed(r, seed, FULL, t, v);
      SeenGateSeed(r, seed, FULL, t, 0);
    }
    forall i | 0 <= i < |r.holdout|
      ensures HoldoutSeedShared(r, a, i)
    {
      SeenHoldoutSeeds(r, seed, PURE, i);
      SeenHoldoutSeeds(r, seed, STATIC, i);
      SeenHoldoutSeeds(r, seed, SCORE, i);
      SeenHoldoutSeeds(r, seed, FULL, i);
    }
  }

  lemma SeenGateSeed(r: Roster, seed: SeedFunction, arm: Arm, t: nat, v: nat)
    requires IsAdaptive(arm) && t < |r.gate| && v < 4
    ensures |ArmList(ArmsIn(Plan(r, seed)), arm)| == AdaptiveSize(r)
    ensures ArmList(ArmsIn(Plan(r, seed)), arm)[GateStart(r) + 4 * t + v].seed == seed(AdaptiveGate(r.gate[t]))
  {
    hide Plan, ArmsIn, Position, AdaptiveAt;
    SeenCall(r, seed, arm, GateStart(r) + 4 * t + v);
    SharedGateSeed(r, seed, arm, t, v);
  }

  // ---------------------------------------------------------------- sample seeds

  /** The seed function tells PURE@B coordinates of the roster apart. */
  ghost predicate SampleSeedsSeparate(r: Roster, seed: SeedFunction) {
    forall t: nat, s: nat, t': nat, s': nat ::
      (t < |r.holdout| && t' < |r.holdout| && s < SampleCount(t) && s' < SampleCount(t')
       && SampleSeed(r, seed, t, s) == SampleSeed(r, seed, t', s')) ==> t == t' && s == s'
  }

  function SampleSeed(r: Roster, seed: SeedFunction, t: nat, s: nat): int
    requires t < |r.holdout|
  {
    seed(PureSample(r.holdout[t], s))
  }

  lemma {:induction false} SampleCell(r: Roster, seed: SeedFunction, n: nat, i: nat) returns (t: nat, s: nat)
    requires n <= |r.holdout| && i < SamplesBefore(n)
    ensures t < n && s < SampleCount(t) && i == SamplesBefore(t) + s
    ensures Samples(r, seed, n)[i].seed == SampleSeed(r, seed, t, s)
    decreases n
  {
    hide AllGateIds;
    if i < SamplesBefore(n - 1) {
      t, s := SampleCell(r, seed, n - 1, i);
    } else {
      t, s := n - 1, i - SamplesBefore(n - 1);
      assert Samples(r, seed, n)[i] == SampleRow(r, seed, n - 1, SampleCount(n - 1))[s];
    }
  }

  lemma {:induction false} SamplesGrow(t: nat, n: nat)
    requires t < n
    ensures SamplesBefore(t) + SampleCount(t) <= SamplesBefore(n)
    decreases n
  {
    if t < n - 1 {
      SamplesGrow(t, n - 1);
    }
  }

  lemma SampleAt(r: Roster, seed: SeedFunction, t: nat, s: nat)
    requires t < |r.holdout| && s < SampleCount(t)
    ensures SamplesBefore(t) + s < SamplesBefore(|r.holdout|)
    ensures Samples(r, seed, |r.holdout|)[SamplesBefore(t) + s].seed == SampleSeed(r, seed, t, s)
  {
    SamplesGrow(t, |r.holdout|);
    var t', s' := SampleCell(r, seed, |r.holdout|, SamplesBefore(t) + s);
    if t < t' {
      SamplesGrow(t, t');
    } else if t' < t {
      SamplesGrow(t', t);
    }
  }

  lemma SamplesExactly(r: Roster, seed: SeedFunction)
    ensures SamplesDiffer(ArmsIn(Plan(r, seed))) <==> SampleSeedsSeparate(r, seed)
  {
    hide Plan, ArmsIn, Position, Samples, SampleSeed, SamplesBefore;
    PlanSized(r, seed);
    var seen, n := ArmsIn(Plan(r, seed)).pureAtB, |r.holdout|;
    forall i | 0 <= i < |seen|
      ensures seen[i].seed == Samples(r, seed, n)[i].seed
    {
      SeenCall(r, seed, PURE_AT_B, i);
    }
    if SampleSeedsSeparate(r, seed) {
      forall i, j | 0 <= i < j < |seen|
        ensures seen[i].seed != seen[j].seed
      {
        var t, s := SampleCell(r, seed, n, i);
        var t', s' := SampleCell(r, seed, n, j);
      }
    }
    if SamplesDiffer(ArmsIn(Plan(r, seed))) {
      forall t: nat, s: nat, t': nat, s': nat |
        t < n && t' < n && s < SampleCount(t) && s' < SampleCount(t')
        && SampleSeed(r, seed, t, s) == SampleSeed(r, seed, t', s')
        ensures t == t' && s == s'
      {
        SampleAt(r, seed, t, s);
        SampleAt(r, seed, t', s');
        SamePosition(t, s, t', s');
      }
    }
  }

  lemma SamePosition(t: nat, s: nat, t': nat, s': nat)
    requires s < SampleCount(t) && s' < SampleCount(t')
    ensures SamplesBefore(t) + s == SamplesBefore(t') + s' ==> t == t' && s == s'
  {
    if t < t' {
      SamplesGrow(t, t');
    } else if t' < t {
      SamplesGrow(t', t);
    }
  }

  /**
   The built plan passes the whole structural validator for every roster and seed function,
   exactly when no search task is a holdout task and the seed function separates PURE@B samples.
   */
  lemma PlanClosesExactly(r: Roster, seed: SeedFunction)
    ensures PlanCloses(r, Plan(r, seed)) <==> HoldoutDisjoint(r) && SampleSeedsSeparate(r, seed)
  {
    hide Plan, ArmsIn, GlobalCloses, DependenciesClose, FlagsClose, BarrierCloses, PairingCloses, SeedsClose;
    hide SamplesDiffer, SampleSeedsSeparate, HoldoutDisjoint;
    PlanGlobalCloses(r, seed);
    PlanArmsClose(r, seed);
    PlanDependenciesClose(r, seed);
    PlanFlagsClose(r, seed);
    BarrierExactly(r, seed);
    PlanPairingCloses(r, seed);
    PlanSeedsClose(r, seed);
    SamplesExactly(r, seed);
  }

  // ---------------------------------------------------------------- the frozen schedule

  /** The frozen roster: five FIT, two GATE and eight holdout tasks. */
  predicate FrozenRoster(r: Roster) {
    |r.fit| == 5 && |r.gate| == 2 && |r.holdout| == 8
  }

  lemma FrozenSamples()
    ensures SamplesBefore(8) == 28
  {
    assert SamplesBefore(4) == 16;
    assert SamplesBefore(6) == 22;
  }

  lemma FrozenCell(r: Roster, i: nat)
    requires FrozenRoster(r) && i < 100
    ensures Total(r) == 100 && HoldoutBase(r) == 40
    ensures CellAt(r, i).0 == SlotArm(i)
  {
    FrozenSamples();
  }

  lemma FrozenKind(r: Roster, seed: SeedFunction, i: nat)
    requires FrozenRoster(r) && i < 100 && Total(r) == 100
    ensures |Plan(r, seed)| == Total(r) && Plan(r, seed)[i].kind == SlotKind(i)
  {
    hide Plan, Built, AdaptiveAt, AllGateIds, FlagsOf;
    PlanAt(r, seed, i);
    var (arm, s) := CellAt(r, i);
    if IsAdaptive(arm) {
      AdaptiveKind(r, seed, arm, s);
      BuiltAdaptive(r, seed, arm, s);
    } else {
      BuiltLate(r, seed, arm, s);
    }
  }

  /** With the frozen roster the built plan has the shape every journal transition relies on. */
  lemma FrozenPlanHasRunShape(r: Roster, seed: SeedFunction, fingerprint: int, outerSeed: int)
    requires FrozenRoster(r)
    ensures RunShape(CallPlan(fingerprint, outerSeed, Plan(r, seed)))
  {
    hide Plan, CellAt, Total, HoldoutBase, SlotArm, SlotKind;
    var calls := Plan(r, seed);
    FrozenCell(r, 0);
    PlanSize(r, seed);
    PlanFlagsClose(r, seed);
    forall i | 0 <= i < 100
      ensures SlotShape(calls[i], i)
    {
      FrozenCell(r, i);
      PlanAt(r, seed, i);
      FrozenKind(r, seed, i);
    }
  }
}
