/** What a built pilot plan says, on its calls alone. */
module PilotMeaning {
  import opened Prelude
  import opened PilotContracts
  import opened PilotPlan
  import opened PilotOrder
  import opened PilotClose

  // ---------------------------------------------------------------- which calls there are

  /** The first four tasks have four samples each, every later one three. */
  function TaskOfSample(k: nat): nat {
    if k < 16 then k / 4 else 4 + (k - 16) / 3
  }

  function IndexOfSample(k: nat): nat {
    if k < 16 then k % 4 else (k - 16) % 3
  }

  predicate AtTask(tasks: seq<TaskId>, t: int, task: Option<TaskId>) {
    0 <= t < |tasks| && task == Some(tasks[t])
  }

  /** The calls of a pilot: which slot of which arm holds which kind of call, on which task, with which variant. */
  predicate IsCall(r: Roster, id: CallId) {
    var f, g, k := |r.fit|, 4 * |r.gate|, id.armSlot;
    match id.kind
    case PARENT_FIT => IsAdaptive(id.arm) && AtTask(r.fit, k, id.task) && id.variant == Parent
    case DIAGNOSIS => IsAdaptive(id.arm) && k == f && id.task == None && id.variant == DiagnosticController
    case PROPOSAL => IsAdaptive(id.arm) && k == f + 1 && id.task == None && id.variant == ProposalController
    case CANDIDATE_FIT => IsAdaptive(id.arm) && AtTask(r.fit, k - (f + 2), id.task) && id.variant == Candidate
    case GATE =>
      var j := k - (2 * f + 2);
      && IsAdaptive(id.arm) && 0 <= j && AtTask(r.gate, j / 4, id.task)
      && id.variant == match j % 4 { case 0 => Parent case 1 => Candidate case 2 => Revert case _ => Placebo }
    case HOLDOUT =>
      && id.arm != PURE_AT_B
      && AtTask(r.holdout, if IsAdaptive(id.arm) then k - (2 * f + 2 + g) else k, id.task)
      && id.variant == match id.arm { case PURE => Bare case STATIC => StaticFrozen case _ => SelectedOrFallback }
    case PURE_AT_B_SAMPLE =>
      id.arm == PURE_AT_B && AtTask(r.holdout, TaskOfSample(k), id.task) && id.variant == BareSample(IndexOfSample(k))
    case BASELINE => false
  }

  /** An arm slot holds one call. */
  lemma OneCallASlot(r: Roster, a: CallId, b: CallId)
    requires IsCall(r, a) && IsCall(r, b) && a.arm == b.arm && a.armSlot == b.armSlot
    ensures a == b
  {
  }

  lemma CallInArm(r: Roster, id: CallId)
    requires IsCall(r, id)
    ensures id.armSlot < ArmSize(r, id.arm)
  {
    SamplesClosed(|r.holdout|);
  }

  lemma {:induction false} SamplesClosed(t: nat)
    ensures SamplesBefore(t) == if t <= 4 then 4 * t else 3 * t + 4
    decreases t
  {
    if t > 0 {
      SamplesClosed(t - 1);
    }
  }

  lemma {:induction false} SampleOfSlot(r: Roster, seed: SeedFunction, n: nat, k: nat)
    requires n <= |r.holdout| && k < SamplesBefore(n)
    ensures TaskOfSample(k) < |r.holdout|
    ensures Samples(r, seed, n)[k] == SampleSlot(r, seed, TaskOfSample(k), IndexOfSample(k)).(armSlot := k, callId :=
              CallId(PURE_AT_B, k, PURE_AT_B_SAMPLE, Some(r.holdout[TaskOfSample(k)]), BareSample(IndexOfSample(k))))
    decreases n
  {
    hide AllGateIds;
    SamplesClosed(n - 1);
    if k < SamplesBefore(n - 1) {
      SampleOfSlot(r, seed, n - 1, k);
    } else {
      var s := k - SamplesBefore(n - 1);
      assert Samples(r, seed, n)[k] == SampleRow(r, seed, n - 1, SampleCount(n - 1))[s];
      assert TaskOfSample(k) == n - 1 && IndexOfSample(k) == s;
    }
  }

  // ---------------------------------------------------------------- what a call says

  /** Everything a call carries beside its place and its dependencies, from its coordinates. */
  ghost predicate CallSays(seed: SeedFunction, c: CallSlot) {
    && c.callId == CallId(c.arm, c.armSlot, c.kind, c.task, c.variant)
    && (c.feedback == ScoreOnly <==> (c.kind == DIAGNOSIS || c.kind == PROPOSAL) && c.arm == SCORE)
    && (c.feedback == CandidateSafeFull <==> (c.kind == DIAGNOSIS || c.kind == PROPOSAL) && c.arm == FULL)
    && (c.graderFeedback <==> c.kind == DIAGNOSIS || c.kind == PROPOSAL)
    && (c.requiresCandidates <==> c.kind == CANDIDATE_FIT)
    && (c.requiresSelections <==> c.kind == HOLDOUT || c.kind == PURE_AT_B_SAMPLE)
    && match c.kind
       case PARENT_FIT => c.task.Some? && c.seed == seed(AdaptiveFit(c.task.value))
       case DIAGNOSIS => c.seed == seed(ControllerDiagnosis)
       case PROPOSAL => c.seed == seed(ControllerProposal)
       case CANDIDATE_FIT => c.task.Some? && c.seed == seed(AdaptiveFit(c.task.value))
       case GATE => c.task.Some? && c.seed == seed(AdaptiveGate(c.task.value))
       case HOLDOUT => c.task.Some? && c.seed == seed(MatchedHoldout(c.task.value))
       case PURE_AT_B_SAMPLE =>
         c.task.Some? && c.variant.BareSample? && c.seed == seed(PureSample(c.task.value, c.variant.index))
       case BASELINE => false
  }

  ghost predicate SaysAt(r: Roster, seed: SeedFunction, arm: Arm, s: nat, c: CallSlot) {
    c.arm == arm && c.armSlot == s && CallSays(seed, c) && IsCall(r, c.callId)
  }

  lemma AdaptiveSays(r: Roster, seed: SeedFunction, arm: Arm, s: nat)
    requires s < AdaptiveSize(r) && IsAdaptive(arm)
    ensures SaysAt(r, seed, arm, s, AdaptiveAt(r, seed, arm, s))
  {
    hide AllGateIds, ParentIds, CandidateIds;
  }

  lemma BaselineSays(r: Roster, seed: SeedFunction, arm: Arm, s: nat)
    requires s < |r.holdout| && (arm == PURE || arm == STATIC)
    ensures SaysAt(r, seed, arm, s, Built(r, seed, arm, s))
  {
    hide AllGateIds, Adaptive, Samples;
  }

  lemma SampleSays(r: Roster, seed: SeedFunction, s: nat)
    requires s < SamplesBefore(|r.holdout|)
    ensures SaysAt(r, seed, PURE_AT_B, s, Built(r, seed, PURE_AT_B, s))
  {
    hide AllGateIds, Adaptive, Samples, TaskOfSample, IndexOfSample;
    SampleOfSlot(r, seed, |r.holdout|, s);
  }

  lemma BuiltSays(r: Roster, seed: SeedFunction, arm: Arm, s: nat)
    requires s < ArmSize(r, arm)
    ensures SaysAt(r, seed, arm, s, Built(r, seed, arm, s))
  {
    hide AdaptiveAt, Built, SaysAt;
    if IsAdaptive(arm) {
      BuiltAdaptive(r, seed, arm, s);
      AdaptiveSays(r, seed, arm, s);
    } else if arm == PURE_AT_B {
      SampleSays(r, seed, s);
    } else {
      BaselineSays(r, seed, arm, s);
    }
  }

  /** The calls of a plan say what their coordinates ask for, and stand in a slot of their own. */
  lemma PlanSays(r: Roster, seed: SeedFunction, i: nat)
    requires i < |Plan(r, seed)|
    ensures Plan(r, seed)[i].globalSlot == i
    ensures CallSays(seed, Plan(r, seed)[i]) && IsCall(r, Plan(r, seed)[i].callId)
  {
    hide Plan, CellAt, Position, Built, ArmSize, Total, IsCall;
    PlanSize(r, seed);
    PlanAt(r, seed, i);
    var (arm, s) := CellAt(r, i);
    BuiltSays(r, seed, arm, s);
  }

  /** The plan has exactly these calls. */
  lemma CallsExactly(r: Roster, seed: SeedFunction, id: CallId)
    ensures id in IdsOf(Plan(r, seed)) <==> IsCall(r, id)
  {
    hide Plan, CellAt, Position, Built, ArmSize, Total, IsCall;
    var ids := IdsOf(Plan(r, seed));
    if id in ids {
      var i :| 0 <= i < |ids| && ids[i] == id;
      PlanSays(r, seed, i);
    }
    if IsCall(r, id) {
      CallInArm(r, id);
      PositionRoundTrip(r, id.arm, id.armSlot);
      var i := Position(r, id.arm, id.armSlot);
      PlanAt(r, seed, i);
      BuiltSays(r, seed, id.arm, id.armSlot);
      OneCallASlot(r, ids[i], id);
    }
  }

  // ---------------------------------------------------------------- in which order

  /** The stages of the global order. */
  function Stage(kind: CallKind): nat {
    match kind
    case PARENT_FIT => 1
    case DIAGNOSIS => 2
    case PROPOSAL => 3
    case CANDIDATE_FIT => 4
    case GATE => 5
    case HOLDOUT => 6
    case PURE_AT_B_SAMPLE => 7
    case BASELINE => 0
  }

  function Rank(arm: Arm): nat {
    match arm
    case PURE => 1
    case STATIC => 2
    case SCORE => 3
    case FULL => 4
    case PURE_AT_B => 5
  }

  /** Stage by stage, within a stage arm by arm, within an arm slot by slot. */
  predicate Before(a: CallId, b: CallId) {
    || Stage(a.kind) < Stage(b.kind)
    || (Stage(a.kind) == Stage(b.kind) && Rank(a.arm) < Rank(b.arm))
    || (Stage(a.kind) == Stage(b.kind) && a.arm == b.arm && a.armSlot < b.armSlot)
  }

  function StageStart(r: Roster, stage: nat): nat {
    var f := |r.fit|;
    match stage
    case 1 => 0
    case 2 => 2 * f
    case 3 => 2 * f + 2
    case 4 => 2 * f + 4
    case 5 => 4 * f + 4
    case 6 => HoldoutBase(r)
    case _ => HoldoutBase(r) + 4 * |r.holdout|
  }

  lemma PlaceInStage(r: Roster, a: CallId)
    requires IsCall(r, a)
    ensures 1 <= Stage(a.kind) <= 7 && StageStart(r, Stage(a.kind)) <= Position(r, a.arm, a.armSlot)
    ensures Stage(a.kind) < 7 ==> Position(r, a.arm, a.armSlot) < StageStart(r, Stage(a.kind) + 1)
  {
  }

  lemma StagesFollow(r: Roster, s: nat, t: nat)
    requires 1 <= s < t <= 7
    ensures StageStart(r, s + 1) <= StageStart(r, t)
  {
  }

  lemma StageKind(a: CallKind, b: CallKind)
    requires Stage(a) == Stage(b)
    ensures a == b
  {
  }

  lemma PlacesInStage(r: Roster, a: CallId, b: CallId)
    requires IsCall(r, a) && IsCall(r, b) && a.kind == b.kind
    requires Position(r, a.arm, a.armSlot) < Position(r, b.arm, b.armSlot)
    ensures Before(a, b)
  {
    if b.arm == a.arm && b.armSlot < a.armSlot {
      CallInArm(r, a);
      PositionIncreases(r, a.arm, b.armSlot, a.armSlot);
    } else if b.arm != a.arm {
      ArmsInStage(r, a, b);
    }
  }

  lemma ArmsInStage(r: Roster, a: CallId, b: CallId)
    requires IsCall(r, a) && IsCall(r, b) && a.kind == b.kind && a.arm != b.arm
    requires Position(r, a.arm, a.armSlot) < Position(r, b.arm, b.armSlot)
    ensures Rank(a.arm) < Rank(b.arm)
  {
    hide TaskOfSample, IndexOfSample, SamplesBefore;
  }

  /** Places follow the order of the calls. */
  lemma PlacesFollow(r: Roster, a: CallId, b: CallId)
    requires IsCall(r, a) && IsCall(r, b) && Position(r, a.arm, a.armSlot) < Position(r, b.arm, b.armSlot)
    ensures Before(a, b)
  {
    hide Position, IsCall, Stage, StageStart;
    PlaceInStage(r, a);
    PlaceInStage(r, b);
    if Stage(b.kind) < Stage(a.kind) {
      StagesFollow(r, Stage(b.kind), Stage(a.kind));
    } else if Stage(a.kind) == Stage(b.kind) {
      StageKind(a.kind, b.kind);
      PlacesInStage(r, a, b);
    }
  }

  /** The plan lists its calls in ascending order. */
  lemma PlanAscends(r: Roster, seed: SeedFunction, i: nat, j: nat)
    requires i < j < |Plan(r, seed)|
    ensures Before(Plan(r, seed)[i].callId, Plan(r, seed)[j].callId)
  {
    hide Plan, CellAt, Position, Built, ArmSize, Total, IsCall, Before;
    PlanSize(r, seed);
    PlanAt(r, seed, i);
    PlanAt(r, seed, j);
    PlanSays(r, seed, i);
    PlanSays(r, seed, j);
    PlacesFollow(r, Plan(r, seed)[i].callId, Plan(r, seed)[j].callId);
  }

  // ---------------------------------------------------------------- which calls share a seed

  predicate IsFit(kind: CallKind) {
    kind == PARENT_FIT || kind == CANDIDATE_FIT
  }

  predicate SharesSeed(a: CallSlot, b: CallSlot) {
    || (IsFit(a.kind) && IsFit(b.kind) && a.task == b.task)
    || (a.kind == b.kind == GATE && a.task == b.task)
    || (a.kind == b.kind == HOLDOUT && a.task == b.task)
    || a.kind == b.kind == DIAGNOSIS
    || a.kind == b.kind == PROPOSAL
    || (a.kind == b.kind == PURE_AT_B_SAMPLE && a.task == b.task && a.variant == b.variant)
  }

  ghost predicate SeparatesSeeds(seed: SeedFunction) {
    forall x, y :: seed(x) == seed(y) ==> x == y
  }

  /** Calls that are paired share their seed, and under a seed function without collisions no others do. */
  lemma SeedsExactly(r: Roster, seed: SeedFunction, i: nat, j: nat)
    requires i < |Plan(r, seed)| && j < |Plan(r, seed)|
    ensures SharesSeed(Plan(r, seed)[i], Plan(r, seed)[j]) ==> Plan(r, seed)[i].seed == Plan(r, seed)[j].seed
    ensures SeparatesSeeds(seed) && Plan(r, seed)[i].seed == Plan(r, seed)[j].seed
        ==> SharesSeed(Plan(r, seed)[i], Plan(r, seed)[j])
  {
    hide Plan, IsCall;
    PlanSays(r, seed, i);
    PlanSays(r, seed, j);
  }

  // ---------------------------------------------------------------- what a call waits for

  /** The barrier in front of a call: its own arm while the arms search apart, both arms once they are compared. */
  predicate Awaits(reader: CallId, source: CallId) {
    match reader.kind
    case PARENT_FIT => false
    case DIAGNOSIS => source.kind == PARENT_FIT && source.arm == reader.arm
    case PROPOSAL => source.kind == DIAGNOSIS && source.arm == reader.arm
    case CANDIDATE_FIT => source.kind == PROPOSAL
    case GATE => source.kind == CANDIDATE_FIT && source.arm == reader.arm
    case HOLDOUT => source.kind == GATE
    case PURE_AT_B_SAMPLE => source.kind == GATE
    case BASELINE => false
  }

  lemma GateListed(r: Roster, d: CallId)
    ensures d in AllGateIds(r) <==> IsCall(r, d) && d.kind == GATE
  {
    var g := 4 * |r.gate|;
    if d in AllGateIds(r) {
      var arm, j := GateIdCell(r, d);
    }
    if IsCall(r, d) && d.kind == GATE {
      var j := d.armSlot - GateStart(r);
      assert d == GateId(r, d.arm, j);
      assert AllGateIds(r)[if d.arm == SCORE then j else g + j] == d;
    }
  }

  lemma ParentListed(r: Roster, arm: Arm, d: CallId)
    requires IsAdaptive(arm)
    ensures d in ParentIds(r, arm) <==> IsCall(r, d) && d.kind == PARENT_FIT && d.arm == arm
  {
    if IsCall(r, d) && d.kind == PARENT_FIT && d.arm == arm {
      assert ParentIds(r, arm)[d.armSlot] == d;
    }
  }

  lemma CandidateListed(r: Roster, arm: Arm, d: CallId)
    requires IsAdaptive(arm)
    ensures d in CandidateIds(r, arm) <==> IsCall(r, d) && d.kind == CANDIDATE_FIT && d.arm == arm
  {
    if IsCall(r, d) && d.kind == CANDIDATE_FIT && d.arm == arm {
      assert CandidateIds(r, arm)[d.armSlot - CandidateStart(r)] == d;
    }
  }

  lemma FitAwaits(r: Roster, seed: SeedFunction, arm: Arm, s: nat, d: CallId)
    requires s < CandidateStart(r) && IsAdaptive(arm)
    ensures var c := AdaptiveAt(r, seed, arm, s); d in c.dependsOn <==> IsCall(r, d) && Awaits(c.callId, d)
  {
    ParentListed(r, arm, d);
    ControllersListed(r, d);
    hide AllGateIds, ParentIds, CandidateIds, IsCall, DiagnosisId, ProposalId;
  }

  lemma CandidateAwaits(r: Roster, seed: SeedFunction, arm: Arm, s: nat, d: CallId)
    requires CandidateStart(r) <= s < AdaptiveSize(r) && IsAdaptive(arm)
    ensures var c := AdaptiveAt(r, seed, arm, s); d in c.dependsOn <==> IsCall(r, d) && Awaits(c.callId, d)
  {
    CandidateListed(r, arm, d);
    GateListed(r, d);
    ControllersListed(r, d);
    hide AllGateIds, ParentIds, CandidateIds, IsCall, DiagnosisId, ProposalId;
  }

  lemma AdaptiveAwaits(r: Roster, seed: SeedFunction, arm: Arm, s: nat, d: CallId)
    requires s < AdaptiveSize(r) && IsAdaptive(arm)
    ensures var c := AdaptiveAt(r, seed, arm, s); d in c.dependsOn <==> IsCall(r, d) && Awaits(c.callId, d)
  {
    hide AdaptiveAt, Awaits, IsCall;
    if s < CandidateStart(r) {
      FitAwaits(r, seed, arm, s, d);
    } else {
      CandidateAwaits(r, seed, arm, s, d);
    }
  }

  lemma ControllersListed(r: Roster, d: CallId)
    ensures IsCall(r, d) && d.kind == DIAGNOSIS <==> d == DiagnosisId(r, SCORE) || d == DiagnosisId(r, FULL)
    ensures IsCall(r, d) && d.kind == PROPOSAL <==> d == ProposalId(r, SCORE) || d == ProposalId(r, FULL)
    ensures DiagnosisId(r, SCORE).arm == SCORE && DiagnosisId(r, FULL).arm == FULL
  {
  }

  lemma BuiltAwaits(r: Roster, seed: SeedFunction, arm: Arm, s: nat, d: CallId)
    requires s < ArmSize(r, arm)
    ensures d in Built(r, seed, arm, s).dependsOn <==> IsCall(r, d) && Awaits(Built(r, seed, arm, s).callId, d)
  {
    hide AllGateIds, AdaptiveAt, Position, Built, IsCall, FlagsOf;
    if IsAdaptive(arm) {
      BuiltAdaptive(r, seed, arm, s);
      AdaptiveAwaits(r, seed, arm, s, d);
    } else {
      GateListed(r, d);
      LateDependencies(r, seed, arm, s);
      BuiltLate(r, seed, arm, s);
      BuiltShape(r, seed, arm, s);
    }
  }

  /** A call depends on exactly the calls it has to wait for. */
  lemma DependenciesExactly(r: Roster, seed: SeedFunction, i: nat, d: CallId)
    requires i < |Plan(r, seed)|
    ensures d in Plan(r, seed)[i].dependsOn <==> d in IdsOf(Plan(r, seed)) && Awaits(Plan(r, seed)[i].callId, d)
  {
    hide Plan, CellAt, Position, Built, ArmSize, Total, IsCall, Awaits;
    PlanSize(r, seed);
    PlanAt(r, seed, i);
    var (arm, s) := CellAt(r, i);
    BuiltAwaits(r, seed, arm, s, d);
    CallsExactly(r, seed, d);
  }
}
