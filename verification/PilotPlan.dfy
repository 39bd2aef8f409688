/**
 Building the pilot's call plan for any roster and any seed function. Each arm is specified
 call by call from its slot number, and the loops that append the calls are proved to produce it.
 */
module PilotPlan {
  import opened Prelude
  import opened PilotContracts

  datatype Roster = Roster(fit: seq<TaskId>, gate: seq<TaskId>, holdout: seq<TaskId>)

  datatype SeedCoordinate =
    | AdaptiveFit(task: TaskId)
    | ControllerDiagnosis
    | ControllerProposal
    | AdaptiveGate(task: TaskId)
    | MatchedHoldout(task: TaskId)
    | PureSample(task: TaskId, sample: nat)

  /** The provider seed of a coordinate under one outer seed. */
  type SeedFunction = SeedCoordinate -> int

  const GATE_VARIANTS: seq<Variant> := [Parent, Candidate, Revert, Placebo]

  // ---------------------------------------------------------------- slot layout of an adaptive arm

  function DiagnosisSlot(r: Roster): nat {
    |r.fit|
  }

  function ProposalSlot(r: Roster): nat {
    |r.fit| + 1
  }

  function CandidateStart(r: Roster): nat {
    |r.fit| + 2
  }

  function GateStart(r: Roster): nat {
    2 * |r.fit| + 2
  }

  function HoldoutStart(r: Roster): nat {
    GateStart(r) + 4 * |r.gate|
  }

  function AdaptiveSize(r: Roster): nat {
    HoldoutStart(r) + |r.holdout|
  }

  // ---------------------------------------------------------------- single slots

  function Slot(
    arm: Arm, armSlot: nat, kind: CallKind, task: Option<TaskId>, variant: Variant, seed: int,
    dependsOn: seq<CallId>, feedback: FeedbackView, candidates: bool, selections: bool, grades: bool): CallSlot
  {
    CallSlot(
      0, arm, armSlot, CallId(arm, armSlot, kind, task, variant), kind, task, variant, feedback, seed, dependsOn,
      candidates, selections, grades)
  }

  function GateId(r: Roster, arm: Arm, j: nat): CallId
    requires j < 4 * |r.gate|
  {
    CallId(arm, GateStart(r) + j, GATE, Some(r.gate[j / 4]), GATE_VARIANTS[j % 4])
  }

  function GateIdsOf(r: Roster, arm: Arm): (ids: seq<CallId>)
    ensures |ids| == 4 * |r.gate| && forall j :: 0 <= j < |ids| ==> ids[j] == GateId(r, arm, j)
  {
    seq(4 * |r.gate|, j requires 0 <= j < 4 * |r.gate| => GateId(r, arm, j))
  }

  /** Every GATE call of both adaptive arms. */
  function AllGateIds(r: Roster): seq<CallId> {
    GateIdsOf(r, SCORE) + GateIdsOf(r, FULL)
  }

  function ParentId(r: Roster, arm: Arm, i: nat): CallId
    requires i < |r.fit|
  {
    CallId(arm, i, PARENT_FIT, Some(r.fit[i]), Parent)
  }

  function CandidateId(r: Roster, arm: Arm, i: nat): CallId
    requires i < |r.fit|
  {
    CallId(arm, CandidateStart(r) + i, CANDIDATE_FIT, Some(r.fit[i]), Candidate)
  }

  function DiagnosisId(r: Roster, arm: Arm): CallId {
    CallId(arm, DiagnosisSlot(r), DIAGNOSIS, None, DiagnosticController)
  }

  function ProposalId(r: Roster, arm: Arm): CallId {
    CallId(arm, ProposalSlot(r), PROPOSAL, None, ProposalController)
  }

  function ParentIds(r: Roster, arm: Arm): (ids: seq<CallId>)
    ensures |ids| == |r.fit| && forall i :: 0 <= i < |ids| ==> ids[i] == ParentId(r, arm, i)
  {
    seq(|r.fit|, i requires 0 <= i < |r.fit| => ParentId(r, arm, i))
  }

  function CandidateIds(r: Roster, arm: Arm): (ids: seq<CallId>)
    ensures |ids| == |r.fit| && forall i :: 0 <= i < |ids| ==> ids[i] == CandidateId(r, arm, i)
  {
    seq(|r.fit|, i requires 0 <= i < |r.fit| => CandidateId(r, arm, i))
  }

  function ViewOf(arm: Arm): FeedbackView {
    if arm == SCORE then ScoreOnly else CandidateSafeFull
  }

  /** The call in position `i` of an adaptive arm. */
  function AdaptiveAt(r: Roster, seed: SeedFunction, arm: Arm, i: nat): CallSlot
    requires i < AdaptiveSize(r)
  {
    if i < DiagnosisSlot(r) then
      Slot(arm, i, PARENT_FIT, Some(r.fit[i]), Parent, seed(AdaptiveFit(r.fit[i])), [], NoFeedback, false, false, false)
    else if i == DiagnosisSlot(r) then
      Slot(
        arm, i, DIAGNOSIS, None, DiagnosticController, seed(ControllerDiagnosis), ParentIds(r, arm), ViewOf(arm),
        false, false, true)
    else if i == ProposalSlot(r) then
      Slot(
        arm, i, PROPOSAL, None, ProposalController, seed(ControllerProposal), [DiagnosisId(r, arm)], ViewOf(arm),
        false, false, true)
    else if i < GateStart(r) then
      var task := r.fit[i - CandidateStart(r)];
      Slot(
        arm, i, CANDIDATE_FIT, Some(task), Candidate, seed(AdaptiveFit(task)),
        [ProposalId(r, SCORE), ProposalId(r, FULL)], NoFeedback, true, false, false)
    else if i < HoldoutStart(r) then
      var j := i - GateStart(r);
      Slot(
        arm, i, GATE, Some(r.gate[j / 4]), GATE_VARIANTS[j % 4], seed(AdaptiveGate(r.gate[j / 4])),
        CandidateIds(r, arm), NoFeedback, false, false, false)
    else
      var task := r.holdout[i - HoldoutStart(r)];
      Slot(
        arm, i, HOLDOUT, Some(task), SelectedOrFallback, seed(MatchedHoldout(task)), AllGateIds(r), NoFeedback,
        false, true, false)
  }

  function Adaptive(r: Roster, seed: SeedFunction, arm: Arm): (calls: seq<CallSlot>)
    ensures |calls| == AdaptiveSize(r)
    ensures forall i :: 0 <= i < |calls| ==> calls[i] == AdaptiveAt(r, seed, arm, i)
  {
    seq(AdaptiveSize(r), i requires 0 <= i < AdaptiveSize(r) => AdaptiveAt(r, seed, arm, i))
  }

  function Baseline(r: Roster, seed: SeedFunction, arm: Arm, variant: Variant): (calls: seq<CallSlot>)
    ensures |calls| == |r.holdout|
    ensures forall i :: 0 <= i < |calls| ==>
              calls[i] == Slot(
                            arm, i, HOLDOUT, Some(r.holdout[i]), variant, seed(MatchedHoldout(r.holdout[i])),
                            AllGateIds(r), NoFeedback, false, true, false)
  {
    seq(|r.holdout|, i requires 0 <= i < |r.holdout| =>
      Slot(
        arm, i, HOLDOUT, Some(r.holdout[i]), variant, seed(MatchedHoldout(r.holdout[i])), AllGateIds(r), NoFeedback,
        false, true, false))
  }

  // ---------------------------------------------------------------- PURE@B

  function SampleCount(t: nat): nat {
    if t < 4 then 4 else 3
  }

  /** Samples of the tasks before `t`. */
  function SamplesBefore(t: nat): nat {
    if t == 0 then 0 else SamplesBefore(t - 1) + SampleCount(t - 1)
  }

  function SampleSlot(r: Roster, seed: SeedFunction, t: nat, s: nat): CallSlot
    requires t < |r.holdout|
  {
    Slot(
      PURE_AT_B, SamplesBefore(t) + s, PURE_AT_B_SAMPLE, Some(r.holdout[t]), BareSample(s),
      seed(PureSample(r.holdout[t], s)), AllGateIds(r), NoFeedback, false, true, false)
  }

  function SampleRow(r: Roster, seed: SeedFunction, t: nat, n: nat): (calls: seq<CallSlot>)
    requires t < |r.holdout|
    ensures |calls| == n && forall s :: 0 <= s < n ==> calls[s] == SampleSlot(r, seed, t, s)
  {
    seq(n, s requires 0 <= s => SampleSlot(r, seed, t, s))
  }

  function Samples(r: Roster, seed: SeedFunction, t: nat): (calls: seq<CallSlot>)
    requires t <= |r.holdout|
    ensures |calls| == SamplesBefore(t)
  {
    if t == 0 then [] else Samples(r, seed, t - 1) + SampleRow(r, seed, t - 1, SampleCount(t - 1))
  }

  // ---------------------------------------------------------------- the global order

  datatype Arms = Arms(
    pure: seq<CallSlot>, static_: seq<CallSlot>, score: seq<CallSlot>, full: seq<CallSlot>, pureAtB: seq<CallSlot>)

  predicate Sized(r: Roster, a: Arms) {
    && |a.score| == |a.full| == AdaptiveSize(r)
    && |a.pure| == |a.static_| == |r.holdout| && |a.pureAtB| == SamplesBefore(|r.holdout|)
  }

  /** FIT, controllers, candidate FIT and GATE of both arms, then everything on the holdout. */
  function SearchOrder(r: Roster, score: seq<CallSlot>, full: seq<CallSlot>): seq<CallSlot>
    requires |score| == |full| == AdaptiveSize(r)
  {
    var f, g, h := DiagnosisSlot(r), GateStart(r), HoldoutStart(r);
    score[..f] + full[..f] + [score[f], full[f], score[f + 1], full[f + 1]]
    + score[f + 2..g] + full[f + 2..g] + score[g..h] + full[g..h]
  }

  function HoldoutOrder(r: Roster, a: Arms): seq<CallSlot>
    requires Sized(r, a)
  {
    a.pure + a.static_ + a.score[HoldoutStart(r)..] + a.full[HoldoutStart(r)..] + a.pureAtB
  }

  function Topological(r: Roster, a: Arms): seq<CallSlot>
    requires Sized(r, a)
  {
    SearchOrder(r, a.score, a.full) + HoldoutOrder(r, a)
  }

  function Numbered(calls: seq<CallSlot>): (numbered: seq<CallSlot>)
    ensures |numbered| == |calls|
    ensures forall i :: 0 <= i < |calls| ==> numbered[i] == calls[i].(globalSlot := i)
  {
    seq(|calls|, i requires 0 <= i < |calls| => calls[i].(globalSlot := i))
  }

  function ArmsOf(r: Roster, seed: SeedFunction): (a: Arms)
    ensures Sized(r, a)
  {
    Arms(
      Baseline(r, seed, PURE, Bare), Baseline(r, seed, STATIC, StaticFrozen), Adaptive(r, seed, SCORE),
      Adaptive(r, seed, FULL), Samples(r, seed, |r.holdout|))
  }

  function Plan(r: Roster, seed: SeedFunction): seq<CallSlot> {
    Numbered(Topological(r, ArmsOf(r, seed)))
  }

  // ---------------------------------------------------------------- the loops

  function IdsOf(calls: seq<CallSlot>): (ids: seq<CallId>)
    ensures |ids| == |calls| && forall i :: 0 <= i < |ids| ==> ids[i] == calls[i].callId
  {
    seq(|calls|, i requires 0 <= i < |calls| => calls[i].callId)
  }

  function OfKind(calls: seq<CallSlot>, kind: CallKind): seq<CallSlot> {
    if calls == [] then []
    else
      var last := calls[|calls| - 1];
      OfKind(calls[..|calls| - 1], kind) + if last.kind == kind then [last] else []
  }

  /** `calls` is the first part of the arm. */
  ghost predicate Part(r: Roster, seed: SeedFunction, arm: Arm, calls: seq<CallSlot>) {
    && |calls| <= AdaptiveSize(r)
    && forall i :: 0 <= i < |calls| ==> calls[i] == AdaptiveAt(r, seed, arm, i)
  }

  lemma PartGrows(r: Roster, seed: SeedFunction, arm: Arm, calls: seq<CallSlot>, next: CallSlot)
    requires Part(r, seed, arm, calls) && |calls| < AdaptiveSize(r) && next == AdaptiveAt(r, seed, arm, |calls|)
    ensures Part(r, seed, arm, calls + [next])
  {
    hide AdaptiveAt;
  }

  /** Kinds follow the layout of the arm. */
  function KindAt(r: Roster, i: nat): CallKind {
    if i < DiagnosisSlot(r) then PARENT_FIT
    else if i == DiagnosisSlot(r) then DIAGNOSIS
    else if i == ProposalSlot(r) then PROPOSAL
    else if i < GateStart(r) then CANDIDATE_FIT
    else if i < HoldoutStart(r) then GATE
    else HOLDOUT
  }

  lemma AdaptiveKind(r: Roster, seed: SeedFunction, arm: Arm, i: nat)
    requires i < AdaptiveSize(r)
    ensures AdaptiveAt(r, seed, arm, i).kind == KindAt(r, i)
    ensures AdaptiveAt(r, seed, arm, i).arm == arm && AdaptiveAt(r, seed, arm, i).armSlot == i
    ensures var c := AdaptiveAt(r, seed, arm, i); c.callId == CallId(c.arm, c.armSlot, c.kind, c.task, c.variant)
  {
  }

  lemma {:induction false} CandidatesOfPart(r: Roster, seed: SeedFunction, arm: Arm, calls: seq<CallSlot>)
    requires Part(r, seed, arm, calls) && |calls| <= GateStart(r)
    ensures |calls| <= CandidateStart(r) ==> OfKind(calls, CANDIDATE_FIT) == []
    ensures CandidateStart(r) < |calls| ==> OfKind(calls, CANDIDATE_FIT) == calls[CandidateStart(r)..]
    decreases |calls|
  {
    hide AdaptiveAt;
    if calls != [] {
      var shorter := calls[..|calls| - 1];
      CandidatesOfPart(r, seed, arm, shorter);
      AdaptiveKind(r, seed, arm, |calls| - 1);
      if CandidateStart(r) < |calls| {
        assert calls[CandidateStart(r)..] == shorter[CandidateStart(r)..] + [calls[|calls| - 1]];
      }
    }
  }

  lemma GateIds(r: Roster, seed: SeedFunction, arm: Arm, calls: seq<CallSlot>)
    requires Part(r, seed, arm, calls) && |calls| == GateStart(r)
    ensures IdsOf(OfKind(calls, CANDIDATE_FIT)) == CandidateIds(r, arm)
  {
    CandidatesOfPart(r, seed, arm, calls);
    hide OfKind;
    var ids := IdsOf(calls[CandidateStart(r)..]);
    forall i | 0 <= i < |r.fit|
      ensures ids[i] == CandidateId(r, arm, i)
    {
      assert calls[CandidateStart(r)..][i] == AdaptiveAt(r, seed, arm, CandidateStart(r) + i);
    }
    if |r.fit| == 0 {
      assert OfKind(calls, CANDIDATE_FIT) == [];
    }
  }

  method FitCalls(r: Roster, seed: SeedFunction, arm: Arm) returns (calls: seq<CallSlot>)
    ensures Part(r, seed, arm, calls) && |calls| == |r.fit|
  {
    calls := [];
    for index := 0 to |r.fit|
      invariant |calls| == index && Part(r, seed, arm, calls)
    {
      calls := calls + [
        Slot(
          arm, index, PARENT_FIT, Some(r.fit[index]), Parent, seed(AdaptiveFit(r.fit[index])), [], NoFeedback,
          false, false, false)];
    }
  }

  method CandidateCalls(r: Roster, seed: SeedFunction, arm: Arm, before: seq<CallSlot>) returns (calls: seq<CallSlot>)
    requires Part(r, seed, arm, before) && |before| == CandidateStart(r)
    ensures Part(r, seed, arm, calls) && |calls| == GateStart(r)
  {
    calls := before;
    var bothProposals := [ProposalId(r, SCORE), ProposalId(r, FULL)];
    for i := 0 to |r.fit|
      invariant |calls| == CandidateStart(r) + i && Part(r, seed, arm, calls)
    {
      calls := calls + [
        Slot(
          arm, CandidateStart(r) + i, CANDIDATE_FIT, Some(r.fit[i]), Candidate, seed(AdaptiveFit(r.fit[i])),
          bothProposals, NoFeedback, true, false, false)];
    }
  }

  method GateCalls(r: Roster, seed: SeedFunction, arm: Arm, before: seq<CallSlot>) returns (calls: seq<CallSlot>)
    requires Part(r, seed, arm, before) && |before| == GateStart(r)
    ensures Part(r, seed, arm, calls) && |calls| == HoldoutStart(r)
  {
    hide Part;
    calls := before;
    GateIds(r, seed, arm, before);
    var candidateIds := IdsOf(OfKind(before, CANDIDATE_FIT));
    var gateSlot := GateStart(r);
    for t := 0 to |r.gate|
      invariant gateSlot == GateStart(r) + 4 * t == |calls| && Part(r, seed, arm, calls)
    {
      for v := 0 to |GATE_VARIANTS|
        invariant gateSlot == GateStart(r) + 4 * t + v == |calls| && Part(r, seed, arm, calls)
      {
        hide AdaptiveAt;
        var call := Slot(
          arm, gateSlot, GATE, Some(r.gate[t]), GATE_VARIANTS[v], seed(AdaptiveGate(r.gate[t])), candidateIds,
          NoFeedback, false, false, false);
        GateAt(r, seed, arm, t, v);
        PartGrows(r, seed, arm, calls, call);
        calls := calls + [call];
        gateSlot := gateSlot + 1;
      }
    }
  }

  lemma GateAt(r: Roster, seed: SeedFunction, arm: Arm, t: nat, v: nat)
    requires t < |r.gate| && v < |GATE_VARIANTS|
    ensures AdaptiveAt(r, seed, arm, GateStart(r) + 4 * t + v)
         == Slot(
              arm, GateStart(r) + 4 * t + v, GATE, Some(r.gate[t]), GATE_VARIANTS[v], seed(AdaptiveGate(r.gate[t])),
              CandidateIds(r, arm), NoFeedback, false, false, false)
  {
    assert (4 * t + v) / 4 == t && (4 * t + v) % 4 == v;
  }

  lemma ControllersAt(r: Roster, seed: SeedFunction, arm: Arm, calls: seq<CallSlot>)
    requires Part(r, seed, arm, calls) && |calls| == |r.fit|
    ensures IdsOf(calls) == ParentIds(r, arm)
    ensures AdaptiveAt(r, seed, arm, DiagnosisSlot(r))
         == Slot(
              arm, DiagnosisSlot(r), DIAGNOSIS, None, DiagnosticController, seed(ControllerDiagnosis), IdsOf(calls),
              ViewOf(arm), false, false, true)
    ensures AdaptiveAt(r, seed, arm, ProposalSlot(r))
         == Slot(
              arm, ProposalSlot(r), PROPOSAL, None, ProposalController, seed(ControllerProposal),
              [AdaptiveAt(r, seed, arm, DiagnosisSlot(r)).callId], ViewOf(arm), false, false, true)
  {
    assert IdsOf(calls) == ParentIds(r, arm);
  }

  lemma HoldoutAt(r: Roster, seed: SeedFunction, arm: Arm, i: nat)
    requires i < |r.holdout|
    ensures AdaptiveAt(r, seed, arm, HoldoutStart(r) + i)
         == Slot(
              arm, HoldoutStart(r) + i, HOLDOUT, Some(r.holdout[i]), SelectedOrFallback,
              seed(MatchedHoldout(r.holdout[i])), AllGateIds(r), NoFeedback, false, true, false)
  {
  }

  /** `_adaptive_slots`. */
  method AdaptiveSlots(r: Roster, seed: SeedFunction, arm: Arm) returns (calls: seq<CallSlot>)
    ensures calls == Adaptive(r, seed, arm)
  {
    hide Part, AdaptiveAt, IdsOf, ParentIds, AllGateIds;
    calls := FitCalls(r, seed, arm);
    ControllersAt(r, seed, arm, calls);
    var diagnosis := Slot(
      arm, DiagnosisSlot(r), DIAGNOSIS, None, DiagnosticController, seed(ControllerDiagnosis), IdsOf(calls),
      ViewOf(arm), false, false, true);
    PartGrows(r, seed, arm, calls, diagnosis);
    calls := calls + [diagnosis];
    var proposal := Slot(
      arm, ProposalSlot(r), PROPOSAL, None, ProposalController, seed(ControllerProposal),
      [calls[|calls| - 1].callId], ViewOf(arm), false, false, true);
    PartGrows(r, seed, arm, calls, proposal);
    calls := calls + [proposal];
    calls := CandidateCalls(r, seed, arm, calls);
    calls := GateCalls(r, seed, arm, calls);
    for i := 0 to |r.holdout|
      invariant |calls| == HoldoutStart(r) + i && Part(r, seed, arm, calls)
    {
      var call := Slot(
        arm, HoldoutStart(r) + i, HOLDOUT, Some(r.holdout[i]), SelectedOrFallback,
        seed(MatchedHoldout(r.holdout[i])), AllGateIds(r), NoFeedback, false, true, false);
      HoldoutAt(r, seed, arm, i);
      PartGrows(r, seed, arm, calls, call);
      calls := calls + [call];
    }
    WholeArm(r, seed, arm, calls);
  }

  lemma WholeArm(r: Roster, seed: SeedFunction, arm: Arm, calls: seq<CallSlot>)
    requires Part(r, seed, arm, calls) && |calls| == AdaptiveSize(r)
    ensures calls == Adaptive(r, seed, arm)
  {
    hide AdaptiveAt;
  }

  /** `_pure_at_b_slots`. */
  method PureAtBSlots(r: Roster, seed: SeedFunction) returns (calls: seq<CallSlot>)
    ensures calls == Samples(r, seed, |r.holdout|)
  {
    calls := [];
    for t := 0 to |r.holdout|
      invariant calls == Samples(r, seed, t)
    {
      var count := if t < 4 then 4 else 3;
      for s := 0 to count
        invariant calls == Samples(r, seed, t) + SampleRow(r, seed, t, s)
      {
        var armSlot := |calls|;
        calls := calls + [
          Slot(
            PURE_AT_B, armSlot, PURE_AT_B_SAMPLE, Some(r.holdout[t]), BareSample(s),
            seed(PureSample(r.holdout[t], s)), AllGateIds(r), NoFeedback, false, true, false)];
      }
    }
  }

  /** `build_bfcl_v4_public_pilot_call_plan`. */
  method BuildPlan(r: Roster, seed: SeedFunction) returns (calls: seq<CallSlot>)
    ensures calls == Plan(r, seed)
  {
    var pure, fixed := Baseline(r, seed, PURE, Bare), Baseline(r, seed, STATIC, StaticFrozen);
    var score := AdaptiveSlots(r, seed, SCORE);
    var full := AdaptiveSlots(r, seed, FULL);
    var pureAtB := PureAtBSlots(r, seed);
    calls := Numbered(Topological(r, Arms(pure, fixed, score, full, pureAtB)));
  }
}
