/**
 The typed vocabulary of the pilot's frozen 100-call schedule: arms, call kinds, variants,
 feedback views and one precommitted call slot with its dependencies, its barriers and the
 feedback it may see.
 */
module PilotContracts {
  import opened Prelude

  datatype Arm = PURE | STATIC | SCORE | FULL | PURE_AT_B

  datatype CallKind =
    | BASELINE
    | PARENT_FIT
    | DIAGNOSIS
    | PROPOSAL
    | CANDIDATE_FIT
    | GATE
    | HOLDOUT
    | PURE_AT_B_SAMPLE

  /** Harness variant names; `OtherVariant` is any text the schedule never uses. */
  datatype Variant =
    | Bare
    | StaticFrozen
    | Parent
    | Candidate
    | Revert
    | Placebo
    | DiagnosticController
    | ProposalController
    | SelectedOrFallback
    | BareSample(index: nat)
    | OtherVariant(code: int)

  datatype FeedbackView = NoFeedback | ScoreOnly | CandidateSafeFull

  type TaskId = int

  /** A call ID is the text join of exactly these coordinates. */
  datatype CallId = CallId(arm: Arm, armSlot: nat, kind: CallKind, task: Option<TaskId>, variant: Variant)

  datatype CallSlot = CallSlot(
    globalSlot: nat,
    arm: Arm,
    armSlot: nat,
    callId: CallId,
    kind: CallKind,
    task: Option<TaskId>,
    variant: Variant,
    feedback: FeedbackView,
    seed: int,
    dependsOn: seq<CallId>,
    requiresCandidates: bool,
    requiresSelections: bool,
    graderFeedback: bool)

  datatype CallPlan = CallPlan(fingerprint: int, outerSeed: int, calls: seq<CallSlot>)

  predicate IsController(kind: CallKind) {
    kind == DIAGNOSIS || kind == PROPOSAL
  }

  predicate IsAdaptive(arm: Arm) {
    arm == SCORE || arm == FULL
  }
}
