/**
 The vocabulary of the development campaign: arms, stages and kinds, node identities, seed
 coordinates, drafts and final nodes, the PURE@B allocation, and the contract of a single node.
 */
module CampaignContracts {
  import opened Prelude
  import opened RowMajor
  import opened Sorting

  datatype Arm = Pure | Static | Score | Full | PureAtB

  datatype Kind =
    ParentFit | Diagnosis | Proposal | CandidateFit | Nomination | Gate | GateDecision | Holdout | PureAtBSample

  datatype GateVariant = ParentVariant | NominatedCandidate | Revert | NegativeControl

  datatype Feedback = NoFeedback | ScoreOnly | CandidateSafeFull

  datatype Harness =
    | ParentHarness
    | DiagnosisPipeline(pipeline: nat)
    | TypedProposal(pipeline: nat)
    | CandidateOrParent(candidate: nat)
    | NominationRule
    | GateHarness(variant: GateVariant)
    | PromotionRule
    | Bare
    | StaticFrozen
    | SelectedOrParent
    | BareSample(sample: nat)

  /** What a provider seed is derived from, next to the outer seed. */
  datatype SeedCoordinate =
    | FitEvaluation(task: int, rollout: nat)
    | DiagnosisController(pipeline: nat)
    | ProposalController(pipeline: nat)
    | GateEvaluation(task: int, rollout: nat)
    | HoldoutEvaluation(task: int)
    | PureAtBEvaluation(task: int, sample: nat)

  /** A node's structural coordinates. */
  datatype NodeId = NodeId(
    replicate: int, arm: Arm, kind: Kind, task: Option<int>, rollout: Option<nat>, sample: Option<nat>,
    pipeline: Option<nat>, candidate: Option<nat>, variant: Option<GateVariant>)

  datatype Draft = Draft(
    id: NodeId, outerSeed: int, stage: nat, harness: Harness, feedback: Feedback, seed: Option<SeedCoordinate>,
    dependsOn: seq<NodeId>, evidence: seq<NodeId>, graderFeedback: bool, typedEdit: bool)

  datatype Node = Node(
    nodeSlot: nat, campaignCallSlot: Option<nat>, replicateNodeSlot: nat, replicateCallSlot: Option<nat>,
    armSlot: Option<nat>, providerSeed: Option<int>, draft: Draft)

  datatype Replicate = Replicate(id: int, outerSeed: int)

  /** The frozen sizes and rosters; `priority` orders HOLDOUT tasks for the remainder samples. */
  datatype Campaign = Campaign(
    replicates: seq<Replicate>, fit: seq<int>, gate: seq<int>, holdout: seq<int>,
    fitRollouts: nat, pipelines: nat, gateRollouts: nat,
    baseSamples: nat, remainderSamples: nat, priority: int -> int)
  {
    /** Replicates and the tasks of each roster are pairwise different. */
    ghost predicate Distinct() {
      && NoDuplicates(fit) && NoDuplicates(gate) && NoDuplicates(holdout)
      && forall i, j :: 0 <= i < j < |replicates| ==> replicates[i].id != replicates[j].id
    }

    /** Every barrier stage has at least one node. */
    predicate Inhabited() {
      && fit != [] && gate != [] && fitRollouts > 0 && pipelines > 0 && gateRollouts > 0
    }
  }

  const ADAPTIVE_ARMS: seq<Arm> := [Score, Full]
  const HOLDOUT_ARMS: seq<Arm> := [Pure, Static, Score, Full]
  const GATE_VARIANTS: seq<GateVariant> := [ParentVariant, NominatedCandidate, Revert, NegativeControl]

  predicate IsModelCall(kind: Kind) {
    kind != Nomination && kind != GateDecision
  }

  /** The position of a kind's stage between the global barriers. */
  function StageOf(kind: Kind): nat {
    match kind
    case ParentFit => 1
    case Diagnosis => 2
    case Proposal => 3
    case CandidateFit => 4
    case Nomination => 5
    case Gate => 6
    case GateDecision => 7
    case Holdout => 8
    case PureAtBSample => 8
  }

  function FeedbackOf(arm: Arm): Feedback {
    if arm == Score then ScoreOnly else if arm == Full then CandidateSafeFull else NoFeedback
  }

  /** The shape every final node is validated against on its own. */
  ghost predicate NodeCloses(node: Node) {
    var d := node.draft;
    var call := IsModelCall(d.id.kind);
    var controller := d.id.kind == Diagnosis || d.id.kind == Proposal;
    && d.id !in d.dependsOn && NoDuplicates(d.dependsOn)
    && NoDuplicates(d.evidence) && (forall e :: e in d.evidence ==> e in d.dependsOn)
    && d.seed.Some? == call
    && node.campaignCallSlot.Some? == node.replicateCallSlot.Some? == node.armSlot.Some? == call
    && node.providerSeed.Some? == call
    && d.feedback == (if controller then FeedbackOf(d.id.arm) else NoFeedback)
    && d.graderFeedback == controller
    && d.typedEdit == (d.id.kind == Proposal || d.id.kind == CandidateFit)
  }

  // ---------------------------------------------------------------- PURE@B allocation

  function PriorityKey(c: Campaign): int -> Key {
    t => Key(c.priority(t), t)
  }

  /** The HOLDOUT tasks that receive one extra sample: the first by (priority, task). */
  function RemainderTasks(c: Campaign): seq<int> {
    var ranked := SortBy(c.holdout, PriorityKey(c));
    ranked[..if c.remainderSamples < |ranked| then c.remainderSamples else |ranked|]
  }

  function SampleCount(c: Campaign, t: int): nat {
    c.baseSamples + if t in RemainderTasks(c) then 1 else 0
  }
}
