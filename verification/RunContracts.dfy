/**
 The immutable artifacts of one public pilot run, each with the predicate its
 model validator enforces, and the content-addressed repository that holds them and never
 replaces what it holds.
 */
module RunContracts {
  import opened Prelude
  import opened PilotContracts

  type Digest = int

  datatype Media =
    | EventMedia
    | EntryMedia
    | StateMedia
    | MaterializationMedia
    | CompletionMedia
    | CandidateFreezeMedia
    | ArmSelectionMedia
    | JointSelectionMedia
    | ClosureMedia
    | OtherMedia(name: int, isJson: bool)

  /** A reference to immutable content: two references are equal when all three coordinates are. */
  datatype Ref = Ref(sha: Digest, size: nat, media: Media)

  datatype RunError =
    | ProtocolError
    | IntegrityError
    | CycleError
    | StaleTailError
    | InvalidModel

  const CALLS: nat := 100
  const CANDIDATE_BARRIER: nat := 14
  const FIRST_GATE: nat := 24
  const FULL_GATE: nat := 32
  const SELECTION_BARRIER: nat := 40

  /** `_require_media` on an optional reference. */
  predicate Declares(ref: Option<Ref>, media: Media) {
    ref.Some? ==> ref.value.media == media
  }

  predicate DistinctDigests(refs: seq<Ref>) {
    forall i, j :: 0 <= i < j < |refs| ==> refs[i].sha != refs[j].sha
  }

  predicate AllCompletions(refs: seq<Ref>) {
    forall i :: 0 <= i < |refs| ==> refs[i].media == CompletionMedia
  }

  datatype ArmCandidateFreeze = ArmCandidateFreeze(
    arm: Arm,
    proposalCompletion: Ref,
    parentHarness: Ref,
    candidateParse: Ref,
    candidateHarness: Option<Ref>,
    effectiveHarness: Ref,
    candidateValid: bool,
    fallbackUsed: bool)
  {
    predicate Valid() {
      && IsAdaptive(arm)
      && proposalCompletion.media == CompletionMedia
      && if candidateValid then
        && candidateHarness.Some?
        && candidateHarness.value != parentHarness
        && effectiveHarness == candidateHarness.value
        && !fallbackUsed
      else
        && candidateHarness.None?
        && effectiveHarness == parentHarness
        && fallbackUsed
    }
  }

  datatype JointCandidateFreeze = JointCandidateFreeze(
    planFingerprint: int, score: ArmCandidateFreeze, full: ArmCandidateFreeze)
  {
    predicate Valid() {
      && score.Valid() && full.Valid()
      && score.arm == SCORE && full.arm == FULL
      && score.parentHarness == full.parentHarness
      && score.proposalCompletion != full.proposalCompletion
    }
  }

  datatype SelectedVariant = SelectParent | SelectCandidate

  datatype ArmSelection = ArmSelection(
    planFingerprint: int,
    arm: Arm,
    candidateFreeze: Ref,
    gateCompletions: seq<Ref>,
    decision: Ref,
    selectedVariant: SelectedVariant,
    selectedHarness: Ref,
    forcedRollback: bool)
  {
    predicate Valid() {
      && IsAdaptive(arm)
      && candidateFreeze.media == CandidateFreezeMedia
      && |gateCompletions| == 8
      && AllCompletions(gateCompletions)
      && DistinctDigests(gateCompletions)
    }
  }

  datatype JointSelectionFreeze = JointSelectionFreeze(
    planFingerprint: int,
    candidateFreeze: Ref,
    scoreSelection: Ref,
    fullSelection: Ref,
    gateCompletions: seq<Ref>)
  {
    predicate Valid() {
      && candidateFreeze.media == CandidateFreezeMedia
      && scoreSelection.media == ArmSelectionMedia
      && fullSelection.media == ArmSelectionMedia
      && scoreSelection != fullSelection
      && |gateCompletions| == 16
      && AllCompletions(gateCompletions)
      && DistinctDigests(gateCompletions)
    }
  }

  datatype CallMaterialization = CallMaterialization(
    planFingerprint: int,
    slot: CallSlot,
    slotReference: Digest,
    request: Ref,
    executedHarness: Ref,
    intendedVariant: Variant,
    executedVariant: Variant,
    fallbackUsed: bool,
    candidateFreeze: Option<Ref>,
    jointSelection: Option<Ref>)
  {
    predicate Valid(codec: Codec) {
      && slot.globalSlot < CALLS
      && slotReference == codec.slotDigest(slot)
      && intendedVariant == slot.variant
      && Declares(candidateFreeze, CandidateFreezeMedia)
      && Declares(jointSelection, JointSelectionMedia)
    }
  }

  datatype CallOutcome = Succeeded | ProviderFailure

  datatype CallCompletion = CallCompletion(
    planFingerprint: int,
    callId: CallId,
    globalSlot: nat,
    slotReference: Digest,
    materialization: Ref,
    attemptOutcome: Ref,
    modelOutput: Ref,
    outcome: CallOutcome,
    prediction: Option<Ref>,
    graderReceipt: Option<Ref>)
  {
    predicate Valid() {
      && globalSlot < CALLS
      && materialization.media == MaterializationMedia
      && (prediction.None? <==> graderReceipt.None?)
    }
  }

  datatype GradeRole = BaselineRole | ParentFitRole | CandidateFitRole | HoldoutRole | GateRole(variant: Variant)

  datatype HoldoutUnlock = HoldoutUnlock(planFingerprint: int, scoreSelection: Digest, fullSelection: Digest)

  /** The coordinates a trusted grader receipt binds. */
  datatype GradeBinding = GradeBinding(
    planFingerprint: int,
    slotReference: Digest,
    callId: CallId,
    arm: Arm,
    role: GradeRole,
    intendedVariant: Variant,
    executedVariant: Variant,
    fallbackUsed: bool,
    task: Option<TaskId>)

  datatype GraderReceipt = GraderReceipt(binding: GradeBinding, prediction: int, unlock: Option<HoldoutUnlock>)

  datatype RunState = RunState(
    planFingerprint: int,
    nextSlot: nat,
    openMaterialization: Option<Ref>,
    completions: seq<Ref>,
    candidateFreeze: Option<Ref>,
    jointSelection: Option<Ref>,
    closed: bool)
  {
    predicate Valid() {
      && nextSlot <= CALLS
      && |completions| == nextSlot
      && DistinctDigests(completions)
      && AllCompletions(completions)
      && Declares(openMaterialization, MaterializationMedia)
      && (openMaterialization.Some? ==> nextSlot != CALLS)
      && Declares(candidateFreeze, CandidateFreezeMedia)
      && (candidateFreeze.Some? ==> CANDIDATE_BARRIER <= nextSlot)
      && (nextSlot > CANDIDATE_BARRIER ==> candidateFreeze.Some?)
      && Declares(jointSelection, JointSelectionMedia)
      && (jointSelection.Some? ==> SELECTION_BARRIER <= nextSlot)
      && (nextSlot > SELECTION_BARRIER ==> jointSelection.Some?)
      && (closed ==> nextSlot == CALLS && openMaterialization.None? && jointSelection.Some?)
    }
  }

  function InitialState(planFingerprint: int): RunState {
    RunState(planFingerprint, 0, None, [], None, None, false)
  }

  /** An action together with the one payload its event may carry. */
  datatype Action =
    | Open
    | MaterializeCall(materialization: Ref)
    | CompleteCall(completion: Ref)
    | FreezeCandidates(freeze: Ref)
    | FreezeSelections(joint: Ref)
    | Close

  datatype RunEvent = RunEvent(planFingerprint: int, action: Action) {
    predicate Valid() {
      match action
      case Open => true
      case Close => true
      case MaterializeCall(ref) => ref.media == MaterializationMedia
      case CompleteCall(ref) => ref.media == CompletionMedia
      case FreezeCandidates(ref) => ref.media == CandidateFreezeMedia
      case FreezeSelections(ref) => ref.media == JointSelectionMedia
    }
  }

  datatype JournalEntry = JournalEntry(
    planFingerprint: int,
    sequence: nat,
    previousEntry: Option<Ref>,
    previousState: Option<Ref>,
    event: Ref,
    state: Ref)
  {
    predicate Valid() {
      && (if sequence == 0 then previousEntry.None? && previousState.None?
          else previousEntry.Some? && previousState.Some?)
      && Declares(previousEntry, EntryMedia)
      && Declares(previousState, StateMedia)
      && event.media == EventMedia
      && state.media == StateMedia
    }
  }

  datatype RunClosure = RunClosure(
    planFingerprint: int,
    journalTail: Ref,
    finalState: Ref,
    candidateFreeze: Ref,
    jointSelection: Ref,
    completions: seq<Ref>)
  {
    predicate Valid() {
      && journalTail.media == EntryMedia
      && finalState.media == StateMedia
      && candidateFreeze.media == CandidateFreezeMedia
      && jointSelection.media == JointSelectionMedia
      && |completions| == CALLS
      && AllCompletions(completions)
      && DistinctDigests(completions)
    }
  }

  /** Typed content. `Blob` is content no run model parses. */
  datatype Artifact =
    | EventArtifact(event: RunEvent)
    | EntryArtifact(entry: JournalEntry)
    | StateArtifact(state: RunState)
    | MaterializationArtifact(materialization: CallMaterialization)
    | CompletionArtifact(completion: CallCompletion)
    | CandidateFreezeArtifact(freeze: JointCandidateFreeze)
    | ArmSelectionArtifact(selection: ArmSelection)
    | JointSelectionArtifact(joint: JointSelectionFreeze)
    | ClosureArtifact(closure: RunClosure)
    | PredictionArtifact(prediction: int)
    | ReceiptArtifact(receipt: GraderReceipt)
    | SampleArtifact(sampleId: CallId)
    | Blob(content: int)
  {
    predicate Valid(codec: Codec) {
      match this
      case EventArtifact(event) => event.Valid()
      case EntryArtifact(entry) => entry.Valid()
      case StateArtifact(state) => state.Valid()
      case MaterializationArtifact(materialization) => materialization.Valid(codec)
      case CompletionArtifact(completion) => completion.Valid()
      case CandidateFreezeArtifact(freeze) => freeze.Valid()
      case ArmSelectionArtifact(selection) => selection.Valid()
      case JointSelectionArtifact(joint) => joint.Valid()
      case ClosureArtifact(closure) => closure.Valid()
      case _ => true
    }
  }

  /** The hash functions of the platform. Nothing assumes them injective unless a lemma says so. */
  datatype Codec = Codec(digest: Artifact -> Digest, size: Artifact -> nat, slotDigest: CallSlot -> Digest)

  /** A repository is untrusted: any content may sit under any digest, so every read verifies. */
  datatype Repo = Repo(objects: map<Digest, Artifact>, codec: Codec) {

    /** `get_bytes`: content is returned only when its digest and size match the reference. */
    function Get(ref: Ref): Option<Artifact> {
      if && ref.sha in objects
         && codec.digest(objects[ref.sha]) == ref.sha
         && codec.size(objects[ref.sha]) == ref.size
      then Some(objects[ref.sha])
      else None
    }

    function RefFor(value: Artifact, media: Media): Ref {
      Ref(codec.digest(value), codec.size(value), media)
    }

    /** `put_json`: existing content is never replaced. */
    function Put(value: Artifact): Repo {
      if codec.digest(value) in objects then this
      else this.(objects := objects[codec.digest(value) := value])
    }

    /** `_publish` succeeds when the value passes its validator and reads back unchanged. */
    predicate Publishes(value: Artifact) {
      value.Valid(codec) && Put(value).Get(RefFor(value, EventMedia)) == Some(value)
    }

    /** The repository after `_publish`; an invalid value is rejected before it is written. */
    function AfterPublish(value: Artifact): Repo {
      if value.Valid(codec) then Put(value) else this
    }
  }

  /** `later` holds everything `earlier` holds, unchanged. */
  ghost predicate Extends(earlier: Repo, later: Repo) {
    && earlier.codec == later.codec
    && forall d :: d in earlier.objects ==> d in later.objects && later.objects[d] == earlier.objects[d]
  }

  ghost predicate InjectiveDigest(codec: Codec) {
    forall a, b :: codec.digest(a) == codec.digest(b) ==> a == b
  }

  /** Every stored object sits under its own digest: an uncorrupted store. */
  ghost predicate Uncorrupted(repo: Repo) {
    forall d :: d in repo.objects ==> repo.codec.digest(repo.objects[d]) == d
  }
}
