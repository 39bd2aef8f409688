/** Semantic replay: the checks of every transition, and both loops. */
module RunReplay {
  import opened Prelude
  import opened PilotContracts
  import opened RunContracts

  // ---------------------------------------------------------------- typed loads

  function LoadEvent(repo: Repo, ref: Ref): Result<RunEvent, RunError> {
    if ref.media != EventMedia then Err(IntegrityError)
    else match repo.Get(ref)
      case Some(EventArtifact(event)) => if event.Valid() then Ok(event) else Err(IntegrityError)
      case _ => Err(IntegrityError)
  }

  function LoadEntry(repo: Repo, ref: Ref): Result<JournalEntry, RunError> {
    if ref.media != EntryMedia then Err(IntegrityError)
    else match repo.Get(ref)
      case Some(EntryArtifact(entry)) => if entry.Valid() then Ok(entry) else Err(IntegrityError)
      case _ => Err(IntegrityError)
  }

  function LoadState(repo: Repo, ref: Ref): Result<RunState, RunError> {
    if ref.media != StateMedia then Err(IntegrityError)
    else match repo.Get(ref)
      case Some(StateArtifact(state)) => if state.Valid() then Ok(state) else Err(IntegrityError)
      case _ => Err(IntegrityError)
  }

  function LoadMaterialization(repo: Repo, ref: Ref): Result<CallMaterialization, RunError> {
    if ref.media != MaterializationMedia then Err(IntegrityError)
    else match repo.Get(ref)
      case Some(MaterializationArtifact(m)) => if m.Valid(repo.codec) then Ok(m) else Err(IntegrityError)
      case _ => Err(IntegrityError)
  }

  function LoadCompletion(repo: Repo, ref: Ref): Result<CallCompletion, RunError> {
    if ref.media != CompletionMedia then Err(IntegrityError)
    else match repo.Get(ref)
      case Some(CompletionArtifact(c)) => if c.Valid() then Ok(c) else Err(IntegrityError)
      case _ => Err(IntegrityError)
  }

  function LoadFreeze(repo: Repo, ref: Ref): Result<JointCandidateFreeze, RunError> {
    if ref.media != CandidateFreezeMedia then Err(IntegrityError)
    else match repo.Get(ref)
      case Some(CandidateFreezeArtifact(f)) => if f.Valid() then Ok(f) else Err(IntegrityError)
      case _ => Err(IntegrityError)
  }

  function LoadSelection(repo: Repo, ref: Ref): Result<ArmSelection, RunError> {
    if ref.media != ArmSelectionMedia then Err(IntegrityError)
    else match repo.Get(ref)
      case Some(ArmSelectionArtifact(s)) => if s.Valid() then Ok(s) else Err(IntegrityError)
      case _ => Err(IntegrityError)
  }

  function LoadJoint(repo: Repo, ref: Ref): Result<JointSelectionFreeze, RunError> {
    if ref.media != JointSelectionMedia then Err(IntegrityError)
    else match repo.Get(ref)
      case Some(JointSelectionArtifact(j)) => if j.Valid() then Ok(j) else Err(IntegrityError)
      case _ => Err(IntegrityError)
  }

  function LoadClosure(repo: Repo, ref: Ref): Result<RunClosure, RunError> {
    if ref.media != ClosureMedia then Err(IntegrityError)
    else match repo.Get(ref)
      case Some(ClosureArtifact(c)) => if c.Valid() then Ok(c) else Err(IntegrityError)
      case _ => Err(IntegrityError)
  }

  predicate IsJson(media: Media) {
    media.OtherMedia? ==> media.isJson
  }

  function LoadPrediction(repo: Repo, ref: Ref): Result<int, RunError> {
    if !IsJson(ref.media) then Err(IntegrityError)
    else match repo.Get(ref)
      case Some(PredictionArtifact(p)) => Ok(p)
      case _ => Err(IntegrityError)
  }

  function LoadReceipt(repo: Repo, ref: Ref): Result<GraderReceipt, RunError> {
    if !IsJson(ref.media) then Err(IntegrityError)
    else match repo.Get(ref)
      case Some(ReceiptArtifact(r)) => Ok(r)
      case _ => Err(IntegrityError)
  }

  function LoadSample(repo: Repo, ref: Ref): Result<CallId, RunError> {
    if !IsJson(ref.media) then Err(IntegrityError)
    else match repo.Get(ref)
      case Some(SampleArtifact(id)) => Ok(id)
      case _ => Err(IntegrityError)
  }

  /** `_require_artifact`: any content will do, as long as it verifies. */
  predicate Present(repo: Repo, ref: Ref) {
    repo.Get(ref).Some?
  }

  // ---------------------------------------------------------------- execution policy

  function ArmCandidate(freeze: JointCandidateFreeze, arm: Arm): ArmCandidateFreeze
    requires IsAdaptive(arm)
  {
    if arm == SCORE then freeze.score else freeze.full
  }

  datatype Execution = Execution(harness: Option<Ref>, variant: Variant, fallback: bool)

  function SelectedName(selected: SelectedVariant): Variant {
    if selected.SelectParent? then Parent else Candidate
  }

  datatype Selections = Selections(joint: JointSelectionFreeze, score: ArmSelection, full: ArmSelection)

  function LoadCandidateFreeze(repo: Repo, state: RunState): Result<JointCandidateFreeze, RunError> {
    if state.candidateFreeze.None? then Err(IntegrityError) else LoadFreeze(repo, state.candidateFreeze.value)
  }

  function LoadJointSelection(repo: Repo, state: RunState): Result<Selections, RunError> {
    if state.jointSelection.None? then Err(IntegrityError)
    else
      var joint :- LoadJoint(repo, state.jointSelection.value);
      var score :- LoadSelection(repo, joint.scoreSelection);
      var full :- LoadSelection(repo, joint.fullSelection);
      Ok(Selections(joint, score, full))
  }

  /** Which harness and variant a slot must execute; no harness is enforced outside the adaptive arms. */
  function ExpectedExecution(repo: Repo, state: RunState, slot: CallSlot): Result<Execution, RunError> {
    match slot.arm
    case PURE => Ok(Execution(None, Bare, false))
    case STATIC => Ok(Execution(None, StaticFrozen, false))
    case PURE_AT_B => Ok(Execution(None, Bare, false))
    case _ =>
      if slot.kind == PARENT_FIT then Ok(Execution(None, Parent, false))
      else if IsController(slot.kind) then Ok(Execution(None, slot.variant, false))
      else
        var freeze :- LoadCandidateFreeze(repo, state);
        var candidate := ArmCandidate(freeze, slot.arm);
        var substitute := Execution(
          Some(candidate.effectiveHarness),
          if candidate.candidateValid then Candidate else Parent,
          !candidate.candidateValid);
        if slot.kind == CANDIDATE_FIT then Ok(substitute)
        else if slot.kind == GATE then
          if slot.variant == Candidate then Ok(substitute)
          else Ok(Execution(Some(candidate.parentHarness), Parent, false))
        else if slot.kind == HOLDOUT then
          var selections :- LoadJointSelection(repo, state);
          var selection := if slot.arm == SCORE then selections.score else selections.full;
          Ok(Execution(
            Some(selection.selectedHarness),
            SelectedName(selection.selectedVariant),
            selection.selectedVariant.SelectParent?))
        else Err(IntegrityError)
  }

  // ---------------------------------------------------------------- transition checks

  function VerifyMaterialization(repo: Repo, plan: CallPlan, state: RunState, m: CallMaterialization)
    : Result<(), RunError>
    requires |plan.calls| == CALLS
  {
    if state.closed || state.openMaterialization.Some? then Err(ProtocolError)
    else if state.nextSlot >= CALLS then Err(ProtocolError)
    else
      var expected := plan.calls[state.nextSlot];
      :- Need(m.planFingerprint == plan.fingerprint && m.slot == expected, IntegrityError);
      :- Need(m.slotReference == repo.codec.slotDigest(expected), IntegrityError);
      var freeze := if expected.globalSlot >= CANDIDATE_BARRIER then state.candidateFreeze else None;
      var selection := if expected.globalSlot >= SELECTION_BARRIER then state.jointSelection else None;
      :- Need(m.candidateFreeze == freeze, IntegrityError);
      :- Need(m.jointSelection == selection, IntegrityError);
      :- Need(expected.requiresCandidates ==> freeze.Some?, ProtocolError);
      :- Need(expected.requiresSelections ==> selection.Some?, ProtocolError);
      var execution :- ExpectedExecution(repo, state, expected);
      :- Need(execution.harness.Some? ==> m.executedHarness == execution.harness.value, IntegrityError);
      :- Need(m.executedVariant == execution.variant && m.fallbackUsed == execution.fallback, IntegrityError);
      :- Need(Present(repo, m.request) && Present(repo, m.executedHarness), IntegrityError);
      Ok(())
  }

  function ExpectedGradeRole(slot: CallSlot): Option<GradeRole> {
    if slot.arm == PURE_AT_B then None
    else if slot.arm == PURE || slot.arm == STATIC then Some(BaselineRole)
    else match slot.kind
      case PARENT_FIT => Some(ParentFitRole)
      case CANDIDATE_FIT => Some(CandidateFitRole)
      case HOLDOUT => Some(HoldoutRole)
      case GATE => Some(GateRole(slot.variant))
      case _ => None
  }

  function ExpectedBinding(m: CallMaterialization, role: GradeRole): GradeBinding {
    GradeBinding(
      m.planFingerprint, m.slotReference, m.slot.callId, m.slot.arm, role,
      m.intendedVariant, m.executedVariant, m.fallbackUsed, m.slot.task)
  }

  function VerifyGraderBinding(repo: Repo, m: CallMaterialization, completion: CallCompletion)
    : Result<(), RunError>
  {
    var role := ExpectedGradeRole(m.slot);
    if role.None? then
      :- Need(completion.prediction.None? && completion.graderReceipt.None?, IntegrityError);
      if m.slot.arm == PURE_AT_B then
        var sample :- LoadSample(repo, completion.modelOutput);
        :- Need(sample == m.slot.callId, IntegrityError);
        Ok(())
      else Ok(())
    else if completion.prediction.None? || completion.graderReceipt.None? then Err(IntegrityError)
    else
      var prediction :- LoadPrediction(repo, completion.prediction.value);
      var receipt :- LoadReceipt(repo, completion.graderReceipt.value);
      :- Need(receipt.binding == ExpectedBinding(m, role.value), IntegrityError);
      :- Need(receipt.prediction == prediction, IntegrityError);
      if m.slot.globalSlot >= SELECTION_BARRIER then
        if receipt.unlock.None? || m.jointSelection.None? then Err(IntegrityError)
        else
          var joint :- LoadJoint(repo, m.jointSelection.value);
          // The unlock model itself rejects two equal selection digests.
          :- Need(joint.scoreSelection.sha != joint.fullSelection.sha, InvalidModel);
          :- Need(
            receipt.unlock.value
            == HoldoutUnlock(m.planFingerprint, joint.scoreSelection.sha, joint.fullSelection.sha),
            IntegrityError);
          Ok(())
      else Ok(())
  }

  function VerifyCompletion(repo: Repo, plan: CallPlan, state: RunState, completion: CallCompletion)
    : Result<(), RunError>
    requires |plan.calls| == CALLS
    requires state.Valid()
  {
    if state.openMaterialization.None? then Err(ProtocolError)
    else
      :- Need(Some(completion.materialization) == state.openMaterialization, IntegrityError);
      var m :- LoadMaterialization(repo, completion.materialization);
      var slot := plan.calls[state.nextSlot];
      :- Need(
        && completion.planFingerprint == plan.fingerprint
        && completion.callId == slot.callId
        && completion.globalSlot == slot.globalSlot
        && completion.slotReference == m.slotReference
        && m.slot == slot,
        IntegrityError);
      :- Need(Present(repo, completion.attemptOutcome) && Present(repo, completion.modelOutput), IntegrityError);
      VerifyGraderBinding(repo, m, completion)
  }

  /** The harnesses that the calls behind these completions executed, in order. */
  function ExecutedHarnesses(repo: Repo, completions: seq<Ref>): Result<seq<Ref>, RunError> {
    if completions == [] then Ok([])
    else
      var completion :- LoadCompletion(repo, completions[0]);
      var m :- LoadMaterialization(repo, completion.materialization);
      var rest :- ExecutedHarnesses(repo, completions[1..]);
      Ok([m.executedHarness] + rest)
  }

  function VerifyArmFreeze(repo: Repo, parentFit: seq<Ref>, freeze: ArmCandidateFreeze): Result<(), RunError> {
    var parents :- ExecutedHarnesses(repo, parentFit);
    :- Need(
      parents != [] && forall i :: 0 <= i < |parents| ==> parents[i] == freeze.parentHarness,
      IntegrityError);
    :- Need(Present(repo, freeze.candidateParse) && Present(repo, freeze.parentHarness), IntegrityError);
    :- Need(freeze.candidateHarness.Some? ==> Present(repo, freeze.candidateHarness.value), IntegrityError);
    Ok(())
  }

  function VerifyCandidateFreeze(repo: Repo, plan: CallPlan, state: RunState, freeze: JointCandidateFreeze)
    : Result<(), RunError>
    requires state.Valid()
  {
    if state.nextSlot != CANDIDATE_BARRIER || state.openMaterialization.Some? then Err(ProtocolError)
    else
      :- Need(state.candidateFreeze.None?, ProtocolError);
      :- Need(freeze.planFingerprint == plan.fingerprint, IntegrityError);
      :- Need(
        && freeze.score.proposalCompletion == state.completions[12]
        && freeze.full.proposalCompletion == state.completions[13],
        IntegrityError);
      var _ :- VerifyArmFreeze(repo, state.completions[0..5], freeze.score);
      VerifyArmFreeze(repo, state.completions[5..10], freeze.full)
  }

  function VerifyArmSelection(
    selection: ArmSelection, freeze: ArmCandidateFreeze, gates: seq<Ref>, freezeRef: Ref, planFingerprint: int)
    : Result<(), RunError>
  {
    var lineage :=
      && selection.planFingerprint == planFingerprint
      && selection.arm == freeze.arm
      && selection.candidateFreeze == freezeRef
      && selection.gateCompletions == gates;
    :- Need(lineage, IntegrityError);
    var expected :=
      if !freeze.candidateValid then (SelectParent, freeze.parentHarness, true)
      else if selection.selectedVariant.SelectCandidate? then (SelectCandidate, freeze.effectiveHarness, false)
      else (SelectParent, freeze.parentHarness, false);
    :- Need(
      (selection.selectedVariant, selection.selectedHarness, selection.forcedRollback) == expected,
      IntegrityError);
    Ok(())
  }

  function VerifyJointSelection(repo: Repo, plan: CallPlan, state: RunState, joint: JointSelectionFreeze)
    : Result<(), RunError>
    requires state.Valid()
  {
    if state.nextSlot != SELECTION_BARRIER || state.openMaterialization.Some? then Err(ProtocolError)
    else if state.jointSelection.Some? || state.candidateFreeze.None? then Err(ProtocolError)
    else
      var freezeRef := state.candidateFreeze.value;
      :- Need(
        && joint.planFingerprint == plan.fingerprint
        && joint.candidateFreeze == freezeRef
        && joint.gateCompletions == state.completions[FIRST_GATE..SELECTION_BARRIER],
        IntegrityError);
      var freeze :- LoadCandidateFreeze(repo, state);
      var score :- LoadSelection(repo, joint.scoreSelection);
      var full :- LoadSelection(repo, joint.fullSelection);
      var _ :- VerifyArmSelection(
        score, freeze.score, state.completions[FIRST_GATE..FULL_GATE], freezeRef, plan.fingerprint);
      var _ :- VerifyArmSelection(
        full, freeze.full, state.completions[FULL_GATE..SELECTION_BARRIER], freezeRef, plan.fingerprint);
      :- Need(Present(repo, score.decision) && Present(repo, full.decision), IntegrityError);
      Ok(())
  }

  // ---------------------------------------------------------------- the transition

  /** The successor's fields, once the event's own artifact has been loaded and verified. */
  function Advance(repo: Repo, plan: CallPlan, previous: RunState, action: Action): Result<RunState, RunError>
    requires |plan.calls| == CALLS
    requires previous.Valid()
  {
    match action
    case MaterializeCall(ref) =>
      var m :- LoadMaterialization(repo, ref);
      var _ :- VerifyMaterialization(repo, plan, previous, m);
      Ok(previous.(openMaterialization := Some(ref)))
    case CompleteCall(ref) =>
      var c :- LoadCompletion(repo, ref);
      var _ :- VerifyCompletion(repo, plan, previous, c);
      Ok(previous.(
        openMaterialization := None,
        completions := previous.completions + [ref],
        nextSlot := previous.nextSlot + 1))
    case FreezeCandidates(ref) =>
      var f :- LoadFreeze(repo, ref);
      var _ :- VerifyCandidateFreeze(repo, plan, previous, f);
      Ok(previous.(candidateFreeze := Some(ref)))
    case FreezeSelections(ref) =>
      var j :- LoadJoint(repo, ref);
      var _ :- VerifyJointSelection(repo, plan, previous, j);
      Ok(previous.(jointSelection := Some(ref)))
    case Close =>
      :- Need(
        && previous.nextSlot == CALLS
        && previous.openMaterialization.None?
        && previous.jointSelection.Some?,
        ProtocolError);
      Ok(previous.(closed := true))
    case Open => Err(ProtocolError)
  }

  function ApplyEvent(repo: Repo, plan: CallPlan, previous: Option<RunState>, event: RunEvent)
    : (next: Result<RunState, RunError>)
    requires |plan.calls| == CALLS
    requires previous.Some? ==> previous.value.Valid()
    ensures next.Ok? ==> next.value.Valid() && next.value.planFingerprint == plan.fingerprint
  {
    if event.planFingerprint != plan.fingerprint then Err(IntegrityError)
    else if previous.None? then
      :- Need(event.action.Open?, ProtocolError);
      Ok(InitialState(plan.fingerprint))
    else
      :- Need(previous.value.planFingerprint == plan.fingerprint, IntegrityError);
      :- Need(!previous.value.closed, ProtocolError);
      var next :- Advance(repo, plan, previous.value, event.action);
      :- Need(next.Valid(), InvalidModel);
      Ok(next)
  }

  // ---------------------------------------------------------------- linked entries

  datatype Linked = Linked(ref: Ref, entry: JournalEntry)

  /** Follow previous-entry links until the root, refusing to visit a digest twice. */
  function WalkBack(repo: Repo, cursor: Option<Ref>, seen: set<Digest>): Result<seq<Linked>, RunError>
    decreases |repo.objects.Keys - seen|
  {
    if cursor.None? then Ok([])
    else if cursor.value.sha in seen then Err(CycleError)
    else
      var entry :- LoadEntry(repo, cursor.value);
      assert cursor.value.sha in repo.objects.Keys - seen;
      assert repo.objects.Keys - (seen + {cursor.value.sha}) < repo.objects.Keys - seen;
      SmallerSet(repo.objects.Keys - (seen + {cursor.value.sha}), repo.objects.Keys - seen);
      var rest :- WalkBack(repo, entry.previousEntry, seen + {cursor.value.sha});
      Ok(rest + [Linked(cursor.value, entry)])
  }

  lemma SmallerSet<T>(a: set<T>, b: set<T>)
    requires a < b
    ensures |a| < |b|
  {
    var x :| x in b && x !in a;
    assert a <= b - {x};
    SubsetSize(a, b - {x});
  }

  lemma SubsetSize<T>(a: set<T>, b: set<T>)
    requires a <= b
    ensures |a| <= |b|
  {
    if a != {} {
      var x :| x in a;
      SubsetSize(a - {x}, b - {x});
    }
  }

  predicate LinksJoin(entries: seq<Linked>, index: nat)
    requires index < |entries|
  {
    && entries[index].entry.sequence == index
    && (if index == 0 then
          entries[0].entry.previousEntry.None? && entries[0].entry.previousState.None?
        else
          && entries[index].entry.previousEntry == Some(entries[index - 1].ref)
          && entries[index].entry.previousState == Some(entries[index - 1].entry.state))
  }

  predicate AllLinksJoin(entries: seq<Linked>) {
    forall i :: 0 <= i < |entries| ==> LinksJoin(entries, i)
  }

  function ReadEntries(repo: Repo, tail: Ref): Result<seq<Linked>, RunError> {
    if tail.media != EntryMedia then Err(IntegrityError)
    else
      var entries :- WalkBack(repo, Some(tail), {});
      :- Need(AllLinksJoin(entries), IntegrityError);
      Ok(entries)
  }

  // ---------------------------------------------------------------- replay

  datatype Replayed = Replayed(events: seq<RunEvent>, state: Option<RunState>) {
    predicate Valid() {
      state.Some? ==> state.value.Valid()
    }
  }

  /** One entry of the replay: recompute the state and require the persisted one to equal it. */
  function ReplayStep(repo: Repo, plan: CallPlan, before: Replayed, entry: JournalEntry)
    : (after: Result<Replayed, RunError>)
    requires |plan.calls| == CALLS
    requires before.Valid()
    ensures after.Ok? ==> after.value.Valid() && after.value.state.Some?
  {
    if entry.planFingerprint != plan.fingerprint then Err(IntegrityError)
    else
      var event :- LoadEvent(repo, entry.event);
      var recomputed :- ApplyEvent(repo, plan, before.state, event);
      var persisted :- LoadState(repo, entry.state);
      :- Need(persisted == recomputed, IntegrityError);
      Ok(Replayed(before.events + [event], Some(persisted)))
  }

  function ReplayEntries(repo: Repo, plan: CallPlan, entries: seq<Linked>): (r: Result<Replayed, RunError>)
    requires |plan.calls| == CALLS
    ensures r.Ok? ==> r.value.Valid() && (r.value.state.Some? <==> entries != [])
  {
    if entries == [] then Ok(Replayed([], None))
    else
      var before :- ReplayEntries(repo, plan, entries[..|entries| - 1]);
      ReplayStep(repo, plan, before, entries[|entries| - 1].entry)
  }

  function Replay(repo: Repo, plan: CallPlan, tail: Ref): Result<Replayed, RunError>
    requires |plan.calls| == CALLS
  {
    var entries :- ReadEntries(repo, tail);
    ReplayEntries(repo, plan, entries)
  }

  // ---------------------------------------------------------------- the loops

  /** The walk that remains, followed by what has been collected (latest link first). */
  ghost function Unfinished(walk: Result<seq<Linked>, RunError>, backwards: seq<Linked>)
    : Result<seq<Linked>, RunError>
  {
    match walk
    case Ok(rest) => Ok(rest + Reversed(backwards))
    case Err(e) => Err(e)
  }

  lemma WalkStep(repo: Repo, cursor: Ref, seen: set<Digest>, backwards: seq<Linked>)
    requires cursor.sha !in seen && LoadEntry(repo, cursor).Ok?
    ensures var entry := LoadEntry(repo, cursor).value;
            && |repo.objects.Keys - (seen + {cursor.sha})| < |repo.objects.Keys - seen|
            && Unfinished(WalkBack(repo, Some(cursor), seen), backwards)
            == Unfinished(
                 WalkBack(repo, entry.previousEntry, seen + {cursor.sha}),
                 backwards + [Linked(cursor, entry)])
  {
    var entry := LoadEntry(repo, cursor).value;
    assert cursor.sha in repo.objects.Keys - seen;
    SmallerSet(repo.objects.Keys - (seen + {cursor.sha}), repo.objects.Keys - seen);
    var walk := WalkBack(repo, entry.previousEntry, seen + {cursor.sha});
    if walk.Ok? {
      var here := Linked(cursor, entry);
      assert (backwards + [here])[..|backwards|] == backwards;
      assert walk.value + Reversed(backwards + [here]) == (walk.value + [here]) + Reversed(backwards);
    }
  }

  /** Walks the links with a cursor and a set of digests already seen, then checks every join. */
  method ReadEntriesLoop(repo: Repo, tail: Ref) returns (r: Result<seq<Linked>, RunError>)
    ensures r == ReadEntries(repo, tail)
  {
    if tail.media != EntryMedia {
      return Err(IntegrityError);
    }
    var cursor := Some(tail);
    var backwards: seq<Linked> := [];
    var seen: set<Digest> := {};
    ghost var whole := WalkBack(repo, cursor, seen);
    assert Unfinished(whole, []) == whole by {
      assert whole.Ok? ==> whole.value + Reversed<Linked>([]) == whole.value;
    }
    while cursor.Some?
      invariant whole == Unfinished(WalkBack(repo, cursor, seen), backwards)
      decreases |repo.objects.Keys - seen|
    {
      if cursor.value.sha in seen {
        return Err(CycleError);
      }
      var loaded := LoadEntry(repo, cursor.value);
      if loaded.Err? {
        return Err(loaded.error);
      }
      WalkStep(repo, cursor.value, seen, backwards);
      seen := seen + {cursor.value.sha};
      backwards := backwards + [Linked(cursor.value, loaded.value)];
      cursor := loaded.value.previousEntry;
    }
    var entries := Reversed(backwards);
    assert [] + entries == entries;
    var joined := CheckJoins(entries);
    return if joined then Ok(entries) else Err(IntegrityError);
  }

  method CheckJoins(entries: seq<Linked>) returns (joined: bool)
    ensures joined <==> AllLinksJoin(entries)
  {
    for index := 0 to |entries|
      invariant forall i :: 0 <= i < index ==> LinksJoin(entries, i)
    {
      if !LinksJoin(entries, index) {
        return false;
      }
    }
    return true;
  }

  function Reversed<T>(xs: seq<T>): (r: seq<T>)
    ensures |r| == |xs| && forall i :: 0 <= i < |xs| ==> r[i] == xs[|xs| - 1 - i]
  {
    if xs == [] then [] else [xs[|xs| - 1]] + Reversed(xs[..|xs| - 1])
  }

  /** Replays entry by entry, carrying the last recomputed state. */
  method ReplayLoop(repo: Repo, plan: CallPlan, tail: Ref) returns (r: Result<Replayed, RunError>)
    requires |plan.calls| == CALLS
    ensures r == Replay(repo, plan, tail)
  {
    hide ReplayStep, ReadEntries;
    var read := ReadEntriesLoop(repo, tail);
    if read.Err? {
      return Err(read.error);
    }
    var entries := read.value;
    assert entries[..|entries|] == entries;
    var soFar := Replayed([], None);
    var index := 0;
    while index < |entries|
      invariant 0 <= index <= |entries|
      invariant soFar.Valid()
      invariant ReplayEntries(repo, plan, entries[..index]) == Ok(soFar)
    {
      assert entries[..index + 1][..index] == entries[..index];
      var step := ReplayStep(repo, plan, soFar, entries[index].entry);
      if step.Err? {
        ErrorPersists(repo, plan, entries, index + 1);
        return Err(step.error);
      }
      soFar := step.value;
      index := index + 1;
    }
    return Ok(soFar);
  }

  /** Once a prefix fails to replay, the whole journal fails with the same error. */
  lemma {:induction false} ErrorPersists(repo: Repo, plan: CallPlan, entries: seq<Linked>, k: nat)
    requires |plan.calls| == CALLS && k <= |entries|
    requires ReplayEntries(repo, plan, entries[..k]).Err?
    ensures ReplayEntries(repo, plan, entries) == Err(ReplayEntries(repo, plan, entries[..k]).error)
    decreases |entries| - k
  {
    if k == |entries| {
      assert entries[..k] == entries;
    } else {
      assert entries[..k + 1][..k] == entries[..k];
      ErrorPersists(repo, plan, entries, k + 1);
    }
  }
}
