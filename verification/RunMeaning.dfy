/** Exactly what replay accepts, said on slots, stored artifacts and states. */
module RunMeaning {
  import opened Prelude
  import opened PilotContracts
  import opened RunContracts
  import opened RunReplay
  import opened RunChain
  import opened RunSafety
  import opened RunExecution

  // ---------------------------------------------------------------- stored artifacts

  /** `ref` leads to `value`: right media, right digest, right size, and the value passes its own validator. */
  ghost predicate Stored(repo: Repo, ref: Ref, media: Media, value: Artifact) {
    ref.media == media && Content(repo, ref, value) && value.Valid(repo.codec)
  }

  /** `ref` leads to content with its digest and size. */
  ghost predicate Content(repo: Repo, ref: Ref, value: Artifact) {
    && ref.sha in repo.objects && repo.objects[ref.sha] == value
    && repo.codec.digest(value) == ref.sha && repo.codec.size(value) == ref.size
  }

  ghost predicate HasContent(repo: Repo, ref: Ref) {
    exists value :: Content(repo, ref, value)
  }

  lemma LoadsExactly(repo: Repo, ref: Ref)
    ensures forall x :: LoadEvent(repo, ref) == Ok(x) <==> Stored(repo, ref, EventMedia, EventArtifact(x))
    ensures forall x :: LoadEntry(repo, ref) == Ok(x) <==> Stored(repo, ref, EntryMedia, EntryArtifact(x))
    ensures forall x :: LoadState(repo, ref) == Ok(x) <==> Stored(repo, ref, StateMedia, StateArtifact(x))
    ensures forall x :: LoadMaterialization(repo, ref) == Ok(x)
                   <==> Stored(repo, ref, MaterializationMedia, MaterializationArtifact(x))
    ensures forall x :: LoadCompletion(repo, ref) == Ok(x) <==> Stored(repo, ref, CompletionMedia, CompletionArtifact(x))
    ensures forall x :: LoadFreeze(repo, ref) == Ok(x)
                   <==> Stored(repo, ref, CandidateFreezeMedia, CandidateFreezeArtifact(x))
  {
  }

  lemma LaterLoadsExactly(repo: Repo, ref: Ref)
    ensures forall x :: LoadSelection(repo, ref) == Ok(x)
                   <==> Stored(repo, ref, ArmSelectionMedia, ArmSelectionArtifact(x))
    ensures forall x :: LoadJoint(repo, ref) == Ok(x)
                   <==> Stored(repo, ref, JointSelectionMedia, JointSelectionArtifact(x))
    ensures forall x :: LoadClosure(repo, ref) == Ok(x) <==> Stored(repo, ref, ClosureMedia, ClosureArtifact(x))
    ensures Present(repo, ref) <==> HasContent(repo, ref)
  {
    if Present(repo, ref) {
      assert Content(repo, ref, repo.objects[ref.sha]);
    }
  }

  /** Untyped JSON artifacts are only recognised behind a JSON media type. */
  lemma JsonLoadsExactly(repo: Repo, ref: Ref)
    ensures forall x :: LoadPrediction(repo, ref) == Ok(x)
                   <==> !(ref.media.OtherMedia? && !ref.media.isJson) && Content(repo, ref, PredictionArtifact(x))
    ensures forall x :: LoadReceipt(repo, ref) == Ok(x)
                   <==> !(ref.media.OtherMedia? && !ref.media.isJson) && Content(repo, ref, ReceiptArtifact(x))
    ensures forall x :: LoadSample(repo, ref) == Ok(x)
                   <==> !(ref.media.OtherMedia? && !ref.media.isJson) && Content(repo, ref, SampleArtifact(x))
  {
  }

  // ---------------------------------------------------------------- which harness a call runs

  /** The arm's own frozen candidate, and its own frozen selection. */
  function OwnCandidate(freeze: JointCandidateFreeze, slot: CallSlot): ArmCandidateFreeze {
    match slot.arm
    case SCORE => freeze.score
    case _ => freeze.full
  }

  function OwnSelection(selections: Selections, slot: CallSlot): ArmSelection {
    match slot.arm
    case SCORE => selections.score
    case _ => selections.full
  }

  /** A slot whose harness the schedule fixes by itself. */
  ghost predicate RunsFixed(slot: CallSlot, m: CallMaterialization) {
    && !m.fallbackUsed
    && (slot.arm == PURE || slot.arm == PURE_AT_B ==> m.executedVariant == Bare)
    && (slot.arm == STATIC ==> m.executedVariant == StaticFrozen)
    && ((slot.arm == SCORE || slot.arm == FULL) && slot.kind == PARENT_FIT ==> m.executedVariant == Parent)
    && ((slot.arm == SCORE || slot.arm == FULL) && (slot.kind == DIAGNOSIS || slot.kind == PROPOSAL) ==>
          m.executedVariant == slot.variant)
  }

  predicate FixedSlot(slot: CallSlot) {
    || slot.arm == PURE || slot.arm == STATIC || slot.arm == PURE_AT_B
    || slot.kind == PARENT_FIT || slot.kind == DIAGNOSIS || slot.kind == PROPOSAL
  }

  /** A slot that tries the arm's candidate runs it if it was frozen valid, and otherwise falls back on the parent. */
  ghost predicate RunsCandidate(own: ArmCandidateFreeze, m: CallMaterialization) {
    if own.candidateValid then
      m.executedHarness == own.effectiveHarness && m.executedVariant == Candidate && !m.fallbackUsed
    else
      m.executedHarness == own.effectiveHarness && m.executedVariant == Parent && m.fallbackUsed
  }

  /** A HOLDOUT slot runs what the arm's selection names. */
  ghost predicate RunsSelected(own: ArmSelection, m: CallMaterialization) {
    && m.executedHarness == own.selectedHarness
    && (own.selectedVariant == SelectCandidate <==> m.executedVariant == Candidate)
    && (own.selectedVariant == SelectParent <==> m.executedVariant == Parent)
    && (own.selectedVariant == SelectParent <==> m.fallbackUsed)
  }

  /** What a call at this slot has to execute, given what is frozen in the state. */
  ghost predicate Runs(repo: Repo, s: RunState, slot: CallSlot, m: CallMaterialization) {
    if FixedSlot(slot) then RunsFixed(slot, m)
    else
      && LoadCandidateFreeze(repo, s).Ok?
      && var own := OwnCandidate(LoadCandidateFreeze(repo, s).value, slot);
      && (slot.kind == CANDIDATE_FIT || slot.kind == GATE || slot.kind == HOLDOUT)
      && (slot.kind == CANDIDATE_FIT || (slot.kind == GATE && slot.variant == Candidate) ==> RunsCandidate(own, m))
      && (slot.kind == GATE && slot.variant != Candidate ==>
            m.executedHarness == own.parentHarness && m.executedVariant == Parent && !m.fallbackUsed)
      && (slot.kind == HOLDOUT ==>
            && LoadJointSelection(repo, s).Ok?
            && RunsSelected(OwnSelection(LoadJointSelection(repo, s).value, slot), m))
  }

  /** The execution policy enforces exactly that. */
  lemma RunsExactly(repo: Repo, s: RunState, slot: CallSlot, m: CallMaterialization)
    ensures Runs(repo, s, slot, m)
       <==> && ExpectedExecution(repo, s, slot).Ok?
            && var e := ExpectedExecution(repo, s, slot).value;
            && (e.harness.Some? ==> m.executedHarness == e.harness.value)
            && m.executedVariant == e.variant && m.fallbackUsed == e.fallback
  {
    hide LoadCandidateFreeze, LoadJointSelection;
  }

  /** In every closed run every call executed what its slot and the frozen artifacts say. */
  lemma EveryCallRuns(repo: Repo, plan: CallPlan, tail: Ref, s: RunState, i: nat)
    requires RunShape(plan) && ClosedRun(repo, plan, tail, s) && i < CALLS
    ensures |s.completions| == CALLS && MaterializationAt(repo, s, i).Ok?
    ensures MaterializationAt(repo, s, i).value.slot == plan.calls[i]
    ensures Runs(repo, s, plan.calls[i], MaterializationAt(repo, s, i).value)
  {
    hide ClosedRun, Replay, VerifyGraderBinding, Runs, ExpectedExecution;
    ClosedRunInvariant(repo, plan, tail, s);
    assert SlotShape(plan.calls[i], i);
    assert CallRecorded(repo, plan, s, i);
    RunsExactly(repo, s, plan.calls[i], MaterializationAt(repo, s, i).value);
  }

  /**
   In every closed run the variant of each call: bare for PURE and PURE@B, the frozen static one for STATIC,
   the parent for parent FIT and GATE controls, the slot's own for controllers, and for HOLDOUT
   the candidate exactly when the loaded selection selects it, and otherwise the parent.
   */
  lemma VariantsByKind(repo: Repo, plan: CallPlan, tail: Ref, s: RunState, i: nat)
    requires RunShape(plan) && ClosedRun(repo, plan, tail, s) && i < CALLS
    ensures |s.completions| == CALLS && MaterializationAt(repo, s, i).Ok?
    ensures LoadJointSelection(repo, s).Ok? && LoadCandidateFreeze(repo, s).Ok?
    ensures var slot, ran := plan.calls[i], MaterializationAt(repo, s, i).value.executedVariant;
            match slot.arm
            case PURE => ran == Bare
            case PURE_AT_B => ran == Bare
            case STATIC => ran == StaticFrozen
            case _ =>
              && (slot.kind == PARENT_FIT || (slot.kind == GATE && slot.variant != Candidate) ==> ran == Parent)
              && (slot.kind == DIAGNOSIS || slot.kind == PROPOSAL ==> ran == slot.variant)
              && (slot.kind == CANDIDATE_FIT || (slot.kind == GATE && slot.variant == Candidate) ==>
                    var freeze := LoadCandidateFreeze(repo, s).value;
                    var valid := if slot.arm == SCORE then freeze.score.candidateValid else freeze.full.candidateValid;
                    ran == if valid then Candidate else Parent)
              && (slot.kind == HOLDOUT ==>
                    var chosen := LoadJointSelection(repo, s).value;
                    var selected := if slot.arm == SCORE then chosen.score.selectedVariant else chosen.full.selectedVariant;
                    ran == if selected == SelectCandidate then Candidate else Parent)
  {
    hide ClosedRun, Replay, VerifyGraderBinding, MaterializationAt, LoadJointSelection, LoadCandidateFreeze;
    EveryCallRuns(repo, plan, tail, s, i);
    ClosedRunInvariant(repo, plan, tail, s);
  }

  // ---------------------------------------------------------------- exactly what is accepted

  /** What an arm's frozen candidate says: a candidate of its own to run, or the parent in its place. */
  predicate FrozenSays(own: ArmCandidateFreeze) {
    && own.proposalCompletion.media == CompletionMedia
    && (own.candidateValid ==>
          own.candidateHarness == Some(own.effectiveHarness) && own.effectiveHarness != own.parentHarness)
    && (!own.candidateValid ==> own.candidateHarness == None && own.effectiveHarness == own.parentHarness)
    && (own.fallbackUsed <==> !own.candidateValid)
  }

  /** In every closed run both arms froze over one parent, from proposals of their own. */
  lemma ClosedFreezeSays(repo: Repo, plan: CallPlan, tail: Ref, s: RunState)
    requires RunShape(plan) && ClosedRun(repo, plan, tail, s)
    ensures LoadCandidateFreeze(repo, s).Ok?
    ensures var f := LoadCandidateFreeze(repo, s).value;
            && f.score.arm == SCORE && f.full.arm == FULL && FrozenSays(f.score) && FrozenSays(f.full)
            && f.score.parentHarness == f.full.parentHarness
            && f.score.proposalCompletion != f.full.proposalCompletion
  {
    assert |plan.calls| == CALLS;
    hide RunInvariant, RunShape, Replay;
    ClosedRunInvariant(repo, plan, tail, s);
    LoadsExactly(repo, s.candidateFreeze.value);
  }

  /** A materialization that may be opened in this state. */
  ghost predicate Opens(repo: Repo, plan: CallPlan, s: RunState, m: CallMaterialization)
    requires |plan.calls| == CALLS
  {
    && !s.closed && s.openMaterialization.None? && s.nextSlot < CALLS
    && var slot := plan.calls[s.nextSlot];
    && m.planFingerprint == plan.fingerprint && m.slot == slot && m.slotReference == repo.codec.slotDigest(slot)
    && m.candidateFreeze == (if slot.globalSlot < 14 then None else s.candidateFreeze)
    && m.jointSelection == (if slot.globalSlot < 40 then None else s.jointSelection)
    && (slot.requiresCandidates ==> m.candidateFreeze.Some?)
    && (slot.requiresSelections ==> m.jointSelection.Some?)
    && Runs(repo, s, slot, m)
    && HasContent(repo, m.request) && HasContent(repo, m.executedHarness)
  }

  lemma OpensExactly(repo: Repo, plan: CallPlan, s: RunState, m: CallMaterialization)
    requires |plan.calls| == CALLS
    ensures VerifyMaterialization(repo, plan, s, m).Ok? <==> Opens(repo, plan, s, m)
  {
    hide Runs, ExpectedExecution, Present, HasContent;
    LaterLoadsExactly(repo, m.request);
    LaterLoadsExactly(repo, m.executedHarness);
    if !s.closed && s.nextSlot < CALLS {
      RunsExactly(repo, s, plan.calls[s.nextSlot], m);
    }
  }

  /** The role under which a slot is graded. */
  function RoleFor(slot: CallSlot): GradeRole {
    if slot.arm == PURE || slot.arm == STATIC then BaselineRole
    else if slot.kind == PARENT_FIT then ParentFitRole
    else if slot.kind == CANDIDATE_FIT then CandidateFitRole
    else if slot.kind == HOLDOUT then HoldoutRole
    else GateRole(slot.variant)
  }

  predicate IsGraded(slot: CallSlot) {
    || slot.arm == PURE || slot.arm == STATIC
    || (slot.arm != PURE_AT_B
        && (slot.kind == PARENT_FIT || slot.kind == CANDIDATE_FIT || slot.kind == GATE || slot.kind == HOLDOUT))
  }

  predicate IsJsonRef(ref: Ref) {
    ref.media.OtherMedia? ==> ref.media.isJson
  }

  /** A receipt for exactly this call, over exactly this prediction. */
  ghost predicate Certifies(receipt: GraderReceipt, m: CallMaterialization, prediction: int) {
    var b := receipt.binding;
    && b.planFingerprint == m.planFingerprint && b.slotReference == m.slotReference
    && b.callId == m.slot.callId && b.arm == m.slot.arm && b.task == m.slot.task && b.role == RoleFor(m.slot)
    && b.intendedVariant == m.intendedVariant && b.executedVariant == m.executedVariant
    && b.fallbackUsed == m.fallbackUsed
    && receipt.prediction == prediction
  }

  /** From the second barrier on a receipt is unlocked by the two frozen selections. */
  ghost predicate Unlocked(repo: Repo, receipt: GraderReceipt, m: CallMaterialization) {
    exists joint ::
      && m.jointSelection.Some? && Stored(repo, m.jointSelection.value, JointSelectionMedia, JointSelectionArtifact(joint))
      && joint.scoreSelection.sha != joint.fullSelection.sha
      && receipt.unlock
         == Some(HoldoutUnlock(m.planFingerprint, joint.scoreSelection.sha, joint.fullSelection.sha))
  }

  /** What a completion has to present for grading. */
  ghost predicate Graded(repo: Repo, m: CallMaterialization, c: CallCompletion) {
    if IsGraded(m.slot) then
      && c.prediction.Some? && c.graderReceipt.Some?
      && IsJsonRef(c.prediction.value) && IsJsonRef(c.graderReceipt.value)
      && exists prediction, receipt ::
           && Content(repo, c.prediction.value, PredictionArtifact(prediction))
           && Content(repo, c.graderReceipt.value, ReceiptArtifact(receipt))
           && Certifies(receipt, m, prediction)
           && (m.slot.globalSlot >= 40 ==> Unlocked(repo, receipt, m))
    else
      && c.prediction.None? && c.graderReceipt.None?
      && (m.slot.arm == PURE_AT_B ==>
            IsJsonRef(c.modelOutput) && Content(repo, c.modelOutput, SampleArtifact(m.slot.callId)))
  }

  lemma UnlockedExactly(repo: Repo, receipt: GraderReceipt, m: CallMaterialization)
    ensures Unlocked(repo, receipt, m)
       <==> && receipt.unlock.Some? && m.jointSelection.Some? && LoadJoint(repo, m.jointSelection.value).Ok?
            && var joint := LoadJoint(repo, m.jointSelection.value).value;
            && joint.scoreSelection.sha != joint.fullSelection.sha
            && receipt.unlock.value
               == HoldoutUnlock(m.planFingerprint, joint.scoreSelection.sha, joint.fullSelection.sha)
  {
    hide LoadJoint, Stored;
    if m.jointSelection.Some? {
      LaterLoadsExactly(repo, m.jointSelection.value);
      if LoadJoint(repo, m.jointSelection.value).Ok? {
        var joint := LoadJoint(repo, m.jointSelection.value).value;
        assert Stored(repo, m.jointSelection.value, JointSelectionMedia, JointSelectionArtifact(joint));
      }
      forall joint | Stored(repo, m.jointSelection.value, JointSelectionMedia, JointSelectionArtifact(joint))
        ensures LoadJoint(repo, m.jointSelection.value) == Ok(joint)
      {
      }
    }
  }

  lemma CertifiesExactly(receipt: GraderReceipt, m: CallMaterialization, prediction: int)
    requires IsGraded(m.slot)
    ensures ExpectedGradeRole(m.slot).Some?
    ensures Certifies(receipt, m, prediction)
       <==> receipt.binding == ExpectedBinding(m, ExpectedGradeRole(m.slot).value) && receipt.prediction == prediction
  {
  }

  lemma GradedExactly(repo: Repo, m: CallMaterialization, c: CallCompletion)
    ensures VerifyGraderBinding(repo, m, c).Ok? <==> Graded(repo, m, c)
  {
    hide LoadPrediction, LoadReceipt, LoadSample, LoadJoint, Content, Certifies, Unlocked;
    if IsGraded(m.slot) {
      GradedCallExactly(repo, m, c);
    } else {
      assert ExpectedGradeRole(m.slot).None?;
      JsonLoadsExactly(repo, c.modelOutput);
    }
  }

  lemma GradedCallExactly(repo: Repo, m: CallMaterialization, c: CallCompletion)
    requires IsGraded(m.slot)
    ensures VerifyGraderBinding(repo, m, c).Ok? <==> Graded(repo, m, c)
  {
    hide LoadPrediction, LoadReceipt, LoadSample, LoadJoint, Content, Certifies, Unlocked, ExpectedBinding;
    hide ExpectedGradeRole, IsGraded;
    CertifiesExactly(GraderReceipt(GradeBinding(0, 0, m.slot.callId, m.slot.arm, BaselineRole, Bare, Bare, false, None), 0, None), m, 0);
    if c.prediction.Some? && c.graderReceipt.Some? {
      JsonLoadsExactly(repo, c.prediction.value);
      JsonLoadsExactly(repo, c.graderReceipt.value);
      if LoadPrediction(repo, c.prediction.value).Ok? && LoadReceipt(repo, c.graderReceipt.value).Ok? {
        var prediction := LoadPrediction(repo, c.prediction.value).value;
        var receipt := LoadReceipt(repo, c.graderReceipt.value).value;
        CertifiesExactly(receipt, m, prediction);
        UnlockedExactly(repo, receipt, m);
        assert Content(repo, c.prediction.value, PredictionArtifact(prediction));
        assert Content(repo, c.graderReceipt.value, ReceiptArtifact(receipt));
      }
    }
  }

  /** A completion that closes the open call. */
  ghost predicate Closes(repo: Repo, plan: CallPlan, s: RunState, c: CallCompletion, m: CallMaterialization)
    requires |plan.calls| == CALLS
  {
    && s.openMaterialization == Some(c.materialization)
    && Stored(repo, c.materialization, MaterializationMedia, MaterializationArtifact(m))
    && s.nextSlot < CALLS
    && var slot := plan.calls[s.nextSlot];
    && m.slot == slot
    && c.planFingerprint == plan.fingerprint && c.callId == slot.callId && c.globalSlot == slot.globalSlot
    && c.slotReference == m.slotReference
    && HasContent(repo, c.attemptOutcome) && HasContent(repo, c.modelOutput)
    && Graded(repo, m, c)
  }

  lemma ClosesExactly(repo: Repo, plan: CallPlan, s: RunState, c: CallCompletion)
    requires |plan.calls| == CALLS && s.Valid()
    ensures VerifyCompletion(repo, plan, s, c).Ok? <==> exists m :: Closes(repo, plan, s, c, m)
  {
    hide LoadMaterialization, Stored, Present, HasContent, VerifyGraderBinding, Graded;
    LoadsExactly(repo, c.materialization);
    LaterLoadsExactly(repo, c.attemptOutcome);
    LaterLoadsExactly(repo, c.modelOutput);
    if LoadMaterialization(repo, c.materialization).Ok? {
      var m := LoadMaterialization(repo, c.materialization).value;
      GradedExactly(repo, m, c);
      assert Stored(repo, c.materialization, MaterializationMedia, MaterializationArtifact(m));
      assert VerifyCompletion(repo, plan, s, c).Ok? ==> Closes(repo, plan, s, c, m);
    }
    forall m | Closes(repo, plan, s, c, m)
      ensures LoadMaterialization(repo, c.materialization) == Ok(m)
    {
    }
  }

  /** One arm's frozen candidate: its parent is what its five parent FIT calls ran, and its artifacts exist. */
  ghost predicate ArmFrozen(repo: Repo, s: RunState, lo: nat, own: ArmCandidateFreeze)
    requires lo + 5 <= |s.completions|
  {
    && (forall i :: lo <= i < lo + 5 ==> ExecutedAt(repo, s, i) == Some(own.parentHarness))
    && HasContent(repo, own.candidateParse) && HasContent(repo, own.parentHarness)
    && (own.candidateHarness.Some? ==> HasContent(repo, own.candidateHarness.value))
  }

  lemma {:induction false} ExecutedExactly(repo: Repo, s: RunState, lo: nat, hi: nat)
    requires lo <= hi <= |s.completions|
    ensures ExecutedHarnesses(repo, s.completions[lo..hi]).Ok?
       <==> forall i :: lo <= i < hi ==> ExecutedAt(repo, s, i).Some?
    decreases hi - lo
  {
    hide LoadCompletion, LoadMaterialization;
    if lo < hi {
      assert s.completions[lo..hi][0] == s.completions[lo];
      assert s.completions[lo..hi][1..] == s.completions[lo + 1..hi];
      ExecutedExactly(repo, s, lo + 1, hi);
      assert ExecutedHarnesses(repo, s.completions[lo..hi]).Ok?
        <==> ExecutedAt(repo, s, lo).Some? && ExecutedHarnesses(repo, s.completions[lo + 1..hi]).Ok?;
    }
  }

  lemma ArmFrozenExactly(repo: Repo, s: RunState, lo: nat, own: ArmCandidateFreeze)
    requires lo + 5 <= |s.completions|
    ensures VerifyArmFreeze(repo, s.completions[lo..lo + 5], own).Ok? <==> ArmFrozen(repo, s, lo, own)
  {
    hide ExecutedAt, ExecutedHarnesses, Present, HasContent;
    var parents := ExecutedHarnesses(repo, s.completions[lo..lo + 5]);
    ExecutedExactly(repo, s, lo, lo + 5);
    LaterLoadsExactly(repo, own.candidateParse);
    LaterLoadsExactly(repo, own.parentHarness);
    if own.candidateHarness.Some? {
      LaterLoadsExactly(repo, own.candidateHarness.value);
    }
    if parents.Ok? {
      HarnessesAreExecuted(repo, s, lo, lo + 5);
      assert forall i :: lo <= i < lo + 5 ==> ExecutedAt(repo, s, i) == Some(parents.value[i - lo]);
      assert forall k :: 0 <= k < 5 ==> ExecutedAt(repo, s, lo + k) == Some(parents.value[k]);
    }
  }

  /** A joint candidate freeze that may be activated in this state. */
  ghost predicate FreezesBoth(repo: Repo, plan: CallPlan, s: RunState, f: JointCandidateFreeze) {
    && s.nextSlot == 14 == |s.completions| && s.openMaterialization.None? && s.candidateFreeze.None?
    && f.planFingerprint == plan.fingerprint
    && f.score.proposalCompletion == s.completions[12] && f.full.proposalCompletion == s.completions[13]
    && ArmFrozen(repo, s, 0, f.score) && ArmFrozen(repo, s, 5, f.full)
  }

  lemma FreezesExactly(repo: Repo, plan: CallPlan, s: RunState, f: JointCandidateFreeze)
    requires s.Valid()
    ensures VerifyCandidateFreeze(repo, plan, s, f).Ok? <==> FreezesBoth(repo, plan, s, f)
  {
    hide VerifyArmFreeze, ArmFrozen;
    if s.nextSlot == 14 {
      ArmFrozenExactly(repo, s, 0, f.score);
      ArmFrozenExactly(repo, s, 5, f.full);
    }
  }

  /** One arm's selection, from its own eight GATE calls, obeying the rollback policy. */
  ghost predicate ArmSelected(
    repo: Repo, plan: CallPlan, s: RunState, lo: nat, own: ArmCandidateFreeze, selection: ArmSelection)
    requires lo + 8 <= |s.completions|
  {
    && selection.planFingerprint == plan.fingerprint && selection.arm == own.arm
    && s.candidateFreeze == Some(selection.candidateFreeze)
    && selection.gateCompletions == s.completions[lo..lo + 8]
    && (selection.forcedRollback <==> !own.candidateValid)
    && (!own.candidateValid ==> selection.selectedVariant == SelectParent)
    && selection.selectedHarness
       == (if selection.selectedVariant == SelectParent then own.parentHarness else own.effectiveHarness)
    && HasContent(repo, selection.decision)
  }

  /** A joint selection that may be activated in this state. */
  ghost predicate SelectsBoth(
    repo: Repo, plan: CallPlan, s: RunState, j: JointSelectionFreeze,
    f: JointCandidateFreeze, score: ArmSelection, full: ArmSelection)
  {
    && s.nextSlot == 40 == |s.completions| && s.openMaterialization.None? && s.jointSelection.None?
    && s.candidateFreeze.Some?
    && Stored(repo, s.candidateFreeze.value, CandidateFreezeMedia, CandidateFreezeArtifact(f))
    && Stored(repo, j.scoreSelection, ArmSelectionMedia, ArmSelectionArtifact(score))
    && Stored(repo, j.fullSelection, ArmSelectionMedia, ArmSelectionArtifact(full))
    && j.planFingerprint == plan.fingerprint && s.candidateFreeze == Some(j.candidateFreeze)
    && j.gateCompletions == s.completions[24..40]
    && ArmSelected(repo, plan, s, 24, f.score, score) && ArmSelected(repo, plan, s, 32, f.full, full)
  }

  lemma ArmSelectedExactly(
    repo: Repo, plan: CallPlan, s: RunState, lo: nat, own: ArmCandidateFreeze, selection: ArmSelection, freezeRef: Ref)
    requires lo + 8 <= |s.completions| && s.candidateFreeze == Some(freezeRef)
    ensures ArmSelected(repo, plan, s, lo, own, selection)
       <==> && VerifyArmSelection(selection, own, s.completions[lo..lo + 8], freezeRef, plan.fingerprint).Ok?
            && Present(repo, selection.decision)
  {
    hide Present, HasContent;
    LaterLoadsExactly(repo, selection.decision);
  }

  lemma SelectsExactly(repo: Repo, plan: CallPlan, s: RunState, j: JointSelectionFreeze)
    requires s.Valid()
    ensures VerifyJointSelection(repo, plan, s, j).Ok?
       <==> exists f, score, full :: SelectsBoth(repo, plan, s, j, f, score, full)
  {
    hide LoadFreeze, LoadSelection, Stored, ArmSelected, VerifyArmSelection, Present;
    if s.candidateFreeze.Some? && s.nextSlot == 40 {
      LoadsExactly(repo, s.candidateFreeze.value);
      LaterLoadsExactly(repo, j.scoreSelection);
      LaterLoadsExactly(repo, j.fullSelection);
      forall f, score, full | SelectsBoth(repo, plan, s, j, f, score, full)
        ensures VerifyJointSelection(repo, plan, s, j).Ok?
      {
        ArmSelectedExactly(repo, plan, s, 24, f.score, score, s.candidateFreeze.value);
        ArmSelectedExactly(repo, plan, s, 32, f.full, full, s.candidateFreeze.value);
      }
      if VerifyJointSelection(repo, plan, s, j).Ok? {
        var f := LoadFreeze(repo, s.candidateFreeze.value).value;
        var score, full := LoadSelection(repo, j.scoreSelection).value, LoadSelection(repo, j.fullSelection).value;
        ArmSelectedExactly(repo, plan, s, 24, f.score, score, s.candidateFreeze.value);
        ArmSelectedExactly(repo, plan, s, 32, f.full, full, s.candidateFreeze.value);
        assert SelectsBoth(repo, plan, s, j, f, score, full);
      }
    }
  }

  /** What an event does to a state, if it may happen at all. */
  ghost predicate Leads(repo: Repo, plan: CallPlan, s: RunState, action: Action, next: RunState)
    requires |plan.calls| == CALLS
  {
    match action
    case Open => false
    case MaterializeCall(ref) =>
      && next == s.(openMaterialization := Some(ref))
      && exists m :: Stored(repo, ref, MaterializationMedia, MaterializationArtifact(m)) && Opens(repo, plan, s, m)
    case CompleteCall(ref) =>
      && next == s.(
        openMaterialization := None, completions := s.completions + [ref], nextSlot := s.nextSlot + 1)
      && exists c, m :: Stored(repo, ref, CompletionMedia, CompletionArtifact(c)) && Closes(repo, plan, s, c, m)
    case FreezeCandidates(ref) =>
      && next == s.(candidateFreeze := Some(ref))
      && exists f :: Stored(repo, ref, CandidateFreezeMedia, CandidateFreezeArtifact(f)) && FreezesBoth(repo, plan, s, f)
    case FreezeSelections(ref) =>
      && next == s.(jointSelection := Some(ref))
      && exists j, f, score, full ::
           && Stored(repo, ref, JointSelectionMedia, JointSelectionArtifact(j))
           && SelectsBoth(repo, plan, s, j, f, score, full)
    case Close =>
      next == s.(closed := true) && s.nextSlot == 100 && s.openMaterialization.None? && s.jointSelection.Some?
  }

  lemma LeadsExactly(repo: Repo, plan: CallPlan, s: RunState, action: Action, next: RunState)
    requires |plan.calls| == CALLS && s.Valid()
    ensures Advance(repo, plan, s, action) == Ok(next) <==> Leads(repo, plan, s, action, next)
  {
    hide LoadMaterialization, LoadCompletion, LoadFreeze, LoadJoint, Stored, Opens, Closes, FreezesBoth, SelectsBoth;
    hide VerifyMaterialization, VerifyCompletion, VerifyCandidateFreeze, VerifyJointSelection;
    match action {
      case Open =>
      case Close =>
      case MaterializeCall(ref) =>
        LoadsExactly(repo, ref);
        if LoadMaterialization(repo, ref).Ok? {
          OpensExactly(repo, plan, s, LoadMaterialization(repo, ref).value);
        }
      case CompleteCall(ref) =>
        LoadsExactly(repo, ref);
        if LoadCompletion(repo, ref).Ok? {
          ClosesExactly(repo, plan, s, LoadCompletion(repo, ref).value);
        }
      case FreezeCandidates(ref) =>
        LoadsExactly(repo, ref);
        if LoadFreeze(repo, ref).Ok? {
          FreezesExactly(repo, plan, s, LoadFreeze(repo, ref).value);
        }
      case FreezeSelections(ref) =>
        LaterLoadsExactly(repo, ref);
        if LoadJoint(repo, ref).Ok? {
          SelectsExactly(repo, plan, s, LoadJoint(repo, ref).value);
        }
    }
  }

  /** One transition is accepted, with this successor, exactly when it leads there and the state contract holds. */
  lemma AppliesExactly(repo: Repo, plan: CallPlan, previous: Option<RunState>, event: RunEvent, next: RunState)
    requires |plan.calls| == CALLS && (previous.Some? ==> previous.value.Valid())
    ensures ApplyEvent(repo, plan, previous, event) == Ok(next)
       <==> && event.planFingerprint == plan.fingerprint
            && match previous
               case None =>
                 event.action == Open && next == RunState(plan.fingerprint, 0, None, [], None, None, false)
               case Some(s) =>
                 s.planFingerprint == plan.fingerprint && !s.closed && Leads(repo, plan, s, event.action, next)
                 && next.Valid()
  {
    hide Advance, Leads;
    if previous.Some? {
      LeadsExactly(repo, plan, previous.value, event.action, next);
      if Advance(repo, plan, previous.value, event.action).Ok? {
        LeadsExactly(repo, plan, previous.value, event.action, Advance(repo, plan, previous.value, event.action).value);
      }
    }
  }

  lemma CompletingKeepsContract(repo: Repo, plan: CallPlan, s: RunState, ref: Ref)
    requires RunShape(plan) && RunInvariant(repo, plan, s)
    requires LoadCompletion(repo, ref).Ok? && ref.media == CompletionMedia
    requires VerifyCompletion(repo, plan, s, LoadCompletion(repo, ref).value).Ok?
    ensures s.(openMaterialization := None, completions := s.completions + [ref], nextSlot := s.nextSlot + 1).Valid()
  {
    hide VerifyGraderBinding, CallRecorded, CandidatesSound, SelectionsSound, Authorized;
    CompletionsNeverRepeat(repo, plan, s, ref);
    assert OpenRecorded(repo, plan, s);
  }

  /** In every state a run can reach, the state contract follows from the transition itself: it never rejects one. */
  lemma ContractFollows(repo: Repo, plan: CallPlan, s: RunState, action: Action, next: RunState)
    requires RunShape(plan) && RunInvariant(repo, plan, s) && Leads(repo, plan, s, action, next)
    ensures next.Valid()
  {
    assert |plan.calls| == CALLS;
    hide Opens, Closes, FreezesBoth, SelectsBoth, RunInvariant, RunShape, VerifyCompletion;
    assert s.Valid() by {
      InvariantIsValid(repo, plan, s);
    }
    match action {
      case Open =>
      case Close =>
      case MaterializeCall(ref) =>
        var m :| Stored(repo, ref, MaterializationMedia, MaterializationArtifact(m)) && Opens(repo, plan, s, m);
        assert s.nextSlot < CALLS by {
          OpensBeforeEnd(repo, plan, s, m);
        }
      case CompleteCall(ref) =>
        var c, m :| Stored(repo, ref, CompletionMedia, CompletionArtifact(c)) && Closes(repo, plan, s, c, m);
        LoadsExactly(repo, ref);
        ClosesExactly(repo, plan, s, c);
        CompletingKeepsContract(repo, plan, s, ref);
      case FreezeCandidates(ref) =>
        var f :| Stored(repo, ref, CandidateFreezeMedia, CandidateFreezeArtifact(f)) && FreezesBoth(repo, plan, s, f);
        assert s.nextSlot == 14 by {
          FreezesAtBarrier(repo, plan, s, f);
        }
      case FreezeSelections(ref) =>
        var j, f, score, full :|
          && Stored(repo, ref, JointSelectionMedia, JointSelectionArtifact(j))
          && SelectsBoth(repo, plan, s, j, f, score, full);
        assert s.nextSlot == 40 by {
          SelectsAtBarrier(repo, plan, s, j, f, score, full);
        }
    }
  }

  lemma InvariantIsValid(repo: Repo, plan: CallPlan, s: RunState)
    requires |plan.calls| == CALLS && RunInvariant(repo, plan, s)
    ensures s.Valid()
  {
  }

  lemma OpensBeforeEnd(repo: Repo, plan: CallPlan, s: RunState, m: CallMaterialization)
    requires |plan.calls| == CALLS && Opens(repo, plan, s, m)
    ensures s.nextSlot < CALLS
  {
  }

  lemma FreezesAtBarrier(repo: Repo, plan: CallPlan, s: RunState, f: JointCandidateFreeze)
    requires FreezesBoth(repo, plan, s, f)
    ensures s.nextSlot == 14
  {
  }

  lemma SelectsAtBarrier(
    repo: Repo, plan: CallPlan, s: RunState, j: JointSelectionFreeze,
    f: JointCandidateFreeze, score: ArmSelection, full: ArmSelection)
    requires SelectsBoth(repo, plan, s, j, f, score, full)
    ensures s.nextSlot == 40
  {
  }

  /** From every reachable state an event is applied, with this successor, exactly when it leads there. */
  lemma ReachedAppliesExactly(repo: Repo, plan: CallPlan, s: RunState, event: RunEvent, next: RunState)
    requires RunShape(plan) && RunInvariant(repo, plan, s)
    ensures s.Valid()
    ensures ApplyEvent(repo, plan, Some(s), event) == Ok(next)
       <==> && event.planFingerprint == plan.fingerprint == s.planFingerprint && !s.closed
            && Leads(repo, plan, s, event.action, next)
  {
    assert |plan.calls| == CALLS;
    hide Leads, RunInvariant, ApplyEvent;
    InvariantIsValid(repo, plan, s);
    AppliesExactly(repo, plan, Some(s), event, next);
    if Leads(repo, plan, s, event.action, next) {
      ContractFollows(repo, plan, s, event.action, next);
    }
  }

  // ---------------------------------------------------------------- which error

  /** The position of the run alone lets this kind of event happen now. */
  predicate InTurn(plan: CallPlan, previous: Option<RunState>, action: Action)
    requires |plan.calls| == CALLS
  {
    if previous.None? then action.Open?
    else
      var s := previous.value;
      && !s.closed
      && match action
         case Open => false
         case MaterializeCall(_) =>
           && s.openMaterialization.None? && s.nextSlot < CALLS
           && (plan.calls[s.nextSlot].requiresCandidates ==> s.candidateFreeze.Some?)
           && (plan.calls[s.nextSlot].requiresSelections ==> s.jointSelection.Some?)
         case CompleteCall(_) => s.openMaterialization.Some?
         case FreezeCandidates(_) => s.nextSlot == 14 && s.openMaterialization.None? && s.candidateFreeze.None?
         case FreezeSelections(_) =>
           s.nextSlot == 40 && s.openMaterialization.None? && s.jointSelection.None? && s.candidateFreeze.Some?
         case Close => s.nextSlot == 100 && s.openMaterialization.None? && s.jointSelection.Some?
  }

  /** The artifact that an event carries is stored; a materialization also repeats the next slot, if there is one to open. */
  ghost predicate PayloadFits(repo: Repo, plan: CallPlan, s: RunState, action: Action)
    requires |plan.calls| == CALLS
  {
    match action
    case MaterializeCall(ref) =>
      exists m :: Stored(repo, ref, MaterializationMedia, MaterializationArtifact(m)) && Repeats(repo, plan, s, m)
    case CompleteCall(ref) => exists c :: Stored(repo, ref, CompletionMedia, CompletionArtifact(c))
    case FreezeCandidates(ref) => exists f :: Stored(repo, ref, CandidateFreezeMedia, CandidateFreezeArtifact(f))
    case FreezeSelections(ref) => exists j :: Stored(repo, ref, JointSelectionMedia, JointSelectionArtifact(j))
    case _ => true
  }

  predicate Repeats(repo: Repo, plan: CallPlan, s: RunState, m: CallMaterialization)
    requires |plan.calls| == CALLS
  {
    s.openMaterialization.None? && s.nextSlot < CALLS ==>
      var slot := plan.calls[s.nextSlot];
      && m.planFingerprint == plan.fingerprint && m.slot == slot && m.slotReference == repo.codec.slotDigest(slot)
      && m.candidateFreeze == (if slot.globalSlot < 14 then None else s.candidateFreeze)
      && m.jointSelection == (if slot.globalSlot < 40 then None else s.jointSelection)
  }

  lemma LoadsFailAlike(repo: Repo, ref: Ref)
    ensures LoadMaterialization(repo, ref).Err? ==> LoadMaterialization(repo, ref).error == IntegrityError
    ensures LoadCompletion(repo, ref).Err? ==> LoadCompletion(repo, ref).error == IntegrityError
    ensures LoadFreeze(repo, ref).Err? ==> LoadFreeze(repo, ref).error == IntegrityError
    ensures LoadJoint(repo, ref).Err? ==> LoadJoint(repo, ref).error == IntegrityError
    ensures LoadSelection(repo, ref).Err? ==> LoadSelection(repo, ref).error == IntegrityError
  {
  }

  lemma ExecutionFails(repo: Repo, s: RunState, slot: CallSlot)
    ensures ExpectedExecution(repo, s, slot).Err? ==> ExpectedExecution(repo, s, slot).error == IntegrityError
  {
  }

  lemma GradingFails(repo: Repo, m: CallMaterialization, c: CallCompletion)
    ensures VerifyGraderBinding(repo, m, c).Err? ==> VerifyGraderBinding(repo, m, c).error in {IntegrityError, InvalidModel}
  {
  }

  lemma {:induction false} ExecutedFails(repo: Repo, completions: seq<Ref>)
    ensures ExecutedHarnesses(repo, completions).Err? ==> ExecutedHarnesses(repo, completions).error == IntegrityError
    decreases |completions|
  {
    if completions != [] {
      ExecutedFails(repo, completions[1..]);
    }
  }

  lemma MaterializeFails(repo: Repo, plan: CallPlan, s: RunState, action: Action, m: CallMaterialization)
    requires RunShape(plan) && !s.closed && action.MaterializeCall?
    ensures var r, turn := VerifyMaterialization(repo, plan, s, m), InTurn(plan, Some(s), action);
            && (r.Err? ==> r.error in {ProtocolError, IntegrityError})
            && (r == Err(ProtocolError) ==> !turn)
            && (!turn && Repeats(repo, plan, s, m) ==> r == Err(ProtocolError))
  {
    hide ExpectedExecution;
    if s.nextSlot < CALLS {
      assert SlotShape(plan.calls[s.nextSlot], s.nextSlot);
      ExecutionFails(repo, s, plan.calls[s.nextSlot]);
    }
  }

  lemma CompleteFails(repo: Repo, plan: CallPlan, s: RunState, c: CallCompletion)
    requires |plan.calls| == CALLS && s.Valid()
    ensures var r := VerifyCompletion(repo, plan, s, c);
            && (r == Err(ProtocolError) <==> s.openMaterialization.None?)
            && (r.Err? ==> r.error in {ProtocolError, IntegrityError, InvalidModel})
  {
    hide VerifyGraderBinding, LoadMaterialization;
    LoadsFailAlike(repo, c.materialization);
    if LoadMaterialization(repo, c.materialization).Ok? {
      GradingFails(repo, LoadMaterialization(repo, c.materialization).value, c);
    }
  }

  lemma FreezeFails(repo: Repo, plan: CallPlan, s: RunState, f: JointCandidateFreeze)
    requires s.Valid()
    ensures var r := VerifyCandidateFreeze(repo, plan, s, f);
            && (r == Err(ProtocolError) <==>
                  s.nextSlot != 14 || s.openMaterialization.Some? || s.candidateFreeze.Some?)
            && (r.Err? ==> r.error in {ProtocolError, IntegrityError})
  {
    hide ExecutedHarnesses, Present;
    if s.nextSlot == 14 {
      ExecutedFails(repo, s.completions[0..5]);
      ExecutedFails(repo, s.completions[5..10]);
    }
  }

  lemma SelectionFails(repo: Repo, plan: CallPlan, s: RunState, j: JointSelectionFreeze)
    requires s.Valid()
    ensures var r := VerifyJointSelection(repo, plan, s, j);
            && (r == Err(ProtocolError) <==>
                  s.nextSlot != 40 || s.openMaterialization.Some? || s.jointSelection.Some? || s.candidateFreeze.None?)
            && (r.Err? ==> r.error in {ProtocolError, IntegrityError})
  {
    hide LoadFreeze, LoadSelection, Present;
    LoadsFailAlike(repo, j.scoreSelection);
    LoadsFailAlike(repo, j.fullSelection);
    if s.candidateFreeze.Some? {
      LoadsFailAlike(repo, s.candidateFreeze.value);
    }
  }

  lemma AdvanceFails(repo: Repo, plan: CallPlan, s: RunState, action: Action)
    requires RunShape(plan) && s.Valid() && !s.closed
    ensures var r := Advance(repo, plan, s, action);
            && (r == Err(ProtocolError) ==> !InTurn(plan, Some(s), action))
            && (!InTurn(plan, Some(s), action) && PayloadFits(repo, plan, s, action) ==> r == Err(ProtocolError))
            && (r.Err? ==>
                  r.error in {ProtocolError, IntegrityError} || (r.error == InvalidModel && action.CompleteCall?))
  {
    hide LoadMaterialization, LoadCompletion, LoadFreeze, LoadJoint, Stored, Repeats;
    hide VerifyMaterialization, VerifyCompletion, VerifyCandidateFreeze, VerifyJointSelection;
    match action {
      case Open =>
      case Close =>
      case MaterializeCall(ref) =>
        LoadsFailAlike(repo, ref);
        LoadsExactly(repo, ref);
        if LoadMaterialization(repo, ref).Ok? {
          MaterializeFails(repo, plan, s, action, LoadMaterialization(repo, ref).value);
        }
      case CompleteCall(ref) =>
        LoadsFailAlike(repo, ref);
        LoadsExactly(repo, ref);
        if LoadCompletion(repo, ref).Ok? {
          CompleteFails(repo, plan, s, LoadCompletion(repo, ref).value);
        }
      case FreezeCandidates(ref) =>
        LoadsFailAlike(repo, ref);
        LoadsExactly(repo, ref);
        if LoadFreeze(repo, ref).Ok? {
          FreezeFails(repo, plan, s, LoadFreeze(repo, ref).value);
        }
      case FreezeSelections(ref) =>
        LoadsFailAlike(repo, ref);
        LaterLoadsExactly(repo, ref);
        if LoadJoint(repo, ref).Ok? {
          SelectionFails(repo, plan, s, LoadJoint(repo, ref).value);
        }
    }
  }

  /**
   A refused transition of a run is a protocol error only if the event is out of turn, and always then if its
   artifact is in order; everything else is an integrity error, but for an unlock over one selection twice.
   */
  lemma ErrorsSay(repo: Repo, plan: CallPlan, previous: Option<RunState>, event: RunEvent)
    requires RunShape(plan)
    requires previous.Some? ==>
               RunInvariant(repo, plan, previous.value) && previous.value.planFingerprint == plan.fingerprint
    ensures previous.Some? ==> previous.value.Valid()
    ensures var r := ApplyEvent(repo, plan, previous, event);
            && (event.planFingerprint != plan.fingerprint ==> r == Err(IntegrityError))
            && (r == Err(ProtocolError) ==> !InTurn(plan, previous, event.action))
            && (event.planFingerprint == plan.fingerprint && !InTurn(plan, previous, event.action)
                && (previous.Some? && !previous.value.closed ==> PayloadFits(repo, plan, previous.value, event.action))
                ==> r == Err(ProtocolError))
            && (r.Err? ==>
                  r.error in {ProtocolError, IntegrityError} || (r.error == InvalidModel && event.action.CompleteCall?))
  {
    assert |plan.calls| == CALLS;
    hide Advance, PayloadFits, RunInvariant, RunShape, Leads;
    if previous.Some? {
      InvariantIsValid(repo, plan, previous.value);
      if !previous.value.closed {
        AdvanceFails(repo, plan, previous.value, event.action);
        var r := Advance(repo, plan, previous.value, event.action);
        if r.Ok? {
          LeadsExactly(repo, plan, previous.value, event.action, r.value);
          ContractFollows(repo, plan, previous.value, event.action, r.value);
        }
      }
    }
  }

  // ---------------------------------------------------------------- chains and replays

  /** The links of a complete chain, written out. */
  ghost predicate Chained(repo: Repo, entries: seq<Linked>, tail: Ref) {
    && entries != [] && entries[|entries| - 1].ref == tail
    && entries[0].entry.previousEntry.None? && entries[0].entry.previousState.None?
    && (forall i :: 0 <= i < |entries| ==>
          Stored(repo, entries[i].ref, EntryMedia, EntryArtifact(entries[i].entry)) && entries[i].entry.sequence == i)
    && (forall i :: 0 < i < |entries| ==>
          && entries[i].entry.previousEntry == Some(entries[i - 1].ref)
          && entries[i].entry.previousState == Some(entries[i - 1].entry.state))
  }

  lemma ChainedExactly(repo: Repo, entries: seq<Linked>, tail: Ref)
    ensures ReadEntries(repo, tail) == Ok(entries) <==> Chained(repo, entries, tail)
  {
    hide ReadEntries, Stored, LoadEntry;
    ReadEntriesExact(repo, tail, entries);
    forall i | 0 <= i < |entries|
      ensures LoadEntry(repo, entries[i].ref) == Ok(entries[i].entry)
         <==> Stored(repo, entries[i].ref, EntryMedia, EntryArtifact(entries[i].entry))
    {
      LoadsExactly(repo, entries[i].ref);
    }
    forall i | 0 <= i < |entries|
      ensures LinksJoin(entries, i)
         <==> && entries[i].entry.sequence == i
              && entries[i].entry.previousEntry == (if i == 0 then None else Some(entries[i - 1].ref))
              && entries[i].entry.previousState == (if i == 0 then None else Some(entries[i - 1].entry.state))
    {
    }
    if IsChain(repo, entries, tail) {
      forall i | 0 <= i < |entries|
        ensures LinksJoin(entries, i) && LoadEntry(repo, entries[i].ref) == Ok(entries[i].entry)
      {
      }
    } else if Chained(repo, entries, tail) {
      forall i | 0 <= i < |entries|
        ensures LinksJoin(entries, i) && LoadEntry(repo, entries[i].ref) == Ok(entries[i].entry)
      {
        assert entries[i].entry.sequence == i;
      }
    }
  }

  /** One entry: its event is stored, leads from the state before, and its stored state is where it leads. */
  ghost predicate StepsTo(
    repo: Repo, plan: CallPlan, entry: JournalEntry, previous: Option<RunState>, event: RunEvent, next: RunState)
    requires |plan.calls| == CALLS
  {
    && entry.planFingerprint == plan.fingerprint
    && Stored(repo, entry.event, EventMedia, EventArtifact(event))
    && Stored(repo, entry.state, StateMedia, StateArtifact(next))
    && (previous.Some? ==> previous.value.Valid())
    && ApplyEvent(repo, plan, previous, event) == Ok(next)
  }

  function StateBefore(states: seq<RunState>, i: nat): Option<RunState>
    requires i <= |states|
  {
    if i == 0 then None else Some(states[i - 1])
  }

  /** A run of states, one after every entry, each reached from the one before. */
  ghost predicate Recomputes(
    repo: Repo, plan: CallPlan, entries: seq<Linked>, events: seq<RunEvent>, states: seq<RunState>)
    requires |plan.calls| == CALLS
  {
    && |events| == |states| == |entries|
    && forall i :: 0 <= i < |entries| ==>
         StepsTo(repo, plan, entries[i].entry, StateBefore(states, i), events[i], states[i])
  }

  lemma StepIsReplayStep(repo: Repo, plan: CallPlan, before: Replayed, entry: JournalEntry, event: RunEvent, next: RunState)
    requires |plan.calls| == CALLS && before.Valid()
    ensures StepsTo(repo, plan, entry, before.state, event, next)
       <==> ReplayStep(repo, plan, before, entry) == Ok(Replayed(before.events + [event], Some(next)))
  {
    hide Stored, LoadEvent, LoadState, ApplyEvent;
    LoadsExactly(repo, entry.event);
    LoadsExactly(repo, entry.state);
    if ReplayStep(repo, plan, before, entry).Ok? {
      assert (before.events + [event])[|before.events|] == event;
      assert ReplayStep(repo, plan, before, entry).value.events[|before.events|] == LoadEvent(repo, entry.event).value;
    }
  }

  lemma {:induction false} RecomputesIsReplayed(
    repo: Repo, plan: CallPlan, entries: seq<Linked>, events: seq<RunEvent>, states: seq<RunState>)
    requires |plan.calls| == CALLS && Recomputes(repo, plan, entries, events, states)
    ensures ReplayEntries(repo, plan, entries) == Ok(Replayed(events, StateBefore(states, |states|)))
    decreases |entries|
  {
    hide StepsTo, ReplayStep;
    if entries != [] {
      var n := |entries| - 1;
      forall i | 0 <= i < n
        ensures StepsTo(
                  repo, plan, entries[..n][i].entry, StateBefore(states[..n], i), events[..n][i], states[..n][i])
      {
        assert StepsTo(repo, plan, entries[i].entry, StateBefore(states, i), events[i], states[i]);
      }
      RecomputesIsReplayed(repo, plan, entries[..n], events[..n], states[..n]);
      var before := Replayed(events[..n], StateBefore(states[..n], n));
      assert StepsTo(repo, plan, entries[n].entry, StateBefore(states, n), events[n], states[n]);
      StepIsReplayStep(repo, plan, before, entries[n].entry, events[n], states[n]);
      assert events[..n] + [events[n]] == events;
    }
  }

  lemma {:induction false} ReplayedRecomputes(repo: Repo, plan: CallPlan, entries: seq<Linked>)
    returns (states: seq<RunState>)
    requires |plan.calls| == CALLS && ReplayEntries(repo, plan, entries).Ok?
    ensures var r := ReplayEntries(repo, plan, entries).value;
            Recomputes(repo, plan, entries, r.events, states) && r.state == StateBefore(states, |states|)
    decreases |entries|
  {
    hide StepsTo, ReplayStep;
    if entries == [] {
      states := [];
    } else {
      var n := |entries| - 1;
      var before := ReplayEntries(repo, plan, entries[..n]).value;
      var earlier := ReplayedRecomputes(repo, plan, entries[..n]);
      var after := ReplayEntries(repo, plan, entries).value;
      StepAppends(repo, plan, before, entries[n].entry);
      StepIsReplayStep(repo, plan, before, entries[n].entry, after.events[n], after.state.value);
      states := earlier + [after.state.value];
      forall i | 0 <= i < |entries|
        ensures StepsTo(repo, plan, entries[i].entry, StateBefore(states, i), after.events[i], states[i])
      {
        if i < n {
          assert StepsTo(repo, plan, entries[..n][i].entry, StateBefore(earlier, i), before.events[i], earlier[i]);
        }
      }
    }
  }

  lemma StepAppends(repo: Repo, plan: CallPlan, before: Replayed, entry: JournalEntry)
    requires |plan.calls| == CALLS && before.Valid() && ReplayStep(repo, plan, before, entry).Ok?
    ensures var after := ReplayStep(repo, plan, before, entry).value;
            && |after.events| == |before.events| + 1 && after.state.Some?
            && after.events == before.events + [after.events[|before.events|]]
  {
    hide ApplyEvent, LoadEvent, LoadState;
  }

  /** A tail replays to these events and this state exactly when a complete chain recomputes them, state by state. */
  lemma ReplaysExactly(repo: Repo, plan: CallPlan, tail: Ref, events: seq<RunEvent>, state: RunState)
    requires |plan.calls| == CALLS
    ensures Replay(repo, plan, tail) == Ok(Replayed(events, Some(state)))
       <==> exists entries, states ::
              && Chained(repo, entries, tail) && Recomputes(repo, plan, entries, events, states)
              && StateBefore(states, |states|) == Some(state)
  {
    hide Chained, Recomputes, ReadEntries, ReplayEntries;
    if Replay(repo, plan, tail) == Ok(Replayed(events, Some(state))) {
      var entries := ReadEntries(repo, tail).value;
      ChainedExactly(repo, entries, tail);
      var states := ReplayedRecomputes(repo, plan, entries);
    }
    forall entries, states | Chained(repo, entries, tail) && Recomputes(repo, plan, entries, events, states)
                             && StateBefore(states, |states|) == Some(state)
      ensures Replay(repo, plan, tail) == Ok(Replayed(events, Some(state)))
    {
      ChainedExactly(repo, entries, tail);
      RecomputesIsReplayed(repo, plan, entries, events, states);
    }
  }

  /** A closure verifies exactly when it repeats the end of a replay that ends closed. */
  lemma ClosureSays(repo: Repo, plan: CallPlan, ref: Ref)
    requires RunShape(plan)
    ensures VerifyClosure(repo, plan, ref).Ok?
       <==> exists closure, entries, events, states ::
              && Stored(repo, ref, ClosureMedia, ClosureArtifact(closure))
              && Ends(repo, plan, closure, entries, events, states)
  {
    hide VerifyClosure, Stored, LoadClosure, Chained, Recomputes, ReadEntries, ReplayEntries;
    LaterLoadsExactly(repo, ref);
    ClosureVerifiesExactly(repo, plan, ref);
    if VerifyClosure(repo, plan, ref).Ok? {
      var closure := LoadClosure(repo, ref).value;
      var entries := ReadEntries(repo, closure.journalTail).value;
      ChainedExactly(repo, entries, closure.journalTail);
      var states := ReplayedRecomputes(repo, plan, entries);
      assert Ends(repo, plan, closure, entries, Replay(repo, plan, closure.journalTail).value.events, states);
    }
    forall closure, entries, events, states |
      Stored(repo, ref, ClosureMedia, ClosureArtifact(closure)) && Ends(repo, plan, closure, entries, events, states)
      ensures VerifyClosure(repo, plan, ref).Ok?
    {
      ChainedExactly(repo, entries, closure.journalTail);
      RecomputesIsReplayed(repo, plan, entries, events, states);
    }
  }

  /** The closure repeats the references at the end of this recomputed chain. */
  ghost predicate Ends(
    repo: Repo, plan: CallPlan, closure: RunClosure, entries: seq<Linked>, events: seq<RunEvent>, states: seq<RunState>)
    requires |plan.calls| == CALLS
  {
    && Chained(repo, entries, closure.journalTail) && Recomputes(repo, plan, entries, events, states)
    && entries != [] && StateBefore(states, |states|).Some?
    && var final := StateBefore(states, |states|).value;
    && final.closed && closure.planFingerprint == plan.fingerprint
    && closure.finalState == entries[|entries| - 1].entry.state
    && final.candidateFreeze == Some(closure.candidateFreeze) && final.jointSelection == Some(closure.jointSelection)
    && final.completions == closure.completions
  }
}
