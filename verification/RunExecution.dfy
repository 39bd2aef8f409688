/** What the calls of a run executed. */
module RunExecution {
  import opened Prelude
  import opened PilotContracts
  import opened RunContracts
  import opened RunReplay
  import opened RunSafety

  // ---------------------------------------------------------------- recorded calls

  /** The materialization behind completion `i`, if both artifacts load. */
  function MaterializationAt(repo: Repo, s: RunState, i: nat): Result<CallMaterialization, RunError>
    requires i < |s.completions|
  {
    var completion :- LoadCompletion(repo, s.completions[i]);
    LoadMaterialization(repo, completion.materialization)
  }

  /** The harness that call `i` executed. */
  function ExecutedAt(repo: Repo, s: RunState, i: nat): Option<Ref>
    requires i < |s.completions|
  {
    match MaterializationAt(repo, s, i)
    case Ok(m) => Some(m.executedHarness)
    case Err(_) => None
  }

  ghost predicate Authorized(repo: Repo, s: RunState, m: CallMaterialization) {
    var expected := ExpectedExecution(repo, s, m.slot);
    && expected.Ok?
    && (expected.value.harness.Some? ==> m.executedHarness == expected.value.harness.value)
    && m.executedVariant == expected.value.variant
    && m.fallbackUsed == expected.value.fallback
    && m.jointSelection == if m.slot.globalSlot >= SELECTION_BARRIER then s.jointSelection else None
  }

  ghost predicate CallRecorded(repo: Repo, plan: CallPlan, s: RunState, i: nat)
    requires i < |s.completions| && |plan.calls| == CALLS
  {
    && i < CALLS
    && LoadCompletion(repo, s.completions[i]).Ok?
    && LoadCompletion(repo, s.completions[i]).value.globalSlot == i
    && MaterializationAt(repo, s, i).Ok?
    && var m := MaterializationAt(repo, s, i).value;
    && m.slot == plan.calls[i]
    && m.planFingerprint == plan.fingerprint
    && Authorized(repo, s, m)
    && VerifyGraderBinding(repo, m, LoadCompletion(repo, s.completions[i]).value).Ok?
  }

  ghost predicate OpenRecorded(repo: Repo, plan: CallPlan, s: RunState)
    requires |plan.calls| == CALLS
  {
    s.openMaterialization.Some? ==>
      && s.nextSlot < CALLS
      && LoadMaterialization(repo, s.openMaterialization.value).Ok?
      && var m := LoadMaterialization(repo, s.openMaterialization.value).value;
      && m.slot == plan.calls[s.nextSlot]
      && m.planFingerprint == plan.fingerprint
      && Authorized(repo, s, m)
      && BarriersPassed(s)
  }

  ghost predicate RanParent(repo: Repo, s: RunState, lo: nat, hi: nat, parent: Ref) {
    forall i :: lo <= i < hi && i < |s.completions| ==> ExecutedAt(repo, s, i) == Some(parent)
  }

  ghost predicate CandidatesSound(repo: Repo, s: RunState) {
    s.candidateFreeze.Some? ==>
      && LoadCandidateFreeze(repo, s).Ok?
      && var freeze := LoadCandidateFreeze(repo, s).value;
      && RanParent(repo, s, 0, 5, freeze.score.parentHarness)
      && RanParent(repo, s, 5, 10, freeze.full.parentHarness)
  }

  ghost predicate FollowsPolicy(selection: ArmSelection, freeze: ArmCandidateFreeze) {
    && selection.arm == freeze.arm
    && (!freeze.candidateValid ==> selection.selectedVariant == SelectParent && selection.forcedRollback)
    && (freeze.candidateValid ==> !selection.forcedRollback)
    && (selection.selectedVariant == SelectParent ==> selection.selectedHarness == freeze.parentHarness)
    && (selection.selectedVariant == SelectCandidate ==> selection.selectedHarness == freeze.effectiveHarness)
  }

  ghost predicate SelectionsSound(repo: Repo, s: RunState) {
    s.jointSelection.Some? ==>
      && LoadCandidateFreeze(repo, s).Ok?
      && LoadJointSelection(repo, s).Ok?
      && var freeze := LoadCandidateFreeze(repo, s).value;
      && var chosen := LoadJointSelection(repo, s).value;
      && FollowsPolicy(chosen.score, freeze.score)
      && FollowsPolicy(chosen.full, freeze.full)
  }

  ghost predicate RunInvariant(repo: Repo, plan: CallPlan, s: RunState)
    requires |plan.calls| == CALLS
  {
    && s.Valid()
    && (forall i :: 0 <= i < |s.completions| ==> CallRecorded(repo, plan, s, i))
    && OpenRecorded(repo, plan, s)
    && CandidatesSound(repo, s)
    && SelectionsSound(repo, s)
  }

  // ---------------------------------------------------------------- preservation

  /** An authorisation outlives every later freeze that its slot does not depend on. */
  lemma AuthorityOutlives(repo: Repo, plan: CallPlan, s: RunState, later: RunState, m: CallMaterialization, i: nat)
    requires RunShape(plan) && i < CALLS && m.slot == plan.calls[i]
    requires Authorized(repo, s, m)
    requires i >= CANDIDATE_BARRIER ==> later.candidateFreeze == s.candidateFreeze
    requires i >= SELECTION_BARRIER ==> later.jointSelection == s.jointSelection
    ensures Authorized(repo, later, m)
  {
    assert SlotShape(plan.calls[i], i);
  }

  lemma RecordOutlives(repo: Repo, plan: CallPlan, s: RunState, later: RunState, i: nat)
    requires RunShape(plan) && i < |s.completions| <= |later.completions| <= CALLS
    requires later.completions[i] == s.completions[i]
    requires CallRecorded(repo, plan, s, i)
    requires i >= CANDIDATE_BARRIER ==> later.candidateFreeze == s.candidateFreeze
    requires i >= SELECTION_BARRIER ==> later.jointSelection == s.jointSelection
    ensures CallRecorded(repo, plan, later, i)
    ensures ExecutedAt(repo, later, i) == ExecutedAt(repo, s, i)
  {
    assert MaterializationAt(repo, later, i) == MaterializationAt(repo, s, i);
    AuthorityOutlives(repo, plan, s, later, MaterializationAt(repo, s, i).value, i);
  }

  lemma MaterializeKeeps(repo: Repo, plan: CallPlan, s: RunState, ref: Ref)
    requires RunShape(plan) && RunInvariant(repo, plan, s)
    requires LoadMaterialization(repo, ref).Ok?
    requires VerifyMaterialization(repo, plan, s, LoadMaterialization(repo, ref).value).Ok?
    requires s.(openMaterialization := Some(ref)).Valid()
    ensures RunInvariant(repo, plan, s.(openMaterialization := Some(ref)))
  {
    hide CandidatesSound, SelectionsSound;
    var later := s.(openMaterialization := Some(ref));
    forall i | 0 <= i < |later.completions|
      ensures CallRecorded(repo, plan, later, i)
    {
      RecordOutlives(repo, plan, s, later, i);
    }
    assert SlotShape(plan.calls[s.nextSlot], s.nextSlot);
    var m := LoadMaterialization(repo, ref).value;
    assert Authorized(repo, s, m);
    AuthorityOutlives(repo, plan, s, later, m, s.nextSlot);
    assert OpenRecorded(repo, plan, later);
    FreezesUntouched(repo, s, later);
  }

  /** Freezes and their soundness survive a step that only touches the open call. */
  lemma FreezesUntouched(repo: Repo, s: RunState, later: RunState)
    requires later.candidateFreeze == s.candidateFreeze && later.jointSelection == s.jointSelection
    requires |s.completions| <= |later.completions| && later.completions[..|s.completions|] == s.completions
    requires s.candidateFreeze.Some? && |s.completions| < |later.completions| ==> |s.completions| >= 10
    requires CandidatesSound(repo, s) && SelectionsSound(repo, s)
    ensures CandidatesSound(repo, later) && SelectionsSound(repo, later)
  {
    forall i | 0 <= i < |s.completions|
      ensures later.completions[i] == s.completions[i]
    {
      assert later.completions[..|s.completions|][i] == s.completions[i];
    }
    if s.candidateFreeze.Some? {
      var freeze := LoadCandidateFreeze(repo, s).value;
      assert RanParent(repo, later, 0, 5, freeze.score.parentHarness) by {
        forall i | 0 <= i < 5 && i < |later.completions|
          ensures ExecutedAt(repo, later, i) == Some(freeze.score.parentHarness)
        {
          assert ExecutedAt(repo, s, i) == Some(freeze.score.parentHarness);
        }
      }
      assert RanParent(repo, later, 5, 10, freeze.full.parentHarness) by {
        forall i | 5 <= i < 10 && i < |later.completions|
          ensures ExecutedAt(repo, later, i) == Some(freeze.full.parentHarness)
        {
          assert ExecutedAt(repo, s, i) == Some(freeze.full.parentHarness);
        }
      }
    }
  }

  lemma CompleteKeeps(repo: Repo, plan: CallPlan, s: RunState, later: RunState, ref: Ref)
    requires RunShape(plan) && RunInvariant(repo, plan, s)
    requires LoadCompletion(repo, ref).Ok?
    requires VerifyCompletion(repo, plan, s, LoadCompletion(repo, ref).value).Ok?
    requires later == s.(
      openMaterialization := None, completions := s.completions + [ref], nextSlot := s.nextSlot + 1)
    requires later.Valid()
    ensures RunInvariant(repo, plan, later)
  {
    forall i | 0 <= i < |later.completions|
      ensures CallRecorded(repo, plan, later, i)
    {
      if i < |s.completions| {
        assert CallRecorded(repo, plan, s, i);
        RecordOutlives(repo, plan, s, later, i);
      } else {
        var m := LoadMaterialization(repo, s.openMaterialization.value).value;
        AuthorityOutlives(repo, plan, s, later, m, s.nextSlot);
        assert SlotShape(plan.calls[i], i);
      }
    }
    FreezesUntouched(repo, s, later);
  }

  /**
   A completion that verifies against the open call is never a repeat: in any store, a digest
   already recorded loads a completion of an earlier slot. The state validator's uniqueness
   check can therefore never reject a verified completion.
   */
  lemma CompletionsNeverRepeat(repo: Repo, plan: CallPlan, s: RunState, ref: Ref)
    requires RunShape(plan) && RunInvariant(repo, plan, s)
    requires LoadCompletion(repo, ref).Ok?
    requires VerifyCompletion(repo, plan, s, LoadCompletion(repo, ref).value).Ok?
    ensures forall i :: 0 <= i < |s.completions| ==> s.completions[i].sha != ref.sha
  {
    assert SlotShape(plan.calls[s.nextSlot], s.nextSlot);
    forall i | 0 <= i < |s.completions|
      ensures s.completions[i].sha != ref.sha
    {
      assert CallRecorded(repo, plan, s, i);
    }
  }

  /** Equal harnesses in the verified list are the harnesses the calls executed. */
  lemma {:induction false} HarnessesAreExecuted(repo: Repo, s: RunState, lo: nat, hi: nat)
    requires lo <= hi <= |s.completions|
    requires ExecutedHarnesses(repo, s.completions[lo..hi]).Ok?
    ensures var harnesses := ExecutedHarnesses(repo, s.completions[lo..hi]).value;
            && |harnesses| == hi - lo
            && forall i :: lo <= i < hi ==> ExecutedAt(repo, s, i) == Some(harnesses[i - lo])
    decreases hi - lo
  {
    if lo < hi {
      assert s.completions[lo..hi][0] == s.completions[lo];
      assert s.completions[lo..hi][1..] == s.completions[lo + 1..hi];
      HarnessesAreExecuted(repo, s, lo + 1, hi);
    }
  }

  lemma ArmFreezeRanParent(repo: Repo, s: RunState, lo: nat, hi: nat, freeze: ArmCandidateFreeze)
    requires lo <= hi <= |s.completions|
    requires VerifyArmFreeze(repo, s.completions[lo..hi], freeze).Ok?
    ensures RanParent(repo, s, lo, hi, freeze.parentHarness)
  {
    HarnessesAreExecuted(repo, s, lo, hi);
  }

  lemma FreezeCandidatesKeeps(repo: Repo, plan: CallPlan, s: RunState, ref: Ref)
    requires RunShape(plan) && RunInvariant(repo, plan, s)
    requires LoadFreeze(repo, ref).Ok?
    requires VerifyCandidateFreeze(repo, plan, s, LoadFreeze(repo, ref).value).Ok?
    requires s.(candidateFreeze := Some(ref)).Valid()
    ensures RunInvariant(repo, plan, s.(candidateFreeze := Some(ref)))
  {
    var later := s.(candidateFreeze := Some(ref));
    forall i | 0 <= i < |later.completions|
      ensures CallRecorded(repo, plan, later, i)
    {
      RecordOutlives(repo, plan, s, later, i);
    }
    var freeze := LoadFreeze(repo, ref).value;
    ArmFreezeRanParent(repo, s, 0, 5, freeze.score);
    ArmFreezeRanParent(repo, s, 5, 10, freeze.full);
    assert RanParent(repo, later, 0, 5, freeze.score.parentHarness) by {
      forall i | 0 <= i < 5 ensures ExecutedAt(repo, later, i) == ExecutedAt(repo, s, i) {}
    }
    assert RanParent(repo, later, 5, 10, freeze.full.parentHarness) by {
      forall i | 5 <= i < 10 ensures ExecutedAt(repo, later, i) == ExecutedAt(repo, s, i) {}
    }
  }

  lemma SelectionFollowsPolicy(
    selection: ArmSelection, freeze: ArmCandidateFreeze, gates: seq<Ref>, freezeRef: Ref, planFingerprint: int)
    requires freeze.Valid()
    requires VerifyArmSelection(selection, freeze, gates, freezeRef, planFingerprint).Ok?
    ensures FollowsPolicy(selection, freeze)
  {
  }

  lemma FreezeSelectionsKeeps(repo: Repo, plan: CallPlan, s: RunState, ref: Ref)
    requires RunShape(plan) && RunInvariant(repo, plan, s)
    requires LoadJoint(repo, ref).Ok?
    requires VerifyJointSelection(repo, plan, s, LoadJoint(repo, ref).value).Ok?
    requires s.(jointSelection := Some(ref)).Valid()
    ensures RunInvariant(repo, plan, s.(jointSelection := Some(ref)))
  {
    var later := s.(jointSelection := Some(ref));
    forall i | 0 <= i < |later.completions|
      ensures CallRecorded(repo, plan, later, i)
    {
      RecordOutlives(repo, plan, s, later, i);
    }
    var joint := LoadJoint(repo, ref).value;
    var freeze := LoadCandidateFreeze(repo, s).value;
    SelectionFollowsPolicy(
      LoadSelection(repo, joint.scoreSelection).value, freeze.score,
      s.completions[FIRST_GATE..FULL_GATE], s.candidateFreeze.value, plan.fingerprint);
    SelectionFollowsPolicy(
      LoadSelection(repo, joint.fullSelection).value, freeze.full,
      s.completions[FULL_GATE..SELECTION_BARRIER], s.candidateFreeze.value, plan.fingerprint);
    assert SelectionsSound(repo, later);
    assert RanParent(repo, later, 0, 5, freeze.score.parentHarness) by {
      forall i | 0 <= i < 5 ensures ExecutedAt(repo, later, i) == ExecutedAt(repo, s, i) {}
    }
    assert RanParent(repo, later, 5, 10, freeze.full.parentHarness) by {
      forall i | 5 <= i < 10 ensures ExecutedAt(repo, later, i) == ExecutedAt(repo, s, i) {}
    }
  }

  lemma CloseKeeps(repo: Repo, plan: CallPlan, s: RunState)
    requires RunShape(plan) && RunInvariant(repo, plan, s)
    requires s.(closed := true).Valid()
    ensures RunInvariant(repo, plan, s.(closed := true))
  {
    var later := s.(closed := true);
    forall i | 0 <= i < |later.completions|
      ensures CallRecorded(repo, plan, later, i)
    {
      RecordOutlives(repo, plan, s, later, i);
    }
    FreezesUntouched(repo, s, later);
  }

  lemma InitialInvariant(repo: Repo, plan: CallPlan)
    requires |plan.calls| == CALLS
    ensures RunInvariant(repo, plan, InitialState(plan.fingerprint))
  {
  }

  /** Every accepted transition keeps the invariant. */
  lemma ApplyKeepsInvariant(repo: Repo, plan: CallPlan, previous: Option<RunState>, event: RunEvent)
    requires RunShape(plan)
    requires previous.Some? ==> RunInvariant(repo, plan, previous.value)
    requires ApplyEvent(repo, plan, previous, event).Ok?
    ensures RunInvariant(repo, plan, ApplyEvent(repo, plan, previous, event).value)
  {
    hide VerifyMaterialization, VerifyCompletion, VerifyCandidateFreeze, VerifyJointSelection;
    hide CallRecorded, OpenRecorded, CandidatesSound, SelectionsSound;
    if previous.None? {
      InitialInvariant(repo, plan);
    } else {
      var s := previous.value;
      match event.action
      case MaterializeCall(ref) => MaterializeKeeps(repo, plan, s, ref);
      case CompleteCall(ref) =>
        CompleteKeeps(repo, plan, s, ApplyEvent(repo, plan, previous, event).value, ref);
      case FreezeCandidates(ref) => FreezeCandidatesKeeps(repo, plan, s, ref);
      case FreezeSelections(ref) => FreezeSelectionsKeeps(repo, plan, s, ref);
      case Close => CloseKeeps(repo, plan, s);
      case Open => assert false;
    }
  }

  /** The invariant holds of every state any accepted journal reaches. */
  lemma {:induction false} ReplayedInvariant(repo: Repo, plan: CallPlan, entries: seq<Linked>)
    requires RunShape(plan) && entries != []
    requires ReplayEntries(repo, plan, entries).Ok?
    ensures RunInvariant(repo, plan, ReplayEntries(repo, plan, entries).value.state.value)
    decreases |entries|
  {
    var shorter := entries[..|entries| - 1];
    var before := ReplayEntries(repo, plan, shorter).value;
    if shorter != [] {
      ReplayedInvariant(repo, plan, shorter);
    }
    ApplyKeepsInvariant(
      repo, plan, before.state, LoadEvent(repo, entries[|entries| - 1].entry.event).value);
  }

  // ---------------------------------------------------------------- what the freezes cite

  /** The frozen candidates cite the two completed proposals. */
  ghost predicate CandidatesCite(repo: Repo, s: RunState) {
    s.candidateFreeze.Some? ==>
      && LoadCandidateFreeze(repo, s).Ok?
      && |s.completions| >= CANDIDATE_BARRIER
      && var freeze := LoadCandidateFreeze(repo, s).value;
      && freeze.score.proposalCompletion == s.completions[12]
      && freeze.full.proposalCompletion == s.completions[13]
  }

  /** A selection cites the candidate freeze and its own arm's completed GATE calls. */
  ghost predicate SelectionCites(s: RunState, selection: ArmSelection, lo: nat, hi: nat)
    requires lo <= hi <= |s.completions|
  {
    && s.candidateFreeze == Some(selection.candidateFreeze)
    && selection.gateCompletions == s.completions[lo..hi]
  }

  ghost predicate SelectionsCite(repo: Repo, s: RunState) {
    s.jointSelection.Some? ==>
      && LoadJointSelection(repo, s).Ok?
      && |s.completions| >= SELECTION_BARRIER
      && var chosen := LoadJointSelection(repo, s).value;
      && s.candidateFreeze == Some(chosen.joint.candidateFreeze)
      && chosen.joint.gateCompletions == s.completions[FIRST_GATE..SELECTION_BARRIER]
      && SelectionCites(s, chosen.score, FIRST_GATE, FULL_GATE)
      && SelectionCites(s, chosen.full, FULL_GATE, SELECTION_BARRIER)
  }

  /** Growing the completions changes nothing a freeze cites. */
  lemma CitationsOutlive(repo: Repo, s: RunState, later: RunState)
    requires later.candidateFreeze == s.candidateFreeze && later.jointSelection == s.jointSelection
    requires |s.completions| <= |later.completions| && later.completions[..|s.completions|] == s.completions
    requires CandidatesCite(repo, s) && SelectionsCite(repo, s)
    ensures CandidatesCite(repo, later) && SelectionsCite(repo, later)
  {
    var n := |s.completions|;
    assert forall i :: 0 <= i < n ==> later.completions[i] == later.completions[..n][i];
    if s.jointSelection.Some? {
      assert later.completions[FIRST_GATE..FULL_GATE] == s.completions[FIRST_GATE..FULL_GATE];
      assert later.completions[FULL_GATE..SELECTION_BARRIER] == s.completions[FULL_GATE..SELECTION_BARRIER];
      assert later.completions[FIRST_GATE..SELECTION_BARRIER] == s.completions[FIRST_GATE..SELECTION_BARRIER];
    }
  }

  lemma CandidateFreezeCites(repo: Repo, plan: CallPlan, s: RunState, ref: Ref)
    requires s.Valid() && SelectionsCite(repo, s)
    requires LoadFreeze(repo, ref).Ok?
    requires VerifyCandidateFreeze(repo, plan, s, LoadFreeze(repo, ref).value).Ok?
    ensures CandidatesCite(repo, s.(candidateFreeze := Some(ref)))
    ensures SelectionsCite(repo, s.(candidateFreeze := Some(ref)))
  {
    assert s.jointSelection.None?;
  }

  lemma JointSelectionCites(repo: Repo, plan: CallPlan, s: RunState, ref: Ref)
    requires s.Valid() && CandidatesCite(repo, s)
    requires LoadJoint(repo, ref).Ok?
    requires VerifyJointSelection(repo, plan, s, LoadJoint(repo, ref).value).Ok?
    ensures CandidatesCite(repo, s.(jointSelection := Some(ref)))
    ensures SelectionsCite(repo, s.(jointSelection := Some(ref)))
  {
  }

  /** Every accepted transition keeps what the freezes cite. */
  lemma ApplyKeepsCitations(repo: Repo, plan: CallPlan, previous: Option<RunState>, event: RunEvent)
    requires |plan.calls| == CALLS
    requires previous.Some? ==>
               previous.value.Valid() && CandidatesCite(repo, previous.value) && SelectionsCite(repo, previous.value)
    requires ApplyEvent(repo, plan, previous, event).Ok?
    ensures CandidatesCite(repo, ApplyEvent(repo, plan, previous, event).value)
    ensures SelectionsCite(repo, ApplyEvent(repo, plan, previous, event).value)
  {
    hide VerifyMaterialization, VerifyCompletion, VerifyCandidateFreeze, VerifyJointSelection;
    if previous.Some? {
      hide CandidatesCite, SelectionsCite;
      var s := previous.value;
      match event.action
      case FreezeCandidates(ref) => CandidateFreezeCites(repo, plan, s, ref);
      case FreezeSelections(ref) => JointSelectionCites(repo, plan, s, ref);
      case MaterializeCall(_) => CitationsOutlive(repo, s, ApplyEvent(repo, plan, previous, event).value);
      case CompleteCall(_) => CitationsOutlive(repo, s, ApplyEvent(repo, plan, previous, event).value);
      case Close => CitationsOutlive(repo, s, ApplyEvent(repo, plan, previous, event).value);
      case Open => assert false;
    }
  }

  lemma {:induction false} ReplayedCitations(repo: Repo, plan: CallPlan, entries: seq<Linked>)
    requires |plan.calls| == CALLS && entries != []
    requires ReplayEntries(repo, plan, entries).Ok?
    ensures var s := ReplayEntries(repo, plan, entries).value.state.value;
            CandidatesCite(repo, s) && SelectionsCite(repo, s)
    decreases |entries|
  {
    hide CandidatesCite, SelectionsCite;
    var shorter := entries[..|entries| - 1];
    var before := ReplayEntries(repo, plan, shorter).value;
    if shorter != [] {
      ReplayedCitations(repo, plan, shorter);
    }
    ApplyKeepsCitations(
      repo, plan, before.state, LoadEvent(repo, entries[|entries| - 1].entry.event).value);
  }

  // ---------------------------------------------------------------- what closed runs executed

  ghost predicate ClosedRun(repo: Repo, plan: CallPlan, tail: Ref, s: RunState)
    requires |plan.calls| == CALLS
  {
    && Replay(repo, plan, tail).Ok?
    && Replay(repo, plan, tail).value.state == Some(s)
    && s.closed
  }

  lemma ClosedRunInvariant(repo: Repo, plan: CallPlan, tail: Ref, s: RunState)
    requires RunShape(plan) && ClosedRun(repo, plan, tail, s)
    ensures RunInvariant(repo, plan, s)
    ensures |s.completions| == CALLS && s.candidateFreeze.Some? && s.jointSelection.Some?
    ensures LoadCandidateFreeze(repo, s).Ok? && LoadJointSelection(repo, s).Ok?
  {
    ReplayedInvariant(repo, plan, ReadEntries(repo, tail).value);
  }

  predicate IsEvaluation(kind: CallKind) {
    kind == PARENT_FIT || kind == CANDIDATE_FIT || kind == GATE || kind == HOLDOUT
  }

  /**
   In every closed run, an arm whose candidate was frozen invalid executes the one parent harness
   shared by both arms in all its parent-FIT, candidate-FIT, GATE and HOLDOUT calls.
   */
  lemma InvalidCandidateRunsParent(repo: Repo, plan: CallPlan, tail: Ref, s: RunState, i: nat)
    requires RunShape(plan) && ClosedRun(repo, plan, tail, s)
    requires i < CALLS && IsAdaptive(plan.calls[i].arm) && IsEvaluation(plan.calls[i].kind)
    ensures |s.completions| == CALLS && LoadCandidateFreeze(repo, s).Ok?
    ensures var freeze := LoadCandidateFreeze(repo, s).value;
            !ArmCandidate(freeze, plan.calls[i].arm).candidateValid
            ==> ExecutedAt(repo, s, i) == Some(freeze.score.parentHarness)
  {
    hide ClosedRun, Replay, VerifyGraderBinding;
    ClosedRunInvariant(repo, plan, tail, s);
    var freeze := LoadCandidateFreeze(repo, s).value;
    assert freeze.Valid();
    assert SlotShape(plan.calls[i], i);
    assert CallRecorded(repo, plan, s, i);
    if i < 5 {
      assert RanParent(repo, s, 0, 5, freeze.score.parentHarness);
    } else if i < 10 {
      assert RanParent(repo, s, 5, 10, freeze.full.parentHarness);
    }
  }

  /** The parent-FIT calls and every GATE control other than the candidate run the parent in any closed run. */
  lemma ControlsRunParent(repo: Repo, plan: CallPlan, tail: Ref, s: RunState, i: nat)
    requires RunShape(plan) && ClosedRun(repo, plan, tail, s)
    requires i < CALLS
    requires plan.calls[i].kind == PARENT_FIT || (plan.calls[i].kind == GATE && plan.calls[i].variant != Candidate)
    ensures |s.completions| == CALLS && LoadCandidateFreeze(repo, s).Ok?
    ensures ExecutedAt(repo, s, i) == Some(LoadCandidateFreeze(repo, s).value.score.parentHarness)
  {
    hide ClosedRun, Replay, VerifyGraderBinding;
    ClosedRunInvariant(repo, plan, tail, s);
    var freeze := LoadCandidateFreeze(repo, s).value;
    assert freeze.Valid();
    assert SlotShape(plan.calls[i], i);
    assert CallRecorded(repo, plan, s, i);
    if i < 5 {
      assert RanParent(repo, s, 0, 5, freeze.score.parentHarness);
    } else if i < 10 {
      assert RanParent(repo, s, 5, 10, freeze.full.parentHarness);
    }
  }

  /** The slots in which an arm's frozen candidate is on trial. */
  predicate TriesCandidate(slot: CallSlot) {
    slot.kind == CANDIDATE_FIT || (slot.kind == GATE && slot.variant == Candidate)
  }

  /**
   In every closed run a candidate slot of an arm executes that arm's own candidate if it was frozen
   valid, which differs from the parent, and otherwise the parent, marked as a fallback.
   */
  lemma CandidateSlotsRunCandidate(repo: Repo, plan: CallPlan, tail: Ref, s: RunState, i: nat)
    requires RunShape(plan) && ClosedRun(repo, plan, tail, s)
    requires i < CALLS && TriesCandidate(plan.calls[i])
    ensures |s.completions| == CALLS && LoadCandidateFreeze(repo, s).Ok? && MaterializationAt(repo, s, i).Ok?
    ensures var freeze, m := LoadCandidateFreeze(repo, s).value, MaterializationAt(repo, s, i).value;
            var own := if plan.calls[i].arm == SCORE then freeze.score else freeze.full;
            && own.arm == plan.calls[i].arm == m.slot.arm
            && Some(m.executedHarness) == (if own.candidateValid then own.candidateHarness else Some(own.parentHarness))
            && (own.candidateValid <==> m.executedHarness != freeze.score.parentHarness)
            && m.executedVariant == (if own.candidateValid then Candidate else Parent)
            && (m.fallbackUsed <==> !own.candidateValid)
  {
    hide ClosedRun, Replay, VerifyGraderBinding;
    ClosedRunInvariant(repo, plan, tail, s);
    assert LoadCandidateFreeze(repo, s).value.Valid();
    assert SlotShape(plan.calls[i], i);
    assert CallRecorded(repo, plan, s, i);
  }

  function ChosenFor(selections: Selections, arm: Arm): ArmSelection
    requires IsAdaptive(arm)
  {
    if arm == SCORE then selections.score else selections.full
  }

  /**
   In every closed run, all HOLDOUT calls of an adaptive arm execute the one harness its frozen
   selection names, and that selection obeys the rollback policy of the frozen candidate.
   */
  lemma HoldoutRunsSelection(repo: Repo, plan: CallPlan, tail: Ref, s: RunState, i: nat)
    requires RunShape(plan) && ClosedRun(repo, plan, tail, s)
    requires i < CALLS && IsAdaptive(plan.calls[i].arm) && plan.calls[i].kind == HOLDOUT
    ensures |s.completions| == CALLS
    ensures LoadCandidateFreeze(repo, s).Ok? && LoadJointSelection(repo, s).Ok?
    ensures var arm := plan.calls[i].arm;
            var selection := ChosenFor(LoadJointSelection(repo, s).value, arm);
            && ExecutedAt(repo, s, i) == Some(selection.selectedHarness)
            && FollowsPolicy(selection, ArmCandidate(LoadCandidateFreeze(repo, s).value, arm))
  {
    hide ClosedRun, Replay, VerifyGraderBinding;
    ClosedRunInvariant(repo, plan, tail, s);
    assert SlotShape(plan.calls[i], i);
    assert CallRecorded(repo, plan, s, i);
  }

  /**
   In every closed run the freezes cite exactly their evidence: an arm's candidate cites that arm's
   completed PROPOSAL call, and an arm's selection cites all of that arm's completed GATE calls and no other.
   */
  lemma FreezesCiteTheirEvidence(repo: Repo, plan: CallPlan, tail: Ref, s: RunState, arm: Arm, i: nat)
    requires RunShape(plan) && ClosedRun(repo, plan, tail, s) && IsAdaptive(arm) && i < CALLS
    ensures |s.completions| == CALLS
    ensures LoadCandidateFreeze(repo, s).Ok? && LoadJointSelection(repo, s).Ok?
    ensures var slot, candidate := plan.calls[i], ArmCandidate(LoadCandidateFreeze(repo, s).value, arm);
            s.completions[i] == candidate.proposalCompletion <==> slot.arm == arm && slot.kind == PROPOSAL
    ensures var slot, selection := plan.calls[i], ChosenFor(LoadJointSelection(repo, s).value, arm);
            && s.candidateFreeze == Some(selection.candidateFreeze)
            && (s.completions[i] in selection.gateCompletions <==> slot.arm == arm && slot.kind == GATE)
  {
    hide ClosedRun, RunInvariant;
    ClosedRunCites(repo, plan, tail, s);
    assert SlotShape(plan.calls[i], i);
    CitedExactly(s.completions, i, FIRST_GATE, FULL_GATE);
    CitedExactly(s.completions, i, FULL_GATE, SELECTION_BARRIER);
    CitedExactly(s.completions, i, 12, 13);
    CitedExactly(s.completions, i, 13, 14);
  }

  lemma ClosedRunCites(repo: Repo, plan: CallPlan, tail: Ref, s: RunState)
    requires RunShape(plan) && ClosedRun(repo, plan, tail, s)
    ensures |s.completions| == CALLS && DistinctDigests(s.completions)
    ensures s.candidateFreeze.Some? && s.jointSelection.Some?
    ensures CandidatesCite(repo, s) && SelectionsCite(repo, s)
  {
    ClosedRunInvariant(repo, plan, tail, s);
    ReplayedCitations(repo, plan, ReadEntries(repo, tail).value);
  }

  lemma CitedExactly(completions: seq<Ref>, i: nat, lo: nat, hi: nat)
    requires DistinctDigests(completions) && lo <= hi <= |completions| && i < |completions|
    ensures completions[i] in completions[lo..hi] <==> lo <= i < hi
    ensures lo < |completions| ==> (completions[i] == completions[lo] <==> i == lo)
  {
    if lo <= i < hi {
      assert completions[lo..hi][i - lo] == completions[i];
    }
  }

  /** In every closed run a fallback is recorded exactly where the parent stands in for a candidate. */
  lemma FallbackIsHonest(repo: Repo, plan: CallPlan, tail: Ref, s: RunState, i: nat)
    requires RunShape(plan) && ClosedRun(repo, plan, tail, s) && i < CALLS
    ensures |s.completions| == CALLS && MaterializationAt(repo, s, i).Ok?
    ensures LoadCandidateFreeze(repo, s).Ok?
    ensures MaterializationAt(repo, s, i).value.fallbackUsed
            <==> && IsAdaptive(plan.calls[i].arm)
                 && (TriesCandidate(plan.calls[i]) || plan.calls[i].kind == HOLDOUT)
                 && ExecutedAt(repo, s, i) == Some(LoadCandidateFreeze(repo, s).value.score.parentHarness)
  {
    hide ClosedRun, Replay, VerifyGraderBinding;
    ClosedRunInvariant(repo, plan, tail, s);
    assert LoadCandidateFreeze(repo, s).value.Valid();
    assert SlotShape(plan.calls[i], i);
    assert CallRecorded(repo, plan, s, i);
  }

  /**
   Every graded call after the selection barrier carries a receipt unlocked by the run's own two
   frozen selections, and bound to the exact slot, variant and fallback flag that was executed.
   */
  lemma HoldoutGradesAreUnlocked(repo: Repo, plan: CallPlan, tail: Ref, s: RunState, i: nat)
    requires RunShape(plan) && ClosedRun(repo, plan, tail, s)
    requires SELECTION_BARRIER <= i < CALLS && plan.calls[i].arm != PURE_AT_B
    ensures |s.completions| == CALLS && LoadJointSelection(repo, s).Ok? && MaterializationAt(repo, s, i).Ok?
    ensures exists receipt: GraderReceipt, ref: Ref ::
              && LoadCompletion(repo, s.completions[i]).Ok?
              && LoadCompletion(repo, s.completions[i]).value.graderReceipt == Some(ref)
              && LoadReceipt(repo, ref) == Ok(receipt)
              && var joint := LoadJointSelection(repo, s).value.joint;
              && receipt.unlock
              == Some(HoldoutUnlock(plan.fingerprint, joint.scoreSelection.sha, joint.fullSelection.sha))
              && receipt.binding.callId == plan.calls[i].callId
              && receipt.binding.executedVariant == MaterializationAt(repo, s, i).value.executedVariant
              && receipt.binding.fallbackUsed == MaterializationAt(repo, s, i).value.fallbackUsed
  {
    hide ClosedRun, Replay;
    ClosedRunInvariant(repo, plan, tail, s);
    assert SlotShape(plan.calls[i], i);
    assert CallRecorded(repo, plan, s, i);
    var c := LoadCompletion(repo, s.completions[i]).value;
    var m := MaterializationAt(repo, s, i).value;
    assert m.jointSelection == s.jointSelection;
    assert VerifyGraderBinding(repo, m, c).Ok?;
    var ref := c.graderReceipt.value;
    var receipt := LoadReceipt(repo, ref).value;
    assert receipt.binding == ExpectedBinding(m, ExpectedGradeRole(m.slot).value);
  }

  /** What a completed call's grading evidence has to say, given its slot. */
  ghost predicate Accounted(repo: Repo, slot: CallSlot, c: CallCompletion) {
    var graded := slot.arm != PURE_AT_B && !IsController(slot.kind);
    && (graded <==> c.graderReceipt.Some?) && (graded <==> c.prediction.Some?)
    && (graded ==>
          && LoadReceipt(repo, c.graderReceipt.value).Ok?
          && var receipt := LoadReceipt(repo, c.graderReceipt.value).value;
          && LoadPrediction(repo, c.prediction.value) == Ok(receipt.prediction)
          && receipt.binding.callId == slot.callId && receipt.binding.task == slot.task
          && receipt.binding.arm == slot.arm)
    && (slot.arm == PURE_AT_B ==> LoadSample(repo, c.modelOutput) == Ok(slot.callId))
  }

  lemma GradedIsAccounted(repo: Repo, m: CallMaterialization, c: CallCompletion)
    requires ExpectedGradeRole(m.slot).Some? && m.slot.arm != PURE_AT_B && !IsController(m.slot.kind)
    requires VerifyGraderBinding(repo, m, c).Ok?
    ensures Accounted(repo, m.slot, c)
  {
  }

  lemma UngradedIsAccounted(repo: Repo, m: CallMaterialization, c: CallCompletion)
    requires ExpectedGradeRole(m.slot).None? && (m.slot.arm == PURE_AT_B || IsController(m.slot.kind))
    requires VerifyGraderBinding(repo, m, c).Ok?
    ensures Accounted(repo, m.slot, c)
  {
  }

  /**
   In every closed run exactly the calls that are neither controllers nor PURE@B samples are graded,
   each by a receipt for that call and its own prediction, and each sample is recorded for its own call.
   */
  lemma EveryCallIsAccounted(repo: Repo, plan: CallPlan, tail: Ref, s: RunState, i: nat)
    requires RunShape(plan) && ClosedRun(repo, plan, tail, s) && i < CALLS
    ensures |s.completions| == CALLS && LoadCompletion(repo, s.completions[i]).Ok?
    ensures Accounted(repo, plan.calls[i], LoadCompletion(repo, s.completions[i]).value)
  {
    hide ClosedRun, Replay, VerifyGraderBinding, Accounted, Authorized;
    ClosedRunInvariant(repo, plan, tail, s);
    assert SlotShape(plan.calls[i], i);
    assert CallRecorded(repo, plan, s, i);
    var m := MaterializationAt(repo, s, i).value;
    if ExpectedGradeRole(m.slot).Some? {
      GradedIsAccounted(repo, m, LoadCompletion(repo, s.completions[i]).value);
    } else {
      UngradedIsAccounted(repo, m, LoadCompletion(repo, s.completions[i]).value);
    }
  }
}
