/** Exactly what the writer accepts and publishes. */
module JournalMeaning {
  import opened Prelude
  import opened PilotContracts
  import opened RunContracts
  import opened RunReplay
  import opened RunSafety
  import opened RunExecution
  import opened RunMeaning
  import opened RunJournal

  /** The stale-tail guard passes exactly for the current tail. */
  lemma HoldsTail(journal: Journal, expected: Ref)
    requires journal.Valid()
    ensures journal.TailError(expected).None? <==> journal.tail == Some(expected)
    ensures journal.TailError(expected) == Some(StaleTailError)
       <==> expected.media == EntryMedia && journal.tail != Some(expected)
    ensures journal.TailError(expected) == Some(IntegrityError) <==> expected.media != EntryMedia
  {
    hide ReplayEntries, LoadEntry;
    if journal.tail.Some? {
      journal.TailReplays();
      TailMedia(journal.repository.View(), journal.plan, journal.tail.value);
    }
  }

  lemma TailMedia(repo: Repo, plan: CallPlan, tail: Ref)
    requires |plan.calls| == CALLS && Replay(repo, plan, tail).Ok?
    ensures tail.media == EntryMedia
  {
  }

  /** The next call opens exactly if what the caller names is what the slot has to run. */
  lemma MaterializesExactly(
    repo: Repo, plan: CallPlan, state: Option<RunState>, request: Ref, harness: Ref, variant: Variant, fallback: bool,
    m: CallMaterialization)
    requires |plan.calls| == CALLS
    ensures CheckedMaterialization(repo, plan, state, request, harness, variant, fallback) == Ok(m)
       <==> && state.Some? && state.value.nextSlot < CALLS
            && m.request == request && m.executedHarness == harness
            && m.executedVariant == variant && m.fallbackUsed == fallback
            && m.intendedVariant == plan.calls[state.value.nextSlot].variant
            && Opens(repo, plan, state.value, m)
  {
    hide VerifyMaterialization, Runs, HasContent;
    if state.Some? && state.value.nextSlot < CALLS {
      OpensExactly(repo, plan, state.value, MaterializationFor(repo.codec, plan, state.value, request, harness, variant, fallback));
    }
  }

  /** The open call completes exactly if what the caller names closes it. */
  lemma CompletesExactly(
    repo: Repo, plan: CallPlan, state: Option<RunState>, materialization: Ref, attempt: Ref, output: Ref,
    outcome: CallOutcome, prediction: Option<Ref>, receipt: Option<Ref>, c: CallCompletion)
    requires |plan.calls| == CALLS && (state.Some? ==> state.value.Valid())
    ensures CheckedCompletion(repo, plan, state, materialization, attempt, output, outcome, prediction, receipt) == Ok(c)
       <==> && state.Some? && c.Valid()
            && c.materialization == materialization && c.attemptOutcome == attempt && c.modelOutput == output
            && c.outcome == outcome && c.prediction == prediction && c.graderReceipt == receipt
            && exists m :: Closes(repo, plan, state.value, c, m)
  {
    hide VerifyCompletion, LoadMaterialization, Stored, HasContent, Graded;
    LoadsExactly(repo, materialization);
    if state.Some? {
      ClosesExactly(repo, plan, state.value, c);
      forall m | Closes(repo, plan, state.value, c, m) && c.materialization == materialization
        ensures LoadMaterialization(repo, materialization) == Ok(m)
      {
      }
    }
  }

  /** Both candidates freeze exactly if the two given arm freezes are valid together and fit the state. */
  lemma FreezesGiven(
    repo: Repo, plan: CallPlan, state: Option<RunState>, score: ArmCandidateFreeze, full: ArmCandidateFreeze,
    f: JointCandidateFreeze)
    requires state.Some? ==> state.value.Valid()
    ensures CheckedFreeze(repo, plan, state, score, full) == Ok(f)
       <==> && state.Some? && f.Valid() && f.score == score && f.full == full
            && FreezesBoth(repo, plan, state.value, f)
  {
    hide VerifyCandidateFreeze, ArmFrozen;
    if state.Some? {
      FreezesExactly(repo, plan, state.value, JointCandidateFreeze(plan.fingerprint, score, full));
    }
  }

  /** Both selections freeze exactly if, once both are stored, their references make a selection that fits the state. */
  lemma SelectsGiven(
    repo: Repo, plan: CallPlan, state: Option<RunState>, score: ArmSelection, full: ArmSelection, j: JointSelectionFreeze)
    requires state.Some? ==> state.value.Valid()
    ensures CheckedSelections(repo, plan, state, score, full) == Ok(j)
       <==> && state.Some? && score.Valid() && full.Valid() && j.Valid()
            && j.scoreSelection == Ref(
                 repo.codec.digest(ArmSelectionArtifact(score)), repo.codec.size(ArmSelectionArtifact(score)), ArmSelectionMedia)
            && j.fullSelection == Ref(
                 repo.codec.digest(ArmSelectionArtifact(full)), repo.codec.size(ArmSelectionArtifact(full)), ArmSelectionMedia)
            && exists f, a, b :: SelectsBoth(WithSelections(repo, score, full), plan, state.value, j, f, a, b)
  {
    hide VerifyJointSelection, Stored, ArmSelected;
    if state.Some? {
      SelectsExactly(WithSelections(repo, score, full), plan, state.value, j);
    }
  }

  /** What is stored once both selections are published: what was there, and each selection under a free digest. */
  lemma WithSelectionsSays(repo: Repo, score: ArmSelection, full: ArmSelection, d: Digest)
    ensures var later := WithSelections(repo, score, full);
            var a, b := ArmSelectionArtifact(score), ArmSelectionArtifact(full);
            && later.codec == repo.codec
            && (d in repo.objects ==> d in later.objects && later.objects[d] == repo.objects[d])
            && (d !in repo.objects && d == repo.codec.digest(a) ==> d in later.objects && later.objects[d] == a)
            && (d !in repo.objects && d != repo.codec.digest(a) && d == repo.codec.digest(b) ==>
                  d in later.objects && later.objects[d] == b)
            && (d in later.objects ==> d in repo.objects || d == repo.codec.digest(a) || d == repo.codec.digest(b))
  {
  }
}
