/**
 The live writer: tail, state and sequence in memory over a shared repository.
 Its invariant: replaying the tail gives the state.
 */
module RunJournal {
  import opened Prelude
  import opened PilotContracts
  import opened RunContracts
  import opened RunReplay
  import opened RunChain
  import opened RunSafety
  import opened RunExecution

  /** No two artifacts share a digest, and every stored object sits under its own. */
  ghost predicate Honest(repo: Repo) {
    InjectiveDigest(repo.codec) && Uncorrupted(repo)
  }

  /** An honest store publishes every valid artifact and stays honest. */
  lemma HonestPublishes(repo: Repo, value: Artifact)
    requires Honest(repo) && value.Valid(repo.codec)
    ensures repo.Publishes(value)
    ensures Honest(repo.Put(value))
  {
    var put := repo.Put(value);
    forall d | d in put.objects
      ensures put.codec.digest(put.objects[d]) == d
    {
    }
  }

  /** The shared content-addressed store. Other holders may add artifacts to it at any time. */
  class Repository {
    const codec: Codec
    var objects: map<Digest, Artifact>

    function View(): Repo
      reads this
    {
      Repo(objects, codec)
    }

    constructor (codec: Codec)
      ensures this.codec == codec && objects == map[]
    {
      this.codec := codec;
      objects := map[];
    }

    /** Publish and read back; a digest already taken by other content fails closed. */
    method Publish(value: Artifact, media: Media) returns (r: Result<Ref, RunError>)
      modifies this
      ensures View() == old(View()).AfterPublish(value)
      ensures objects == if value.Valid(codec) && codec.digest(value) !in old(objects) then
                           old(objects)[codec.digest(value) := value]
                         else old(objects)
      ensures r.Ok? <==>
                value.Valid(codec)
                && (codec.digest(value) in old(objects) ==> old(objects)[codec.digest(value)] == value)
      ensures r.Ok? ==> r.value == Ref(codec.digest(value), codec.size(value), media)
      ensures Extends(old(View()), View())
      ensures r == if old(View()).Publishes(value) then Ok(View().RefFor(value, media))
                   else if value.Valid(codec) then Err(IntegrityError) else Err(InvalidModel)
      ensures r.Ok? ==> View().Get(r.value) == Some(value) && r.value.media == media
    {
      if !value.Valid(codec) {
        return Err(InvalidModel);
      }
      if codec.digest(value) !in objects {
        objects := objects[codec.digest(value) := value];
      }
      var ref := View().RefFor(value, media);
      if View().Get(ref) != Some(value) {
        return Err(IntegrityError);
      }
      return Ok(ref);
    }
  }

  /** The in-memory position of the writer. */
  datatype Head = Head(tail: Option<Ref>, stateRef: Option<Ref>, state: Option<RunState>, sequence: int)

  /** The position agrees with a replay of the tail, step for step. */
  ghost predicate Agrees(repo: Repo, plan: CallPlan, head: Head, chain: seq<Linked>, events: seq<RunEvent>)
    requires |plan.calls| == CALLS
  {
    && head.sequence == |chain| - 1
    && ReplayEntries(repo, plan, chain) == Ok(Replayed(events, head.state))
    && (if chain == [] then head.tail.None? && head.stateRef.None?
        else
          && head.tail.Some?
          && IsChain(repo, chain, head.tail.value)
          && head.stateRef == Some(chain[|chain| - 1].entry.state))
  }

  /** Whatever is added to the store, the writer's position keeps agreeing with the replay. */
  lemma AgreementOutlives(repo: Repo, later: Repo, plan: CallPlan, head: Head, chain: seq<Linked>, events: seq<RunEvent>)
    requires |plan.calls| == CALLS && Extends(repo, later)
    requires Agrees(repo, plan, head, chain, events)
    ensures Agrees(later, plan, head, chain, events)
  {
    ReplayEntriesMonotone(repo, later, plan, chain);
    if chain != [] {
      ChainMonotone(repo, later, chain, head.tail.value);
    }
  }

  /** The entry the writer builds next always passes the entry validator. */
  lemma NewEntryValid(
    repo: Repo, plan: CallPlan, head: Head, chain: seq<Linked>, events: seq<RunEvent>, entry: JournalEntry)
    requires |plan.calls| == CALLS && Agrees(repo, plan, head, chain, events)
    requires entry.sequence == |chain| && entry.previousEntry == head.tail && entry.previousState == head.stateRef
    requires entry.event.media == EventMedia && entry.state.media == StateMedia
    ensures entry.Valid()
  {
    if chain != [] {
      var last := chain[|chain| - 1];
      assert LoadEntry(repo, last.ref) == Ok(last.entry);
    }
  }

  /** The entry that appends `event`, leading to `next`, at this position. */
  function EntryFor(repo: Repo, plan: CallPlan, head: Head, event: RunEvent, next: RunState): JournalEntry
    requires head.sequence >= -1
  {
    JournalEntry(
      plan.fingerprint, head.sequence + 1, head.tail, head.stateRef,
      repo.RefFor(EventArtifact(event), EventMedia), repo.RefFor(StateArtifact(next), StateMedia))
  }

  /** The event, the state and the entry can be published one after the other. */
  predicate AppendPublishes(repo: Repo, plan: CallPlan, head: Head, event: RunEvent, next: RunState)
    requires head.sequence >= -1
  {
    && repo.Publishes(EventArtifact(event))
    && var withEvent := repo.Put(EventArtifact(event));
    && withEvent.Publishes(StateArtifact(next))
    && var withState := withEvent.Put(StateArtifact(next));
    && withState.Publishes(EntryArtifact(EntryFor(repo, plan, head, event, next)))
  }

  /** One more linked entry, with its event and state in the store, keeps the agreement. */
  lemma AppendAgrees(
    repo: Repo, plan: CallPlan, head: Head, chain: seq<Linked>, events: seq<RunEvent>,
    event: RunEvent, next: RunState, ref: Ref, entry: JournalEntry)
    requires |plan.calls| == CALLS && Agrees(repo, plan, head, chain, events)
    requires head.state.Some? ==> head.state.value.Valid()
    requires ApplyEvent(repo, plan, head.state, event) == Ok(next)
    requires LoadEvent(repo, entry.event) == Ok(event) && LoadState(repo, entry.state) == Ok(next)
    requires entry.planFingerprint == plan.fingerprint && entry.sequence == |chain|
    requires entry.previousEntry == head.tail && entry.previousState == head.stateRef
    requires LoadEntry(repo, ref) == Ok(entry)
    ensures Agrees(
              repo, plan, Head(Some(ref), Some(entry.state), Some(next), head.sequence + 1),
              chain + [Linked(ref, entry)], events + [event])
    ensures head.tail != Some(ref)
  {
    var longer := chain + [Linked(ref, entry)];
    assert longer[..|longer| - 1] == chain;
    forall i | 0 <= i < |longer|
      ensures LinksJoin(longer, i) && LoadEntry(repo, longer[i].ref) == Ok(longer[i].entry)
    {
      if i < |chain| {
        assert LinksJoin(chain, i);
        assert LoadEntry(repo, chain[i].ref) == Ok(chain[i].entry);
      }
    }
    if chain != [] {
      ChainDigestsDistinct(repo, longer, ref);
      assert longer[|chain| - 1].ref == head.tail.value;
    }
  }

  /** The store after a successful append. */
  function AfterAppend(repo: Repo, plan: CallPlan, head: Head, event: RunEvent, next: RunState): Repo
    requires head.sequence >= -1
  {
    var withState := repo.Put(EventArtifact(event)).Put(StateArtifact(next));
    withState.Put(EntryArtifact(EntryFor(repo, plan, head, event, next)))
  }

  lemma AppendCommits(
    repo: Repo, plan: CallPlan, head: Head, chain: seq<Linked>, events: seq<RunEvent>,
    event: RunEvent, next: RunState)
    requires |plan.calls| == CALLS && Agrees(repo, plan, head, chain, events)
    requires head.state.Some? ==> head.state.value.Valid()
    requires ApplyEvent(repo, plan, head.state, event) == Ok(next)
    requires AppendPublishes(repo, plan, head, event, next)
    ensures var entry := EntryFor(repo, plan, head, event, next);
            var ref := repo.RefFor(EntryArtifact(entry), EntryMedia);
            && head.tail != Some(ref)
            && Agrees(
                 AfterAppend(repo, plan, head, event, next), plan,
                 Head(Some(ref), Some(entry.state), Some(next), head.sequence + 1),
                 chain + [Linked(ref, entry)], events + [event])
  {
    hide ApplyEvent, ReplayEntries, IsChain;
    var entry := EntryFor(repo, plan, head, event, next);
    var ref := repo.RefFor(EntryArtifact(entry), EntryMedia);
    var withEvent := repo.Put(EventArtifact(event));
    var withState := withEvent.Put(StateArtifact(next));
    var later := AfterAppend(repo, plan, head, event, next);
    assert Extends(repo, withEvent) && Extends(withEvent, withState) && Extends(withState, later);
    GetMonotone(withEvent, later, entry.event);
    GetMonotone(withState, later, entry.state);
    AgreementOutlives(repo, later, plan, head, chain, events);
    ApplyMonotone(repo, later, plan, head.state, event);
    AppendAgrees(later, plan, head, chain, events, event, next, ref, entry);
  }

  /** In an honest store an applicable event is always appended. */
  lemma HonestAppends(
    repo: Repo, plan: CallPlan, head: Head, chain: seq<Linked>, events: seq<RunEvent>, event: RunEvent, next: RunState)
    requires |plan.calls| == CALLS && Honest(repo) && Agrees(repo, plan, head, chain, events)
    requires event.Valid() && next.Valid()
    ensures AppendPublishes(repo, plan, head, event, next)
  {
    HonestPublishes(repo, EventArtifact(event));
    var withEvent := repo.Put(EventArtifact(event));
    HonestPublishes(withEvent, StateArtifact(next));
    var withState := withEvent.Put(StateArtifact(next));
    var entry := EntryFor(repo, plan, head, event, next);
    NewEntryValid(repo, plan, head, chain, events, entry);
    HonestPublishes(withState, EntryArtifact(entry));
  }

  /** The materialization that the next slot would activate, once every check of the operation passes. */
  function CheckedMaterialization(
    repo: Repo, plan: CallPlan, state: Option<RunState>, request: Ref, harness: Ref, variant: Variant, fallback: bool)
    : Result<CallMaterialization, RunError>
    requires |plan.calls| == CALLS
  {
    if state.None? || state.value.nextSlot >= CALLS then Err(ProtocolError)
    else
      var m := MaterializationFor(repo.codec, plan, state.value, request, harness, variant, fallback);
      var _ :- VerifyMaterialization(repo, plan, state.value, m);
      Ok(m)
  }

  /** The completion that would close the open call. */
  function CheckedCompletion(
    repo: Repo, plan: CallPlan, state: Option<RunState>, materialization: Ref, attempt: Ref, output: Ref,
    outcome: CallOutcome, prediction: Option<Ref>, receipt: Option<Ref>)
    : Result<CallCompletion, RunError>
    requires |plan.calls| == CALLS && (state.Some? ==> state.value.Valid())
  {
    if state.None? || state.value.openMaterialization.None? then Err(ProtocolError)
    else
      var m :- LoadMaterialization(repo, materialization);
      var completion := CompletionFor(plan, m, materialization, attempt, output, outcome, prediction, receipt);
      :- Need(completion.Valid(), InvalidModel);
      var _ :- VerifyCompletion(repo, plan, state.value, completion);
      Ok(completion)
  }

  /** The joint candidate freeze that would be activated. */
  function CheckedFreeze(
    repo: Repo, plan: CallPlan, state: Option<RunState>, score: ArmCandidateFreeze, full: ArmCandidateFreeze)
    : Result<JointCandidateFreeze, RunError>
    requires state.Some? ==> state.value.Valid()
  {
    if state.None? then Err(ProtocolError)
    else
      var freeze := JointCandidateFreeze(plan.fingerprint, score, full);
      :- Need(freeze.Valid(), InvalidModel);
      var _ :- VerifyCandidateFreeze(repo, plan, state.value, freeze);
      Ok(freeze)
  }

  /** The store once both arm selections have been published. */
  function WithSelections(repo: Repo, score: ArmSelection, full: ArmSelection): Repo {
    repo.Put(ArmSelectionArtifact(score)).Put(ArmSelectionArtifact(full))
  }

  /** The joint selection that would be activated; both arm selections are published before it is verified. */
  function CheckedSelections(
    repo: Repo, plan: CallPlan, state: Option<RunState>, score: ArmSelection, full: ArmSelection)
    : Result<JointSelectionFreeze, RunError>
    requires state.Some? ==> state.value.Valid()
  {
    if state.None? || state.value.candidateFreeze.None? then Err(ProtocolError)
    else if state.value.nextSlot != SELECTION_BARRIER || state.value.openMaterialization.Some? then Err(ProtocolError)
    else
      :- Need(score.Valid() && full.Valid(), InvalidModel);
      var joint := JointFor(
        plan, state.value,
        repo.RefFor(ArmSelectionArtifact(score), ArmSelectionMedia),
        repo.RefFor(ArmSelectionArtifact(full), ArmSelectionMedia));
      :- Need(joint.Valid(), InvalidModel);
      var _ :- VerifyJointSelection(WithSelections(repo, score, full), plan, state.value, joint);
      Ok(joint)
  }

  function ClosureFor(plan: CallPlan, tail: Ref, stateRef: Ref, s: RunState): RunClosure
    requires s.candidateFreeze.Some? && s.jointSelection.Some?
  {
    RunClosure(
      plan.fingerprint, tail, stateRef, s.candidateFreeze.value, s.jointSelection.value, s.completions)
  }

  lemma ClosureForValid(repo: Repo, plan: CallPlan, head: Head, chain: seq<Linked>, events: seq<RunEvent>)
    requires |plan.calls| == CALLS && Agrees(repo, plan, head, chain, events)
    requires head.state.Some? && head.state.value.Valid() && head.state.value.closed
    ensures head.tail.Some? && head.stateRef.Some?
    ensures head.state.value.candidateFreeze.Some? && head.state.value.jointSelection.Some?
    ensures ClosureFor(plan, head.tail.value, head.stateRef.value, head.state.value).Valid()
  {
    var last := chain[|chain| - 1];
    assert LoadEntry(repo, last.ref) == Ok(last.entry);
  }

  /** The closure a closed writer publishes always passes the offline closure verifier. */
  lemma PublishedClosureVerifies(
    repo: Repo, plan: CallPlan, head: Head, chain: seq<Linked>, events: seq<RunEvent>, ref: Ref)
    requires RunShape(plan) && Agrees(repo, plan, head, chain, events)
    requires head.state.Some? && head.state.value.Valid() && head.state.value.closed
    requires head.tail.Some? && head.stateRef.Some?
    requires head.state.value.candidateFreeze.Some? && head.state.value.jointSelection.Some?
    requires LoadClosure(repo, ref)
          == Ok(ClosureFor(plan, head.tail.value, head.stateRef.value, head.state.value))
    ensures VerifyClosure(repo, plan, ref) == Ok(ClosureVerification(plan.fingerprint, 204))
  {
    hide VerifyClosure;
    ReadEntriesExact(repo, head.tail.value, chain);
    ClosureVerifiesExactly(repo, plan, ref);
  }

  /** The closure that follows an append of CLOSE leading to `next` at this position. */
  function ClosingArtifact(repo: Repo, plan: CallPlan, head: Head, event: RunEvent, next: RunState): Artifact
    requires head.sequence >= -1 && next.candidateFreeze.Some? && next.jointSelection.Some?
  {
    var entry := EntryFor(repo, plan, head, event, next);
    ClosureArtifact(ClosureFor(plan, repo.RefFor(EntryArtifact(entry), EntryMedia), entry.state, next))
  }

  /**
   The closure's digest is still free, or already holds the closure, and none of the three
   artifacts appended before it takes that digest.
   */
  predicate ClosureHasRoom(repo: Repo, plan: CallPlan, head: Head, event: RunEvent, next: RunState)
    requires head.sequence >= -1 && next.candidateFreeze.Some? && next.jointSelection.Some?
  {
    var closure := ClosingArtifact(repo, plan, head, event, next);
    var d := repo.codec.digest(closure);
    && (d in repo.objects ==> repo.objects[d] == closure)
    && d != repo.codec.digest(EventArtifact(event))
    && d != repo.codec.digest(StateArtifact(next))
    && d != repo.codec.digest(EntryArtifact(EntryFor(repo, plan, head, event, next)))
  }

  /** After an append of CLOSE the closure can be published exactly when the store before had room for it. */
  lemma ClosurePublishesExactly(
    repo: Repo, plan: CallPlan, head: Head, chain: seq<Linked>, events: seq<RunEvent>,
    event: RunEvent, next: RunState)
    requires |plan.calls| == CALLS && Agrees(repo, plan, head, chain, events)
    requires head.state.Some? ==> head.state.value.Valid()
    requires ApplyEvent(repo, plan, head.state, event) == Ok(next) && next.Valid() && next.closed
    requires AppendPublishes(repo, plan, head, event, next)
    ensures next.candidateFreeze.Some? && next.jointSelection.Some?
    ensures AfterAppend(repo, plan, head, event, next).Publishes(ClosingArtifact(repo, plan, head, event, next))
            <==> ClosureHasRoom(repo, plan, head, event, next)
  {
    hide ApplyEvent, Agrees, AfterAppend, AppendPublishes, ClosureHasRoom;
    AppendCommits(repo, plan, head, chain, events, event, next);
    var entry := EntryFor(repo, plan, head, event, next);
    var ref := repo.RefFor(EntryArtifact(entry), EntryMedia);
    ClosureForValid(
      AfterAppend(repo, plan, head, event, next), plan,
      Head(Some(ref), Some(entry.state), Some(next), head.sequence + 1),
      chain + [Linked(ref, entry)], events + [event]);
    RoomAfterAppend(repo, plan, head, event, next);
  }

  lemma RoomAfterAppend(repo: Repo, plan: CallPlan, head: Head, event: RunEvent, next: RunState)
    requires head.sequence >= -1 && next.candidateFreeze.Some? && next.jointSelection.Some?
    requires AppendPublishes(repo, plan, head, event, next)
    requires ClosingArtifact(repo, plan, head, event, next).Valid(repo.codec)
    ensures AfterAppend(repo, plan, head, event, next).Publishes(ClosingArtifact(repo, plan, head, event, next))
            <==> ClosureHasRoom(repo, plan, head, event, next)
  {
    var closure := ClosingArtifact(repo, plan, head, event, next);
    PublishesExactly(AfterAppend(repo, plan, head, event, next), closure);
    AppendedContents(repo, plan, head, event, next, repo.codec.digest(closure));
  }

  /** A valid artifact can be published exactly when its digest is free or already holds it. */
  lemma PublishesExactly(repo: Repo, value: Artifact)
    requires value.Valid(repo.codec)
    ensures repo.Publishes(value) <==>
            (repo.codec.digest(value) in repo.objects ==> repo.objects[repo.codec.digest(value)] == value)
  {
  }

  /** What stands under a digest after an append. */
  lemma AppendedContents(repo: Repo, plan: CallPlan, head: Head, event: RunEvent, next: RunState, d: Digest)
    requires head.sequence >= -1 && AppendPublishes(repo, plan, head, event, next)
    ensures var entry := EntryArtifact(EntryFor(repo, plan, head, event, next));
            var later := AfterAppend(repo, plan, head, event, next);
            && later.codec == repo.codec
            && (d in later.objects <==>
                  d in repo.objects || d == repo.codec.digest(EventArtifact(event))
                  || d == repo.codec.digest(StateArtifact(next)) || d == repo.codec.digest(entry))
            && (d in repo.objects ==> later.objects[d] == repo.objects[d])
            && (d == repo.codec.digest(EventArtifact(event)) ==> later.objects[d] == EventArtifact(event))
            && (d == repo.codec.digest(StateArtifact(next)) ==> later.objects[d] == StateArtifact(next))
            && (d == repo.codec.digest(entry) ==> later.objects[d] == entry)
  {
  }

  /** Putting an artifact under a free digest only disturbs the publication of what belongs there. */
  lemma PublishesBesides(repo: Repo, d: Digest, other: Artifact, value: Artifact)
    requires repo.codec.digest(value) != d && repo.Publishes(value)
    ensures repo.(objects := repo.objects[d := other]).Publishes(value)
    ensures repo.(objects := repo.objects[d := other]).Put(value)
         == repo.Put(value).(objects := repo.Put(value).objects[d := other])
  {
    assert repo.objects[d := other][repo.codec.digest(value) := value]
        == repo.objects[repo.codec.digest(value) := value][d := other];
  }

  lemma AppendsBesides(
    repo: Repo, plan: CallPlan, head: Head, event: RunEvent, next: RunState, d: Digest, other: Artifact)
    requires head.sequence >= -1 && AppendPublishes(repo, plan, head, event, next)
    requires d != repo.codec.digest(EventArtifact(event)) && d != repo.codec.digest(StateArtifact(next))
    requires d != repo.codec.digest(EntryArtifact(EntryFor(repo, plan, head, event, next)))
    ensures AppendPublishes(repo.(objects := repo.objects[d := other]), plan, head, event, next)
  {
    var first, second := EventArtifact(event), StateArtifact(next);
    PublishesBesides(repo, d, other, first);
    PublishesBesides(repo.Put(first), d, other, second);
    PublishesBesides(repo.Put(first).Put(second), d, other, EntryArtifact(EntryFor(repo, plan, head, event, next)));
  }

  lemma ClosureStandsApart(repo: Repo, plan: CallPlan, head: Head, event: RunEvent, next: RunState)
    requires head.sequence >= -1 && next.candidateFreeze.Some? && next.jointSelection.Some? && Honest(repo)
    ensures var d := repo.codec.digest(ClosingArtifact(repo, plan, head, event, next));
            && d != repo.codec.digest(EventArtifact(event)) && d != repo.codec.digest(StateArtifact(next))
            && d != repo.codec.digest(EntryArtifact(EntryFor(repo, plan, head, event, next)))
  {
  }

  lemma NoRoomLeft(repo: Repo, plan: CallPlan, head: Head, event: RunEvent, next: RunState, other: Artifact)
    requires head.sequence >= -1 && next.candidateFreeze.Some? && next.jointSelection.Some?
    requires other != ClosingArtifact(repo, plan, head, event, next)
    ensures var d := repo.codec.digest(ClosingArtifact(repo, plan, head, event, next));
            !ClosureHasRoom(repo.(objects := repo.objects[d := other]), plan, head, event, next)
  {
  }

  /**
   Such a failure does occur: in any honest store where CLOSE applies and the closure is not stored
   yet, let any other artifact take the closure's digest. CLOSE is still appended, the closure is not published.
   */
  lemma ClosureCanBeLockedOut(
    repo: Repo, plan: CallPlan, head: Head, chain: seq<Linked>, events: seq<RunEvent>,
    event: RunEvent, next: RunState, other: Artifact)
    returns (taken: Repo)
    requires |plan.calls| == CALLS && Honest(repo) && Agrees(repo, plan, head, chain, events)
    requires head.state.Some? && head.state.value.Valid()
    requires event.Valid() && ApplyEvent(repo, plan, head.state, event) == Ok(next) && next.Valid() && next.closed
    requires next.candidateFreeze.Some? && next.jointSelection.Some?
    requires repo.codec.digest(ClosingArtifact(repo, plan, head, event, next)) !in repo.objects
    requires other != ClosingArtifact(repo, plan, head, event, next)
    ensures Extends(repo, taken) && Agrees(taken, plan, head, chain, events)
    ensures ApplyEvent(taken, plan, head.state, event) == Ok(next)
    ensures AppendPublishes(taken, plan, head, event, next)
    ensures !ClosureHasRoom(taken, plan, head, event, next)
    ensures !AfterAppend(taken, plan, head, event, next).Publishes(ClosingArtifact(taken, plan, head, event, next))
  {
    var d := repo.codec.digest(ClosingArtifact(repo, plan, head, event, next));
    taken := repo.(objects := repo.objects[d := other]);
    hide ApplyEvent, Agrees, AppendPublishes, AfterAppend, ClosureHasRoom, Honest, ClosingArtifact;
    AgreementOutlives(repo, taken, plan, head, chain, events);
    ApplyMonotone(repo, taken, plan, head.state, event);
    HonestAppends(repo, plan, head, chain, events, event, next);
    ClosureStandsApart(repo, plan, head, event, next);
    NoRoomLeft(repo, plan, head, event, next, other);
    AppendsBesides(repo, plan, head, event, next, d, other);
    ClosurePublishesExactly(taken, plan, head, chain, events, event, next);
  }

  lemma HonestAfterAppend(repo: Repo, plan: CallPlan, head: Head, event: RunEvent, next: RunState)
    requires Honest(repo) && head.sequence >= -1
    requires AppendPublishes(repo, plan, head, event, next)
    ensures Honest(AfterAppend(repo, plan, head, event, next))
  {
    HonestPublishes(repo, EventArtifact(event));
    var withEvent := repo.Put(EventArtifact(event));
    HonestPublishes(withEvent, StateArtifact(next));
    var withState := withEvent.Put(StateArtifact(next));
    HonestPublishes(withState, EntryArtifact(EntryFor(repo, plan, head, event, next)));
  }

  lemma NotClosedWhileOpen(s: RunState)
    requires s.Valid() && s.openMaterialization.Some?
    ensures !s.closed
  {
  }

  lemma ReplayedFingerprint(repo: Repo, plan: CallPlan, chain: seq<Linked>)
    requires |plan.calls| == CALLS && ReplayEntries(repo, plan, chain).Ok? && chain != []
    ensures ReplayEntries(repo, plan, chain).value.state.value.planFingerprint == plan.fingerprint
  {
    var before := ReplayEntries(repo, plan, chain[..|chain| - 1]).value;
    assert ReplayStep(repo, plan, before, chain[|chain| - 1].entry).Ok?;
  }

  // ---------------------------------------------------------------- what the operations build

  function MaterializationFor(
    codec: Codec, plan: CallPlan, s: RunState, request: Ref, harness: Ref, variant: Variant, fallback: bool)
    : CallMaterialization
    requires |plan.calls| == CALLS && s.nextSlot < CALLS
  {
    var slot := plan.calls[s.nextSlot];
    CallMaterialization(
      plan.fingerprint, slot, codec.slotDigest(slot), request, harness, slot.variant, variant, fallback,
      if slot.globalSlot >= CANDIDATE_BARRIER then s.candidateFreeze else None,
      if slot.globalSlot >= SELECTION_BARRIER then s.jointSelection else None)
  }

  function CompletionFor(
    plan: CallPlan, m: CallMaterialization, materialization: Ref, attempt: Ref, output: Ref, outcome: CallOutcome,
    prediction: Option<Ref>, receipt: Option<Ref>): CallCompletion
  {
    CallCompletion(
      plan.fingerprint, m.slot.callId, m.slot.globalSlot, m.slotReference, materialization, attempt, output,
      outcome, prediction, receipt)
  }

  function JointFor(plan: CallPlan, s: RunState, score: Ref, full: Ref): JointSelectionFreeze
    requires s.candidateFreeze.Some? && SELECTION_BARRIER <= |s.completions|
  {
    JointSelectionFreeze(
      plan.fingerprint, s.candidateFreeze.value, score, full, s.completions[FIRST_GATE..SELECTION_BARRIER])
  }

  lemma MaterializationForValid(
    codec: Codec, plan: CallPlan, s: RunState, request: Ref, harness: Ref, variant: Variant, fallback: bool)
    requires RunShape(plan) && s.Valid() && s.nextSlot < CALLS
    ensures MaterializationFor(codec, plan, s, request, harness, variant, fallback).Valid(codec)
  {
    assert SlotShape(plan.calls[s.nextSlot], s.nextSlot);
  }

  lemma VerifiedMaterializationApplies(repo: Repo, plan: CallPlan, s: RunState, ref: Ref, m: CallMaterialization)
    requires |plan.calls| == CALLS && s.Valid() && s.planFingerprint == plan.fingerprint
    requires LoadMaterialization(repo, ref) == Ok(m) && VerifyMaterialization(repo, plan, s, m).Ok?
    ensures ApplyEvent(repo, plan, Some(s), RunEvent(plan.fingerprint, MaterializeCall(ref)))
         == Ok(s.(openMaterialization := Some(ref)))
  {
  }

  /** A completed call leaves a valid state unless its digest was used before; a repeat is rejected. */
  lemma VerifiedCompletionApplies(repo: Repo, plan: CallPlan, s: RunState, ref: Ref, c: CallCompletion)
    requires RunShape(plan) && s.Valid() && s.planFingerprint == plan.fingerprint && !s.closed
    requires s.openMaterialization.Some? ==> BarriersPassed(s)
    requires LoadCompletion(repo, ref) == Ok(c) && VerifyCompletion(repo, plan, s, c).Ok?
    requires forall i :: 0 <= i < |s.completions| ==> s.completions[i].sha != ref.sha
    ensures ApplyEvent(repo, plan, Some(s), RunEvent(plan.fingerprint, Action.CompleteCall(ref)))
         == Ok(s.(openMaterialization := None, completions := s.completions + [ref], nextSlot := s.nextSlot + 1))
  {
  }

  /** A stored freeze loads from then on. */
  lemma FreezeLoads(earlier: Repo, later: Repo, ref: Ref, f: JointCandidateFreeze)
    requires Extends(earlier, later) && f.Valid()
    requires earlier.Get(ref) == Some(CandidateFreezeArtifact(f)) && ref.media == CandidateFreezeMedia
    ensures LoadFreeze(later, ref) == Ok(f)
  {
    GetMonotone(earlier, later, ref);
  }

  lemma VerifiedFreezeApplies(repo: Repo, plan: CallPlan, s: RunState, ref: Ref, f: JointCandidateFreeze)
    requires |plan.calls| == CALLS && s.Valid() && s.planFingerprint == plan.fingerprint
    requires LoadFreeze(repo, ref) == Ok(f) && VerifyCandidateFreeze(repo, plan, s, f).Ok?
    ensures ApplyEvent(repo, plan, Some(s), RunEvent(plan.fingerprint, FreezeCandidates(ref)))
         == Ok(s.(candidateFreeze := Some(ref)))
  {
  }

  lemma VerifiedJointApplies(repo: Repo, plan: CallPlan, s: RunState, ref: Ref, j: JointSelectionFreeze)
    requires |plan.calls| == CALLS && s.Valid() && s.planFingerprint == plan.fingerprint
    requires LoadJoint(repo, ref) == Ok(j) && VerifyJointSelection(repo, plan, s, j).Ok?
    ensures ApplyEvent(repo, plan, Some(s), RunEvent(plan.fingerprint, FreezeSelections(ref)))
         == Ok(s.(jointSelection := Some(ref)))
  {
  }

  /** A verified completion, once stored, can always be applied. */
  lemma StoredCompletionApplies(
    before: Repo, later: Repo, plan: CallPlan, head: Head, chain: seq<Linked>, events: seq<RunEvent>,
    ref: Ref, c: CallCompletion)
    requires RunShape(plan) && Extends(before, later)
    requires Agrees(later, plan, head, chain, events) && head.state.Some? && head.state.value.Valid()
    requires VerifyCompletion(before, plan, head.state.value, c).Ok?
    requires LoadCompletion(later, ref) == Ok(c)
    ensures var s := head.state.value;
            ApplyEvent(later, plan, Some(s), RunEvent(plan.fingerprint, Action.CompleteCall(ref)))
            == Ok(s.(openMaterialization := None, completions := s.completions + [ref], nextSlot := s.nextSlot + 1))
  {
    hide ApplyEvent, VerifyCompletion;
    var s := head.state.value;
    CompletionMonotone(before, later, plan, s, c);
    ReplayedInvariant(later, plan, chain);
    ReplayedWord(later, plan, chain);
    ReplayedFingerprint(later, plan, chain);
    CompletionsNeverRepeat(later, plan, s, ref);
    OpenWhenCompleting(later, plan, s, c);
    NotClosedWhileOpen(s);
    VerifiedCompletionApplies(later, plan, s, ref, c);
  }

  lemma OpenWhenCompleting(repo: Repo, plan: CallPlan, s: RunState, c: CallCompletion)
    requires |plan.calls| == CALLS && s.Valid() && VerifyCompletion(repo, plan, s, c).Ok?
    ensures s.openMaterialization.Some?
  {
  }

  class Journal {
    const repository: Repository
    const plan: CallPlan
    var tail: Option<Ref>
    var stateRef: Option<Ref>
    var state: Option<RunState>
    var sequence: int
    ghost var chain: seq<Linked>
    ghost var events: seq<RunEvent>

    function Position(): Head
      reads this
    {
      Head(tail, stateRef, state, sequence)
    }

    ghost predicate Valid()
      reads this, repository
    {
      && RunShape(plan)
      && Agrees(repository.View(), plan, Position(), chain, events)
    }

    constructor (repository: Repository, plan: CallPlan)
      requires RunShape(plan)
      ensures Valid() && this.repository == repository && this.plan == plan
      ensures tail.None? && state.None? && events == []
    {
      this.repository, this.plan := repository, plan;
      tail, stateRef, state, sequence := None, None, None, -1;
      chain, events := [], [];
    }

    /** Rebuild a writer from a tail: it takes the last entry's sequence and the replayed state. */
    constructor Recover(repository: Repository, plan: CallPlan, from: Ref)
      requires RunShape(plan)
      requires Replay(repository.View(), plan, from).Ok?
      ensures Valid() && this.repository == repository && this.plan == plan
      ensures tail == Some(from)
      ensures Replay(repository.View(), plan, from) == Ok(Replayed(events, state))
      ensures ReadEntries(repository.View(), from) == Ok(chain)
    {
      hide WalkBack, ReplayStep;
      this.repository, this.plan := repository, plan;
      var entries := ReadEntries(repository.View(), from).value;
      ReadEntriesExact(repository.View(), from, entries);
      var replayed := Replay(repository.View(), plan, from).value;
      var last := entries[|entries| - 1];
      tail, stateRef, state, sequence := Some(last.ref), Some(last.entry.state), replayed.state, last.entry.sequence;
      chain, events := entries, replayed.events;
      new;
      assert LinksJoin(entries, |entries| - 1);
    }

    /** Replaying the tail yields exactly the appended events and the in-memory state. */
    lemma TailReplays()
      requires Valid() && tail.Some?
      ensures Replay(repository.View(), plan, tail.value) == Ok(Replayed(events, state))
      ensures ReadEntries(repository.View(), tail.value) == Ok(chain)
      ensures sequence == |events| - 1
    {
      ReadEntriesExact(repository.View(), tail.value, chain);
      ReplayedWord(repository.View(), plan, chain);
    }

    /** What applying an event to the current position would give. */
    ghost function Next(event: RunEvent): (next: Result<RunState, RunError>)
      requires Valid()
      reads this, repository
    {
      assert Replayed(events, state).Valid();
      ApplyEvent(repository.View(), plan, state, event)
    }

    /** The current state, known to satisfy its validator. */
    ghost function ValidState(): (s: Option<RunState>)
      requires Valid()
      reads this, repository
      ensures s == state && (s.Some? ==> s.value.Valid())
      ensures sequence >= -1
    {
      assert Replayed(events, state).Valid();
      state
    }

    // -------------------------------------------------------------- append

    /** Publish one artifact; the position is untouched and still agrees with the replay. */
    method Store(value: Artifact, media: Media) returns (r: Result<Ref, RunError>)
      requires Valid()
      modifies repository
      ensures Valid()
      ensures repository.View() == old(repository.View()).AfterPublish(value)
      ensures Extends(old(repository.View()), repository.View())
      ensures r == if old(repository.View()).Publishes(value) then Ok(repository.View().RefFor(value, media))
                   else if value.Valid(repository.codec) then Err(IntegrityError) else Err(InvalidModel)
      ensures r.Ok? ==> repository.View().Get(r.value) == Some(value)
    {
      ghost var before := repository.View();
      r := repository.Publish(value, media);
      AgreementOutlives(before, repository.View(), plan, Position(), chain, events);
    }

    /** Publish the event, then the state, then the entry that links them to the current tail. */
    method StoreTransition(event: RunEvent, next: RunState) returns (r: Result<(Ref, Ref), RunError>)
      requires Valid()
      modifies repository
      ensures Valid() && Extends(old(repository.View()), repository.View())
      ensures r.Ok? <==> AppendPublishes(old(repository.View()), plan, Position(), event, next)
      ensures r.Ok? ==>
                var before := old(repository.View());
                var entry := EntryFor(before, plan, Position(), event, next);
                && repository.View() == AfterAppend(before, plan, Position(), event, next)
                && r.value == (before.RefFor(EntryArtifact(entry), EntryMedia), entry.state)
    {
      ghost var known := ValidState();
      hide Agrees;
      var eventRef := Store(EventArtifact(event), EventMedia);
      if eventRef.Err? {
        return Err(eventRef.error);
      }
      var nextRef := Store(StateArtifact(next), StateMedia);
      if nextRef.Err? {
        return Err(nextRef.error);
      }
      var entry := JournalEntry(plan.fingerprint, sequence + 1, tail, stateRef, eventRef.value, nextRef.value);
      var entryRef := Store(EntryArtifact(entry), EntryMedia);
      if entryRef.Err? {
        return Err(entryRef.error);
      }
      return Ok((entryRef.value, nextRef.value));
    }

    /** The tail, the events and the sequence after one more event. */
    twostate predicate Appended(event: RunEvent, newTail: Ref)
      reads this
    {
      && events == old(events) + [event]
      && tail == Some(newTail) && tail != old(tail)
      && sequence == old(sequence) + 1
    }

    /** Apply, publish, and only then move the position. */
    method Append(event: RunEvent) returns (r: Result<Ref, RunError>)
      requires Valid()
      modifies this, repository
      ensures Valid() && Extends(old(repository.View()), repository.View())
      ensures r.Err? ==> unchanged(this)
      ensures old(Next(event)).Err? ==> r == Err(old(Next(event)).error)
      ensures r.Ok? <==>
              old(Next(event).Ok?
                  && AppendPublishes(repository.View(), plan, Position(), event, Next(event).value))
      ensures r.Ok? ==>
                && state == Some(old(Next(event)).value)
                && Appended(event, r.value)
                && var entry := EntryFor(
                  old(repository.View()), plan, old(Position()), event, old(Next(event)).value);
                && repository.View()
                == AfterAppend(old(repository.View()), plan, old(Position()), event, old(Next(event)).value)
                && r.value == repository.View().RefFor(EntryArtifact(entry), EntryMedia)
                && stateRef == Some(entry.state)
    {
      hide ApplyEvent, AppendPublishes, AfterAppend, Agrees;
      ghost var before, head, known := repository.View(), Position(), ValidState();
      var applied := ApplyEvent(repository.View(), plan, state, event);
      if applied.Err? {
        return Err(applied.error);
      }
      var stored := StoreTransition(event, applied.value);
      if stored.Err? {
        return Err(stored.error);
      }
      AppendCommits(before, plan, head, chain, events, event, applied.value);
      ghost var entry := EntryFor(before, plan, head, event, applied.value);
      tail, stateRef, state := Some(stored.value.0), Some(stored.value.1), Some(applied.value);
      sequence := sequence + 1;
      chain, events := chain + [Linked(stored.value.0, entry)], events + [event];
      return Ok(stored.value.0);
    }

    /** Append an event whose artifact is already in the store. */
    method Activate(event: RunEvent) returns (r: Result<Ref, RunError>)
      requires Valid() && event.Valid()
      modifies this, repository
      ensures Valid() && Extends(old(repository.View()), repository.View())
      ensures r.Err? ==> unchanged(this)
      ensures old(Next(event)).Err? ==> r == Err(old(Next(event)).error)
      ensures r.Ok? ==> old(Next(event)).Ok? && state == Some(old(Next(event)).value) && Appended(event, r.value)
      ensures old(Honest(repository.View()) && Next(event).Ok?) ==> r.Ok?
    {
      hide ApplyEvent, AppendPublishes;
      if old(Honest(repository.View()) && Next(event).Ok?) {
        HonestAppends(repository.View(), plan, Position(), chain, events, event, Next(event).value);
      }
      r := Append(event);
    }

    /** `_require_tail`: the caller must hold the current tail. */
    function TailError(expected: Ref): Option<RunError>
      reads this
    {
      if expected.media != EntryMedia then Some(IntegrityError)
      else if tail != Some(expected) then Some(StaleTailError)
      else None
    }

    // -------------------------------------------------------------- operations

    /** Create the unique OPEN root. */
    method OpenRun() returns (r: Result<Ref, RunError>)
      requires Valid()
      modifies this, repository
      ensures Valid() && Extends(old(repository.View()), repository.View())
      ensures r.Err? ==> unchanged(this)
      ensures old(tail).Some? ==> r == Err(ProtocolError)
      ensures r.Ok? ==>
                && Appended(RunEvent(plan.fingerprint, Open), r.value)
                && state == Some(InitialState(plan.fingerprint))
      ensures old(Honest(repository.View())) ==> (r.Ok? <==> old(tail).None?)
    {
      if tail.Some? {
        return Err(ProtocolError);
      }
      r := Activate(RunEvent(plan.fingerprint, Open));
    }

    /** What every reachable position knows about its state. */
    lemma StateFacts()
      requires Valid() && state.Some?
      ensures state.value.Valid() && state.value.planFingerprint == plan.fingerprint
      ensures state.value.openMaterialization.Some? ==> BarriersPassed(state.value)
      ensures tail.Some?
    {
      ReplayedWord(repository.View(), plan, chain);
      assert Replayed(events, state).Valid();
      ReplayedFingerprint(repository.View(), plan, chain);
    }

    method CommitMaterialization(m: CallMaterialization) returns (r: Result<(Ref, Ref), RunError>)
      requires Valid() && state.Some? && m.Valid(repository.codec)
      requires VerifyMaterialization(repository.View(), plan, state.value, m).Ok?
      modifies this, repository
      ensures Valid() && Extends(old(repository.View()), repository.View())
      ensures r.Err? ==> unchanged(this)
      ensures r.Ok? ==>
                && LoadMaterialization(repository.View(), r.value.1) == Ok(m)
                && Appended(RunEvent(plan.fingerprint, MaterializeCall(r.value.1)), r.value.0)
                && state == Some(old(state).value.(openMaterialization := Some(r.value.1)))
      ensures old(Honest(repository.View())) ==> r.Ok?
    {
      hide ApplyEvent, VerifyMaterialization, Agrees, AppendPublishes, AfterAppend, Honest;
      StateFacts();
      var s := state.value;
      ghost var before := repository.View();
      if old(Honest(repository.View())) {
        HonestPublishes(repository.View(), MaterializationArtifact(m));
      }
      var ref := Store(MaterializationArtifact(m), MaterializationMedia);
      if ref.Err? {
        return Err(ref.error);
      }
      MaterializationMonotone(before, repository.View(), plan, s, m);
      VerifiedMaterializationApplies(repository.View(), plan, s, ref.value, m);
      var newTail := Activate(RunEvent(plan.fingerprint, MaterializeCall(ref.value)));
      if newTail.Err? {
        return Err(newTail.error);
      }
      return Ok((newTail.value, ref.value));
    }

    /** Authorise and activate exactly the next frozen call slot. */
    method MaterializeNextCall(
      expected: Ref, request: Ref, harness: Ref, variant: Variant, fallback: bool)
      returns (r: Result<(Ref, Ref), RunError>)
      requires Valid()
      modifies this, repository
      ensures Valid() && Extends(old(repository.View()), repository.View())
      ensures r.Err? ==> unchanged(this)
      ensures old(TailError(expected)).Some? ==> r == Err(old(TailError(expected)).value)
      ensures var checked := old(CheckedMaterialization(
                repository.View(), plan, state, request, harness, variant, fallback));
              && (old(TailError(expected)).None? && checked.Err? ==> r == Err(checked.error))
              && (r.Ok? ==>
                    && checked.Ok?
                    && LoadMaterialization(repository.View(), r.value.1) == checked
                    && Appended(RunEvent(plan.fingerprint, MaterializeCall(r.value.1)), r.value.0)
                    && state == Some(old(state).value.(openMaterialization := Some(r.value.1))))
              && (old(Honest(repository.View())) ==>
                    (r.Ok? <==> old(TailError(expected)).None? && checked.Ok?))
    {
      hide ApplyEvent, VerifyMaterialization;
      var tailError := TailError(expected);
      if tailError.Some? {
        return Err(tailError.value);
      }
      var checked := CheckedMaterialization(repository.View(), plan, state, request, harness, variant, fallback);
      if checked.Err? {
        return Err(checked.error);
      }
      StateFacts();
      MaterializationForValid(repository.codec, plan, state.value, request, harness, variant, fallback);
      r := CommitMaterialization(checked.value);
    }

    method CommitCompletion(completion: CallCompletion) returns (r: Result<(Ref, Ref), RunError>)
      requires Valid() && state.Some? && state.value.Valid() && completion.Valid()
      requires VerifyCompletion(repository.View(), plan, state.value, completion).Ok?
      modifies this, repository
      ensures Valid() && Extends(old(repository.View()), repository.View())
      ensures r.Err? ==> unchanged(this)
      ensures r.Ok? ==>
                && LoadCompletion(repository.View(), r.value.1) == Ok(completion)
                && Appended(RunEvent(plan.fingerprint, Action.CompleteCall(r.value.1)), r.value.0)
                && state == Some(old(state).value.(
                  openMaterialization := None,
                  completions := old(state).value.completions + [r.value.1],
                  nextSlot := old(state).value.nextSlot + 1))
      ensures old(Honest(repository.View())) ==> r.Ok?
    {
      hide ApplyEvent, VerifyCompletion, RunInvariant, Agrees;
      StateFacts();
      var s := state.value;
      ghost var before := repository.View();
      if old(Honest(repository.View())) {
        HonestPublishes(repository.View(), CompletionArtifact(completion));
      }
      var ref := Store(CompletionArtifact(completion), CompletionMedia);
      if ref.Err? {
        return Err(ref.error);
      }
      StoredCompletionApplies(
        before, repository.View(), plan, Position(), chain, events, ref.value, completion);
      var newTail := Activate(RunEvent(plan.fingerprint, Action.CompleteCall(ref.value)));
      if newTail.Err? {
        return Err(newTail.error);
      }
      return Ok((newTail.value, ref.value));
    }

    /** Close the open call; provider failures consume the slot like successes. */
    method CompleteCall(
      expected: Ref, materialization: Ref, attempt: Ref, output: Ref, outcome: CallOutcome,
      prediction: Option<Ref>, receipt: Option<Ref>)
      returns (r: Result<(Ref, Ref), RunError>)
      requires Valid()
      modifies this, repository
      ensures Valid() && Extends(old(repository.View()), repository.View())
      ensures r.Err? ==> unchanged(this)
      ensures old(TailError(expected)).Some? ==> r == Err(old(TailError(expected)).value)
      ensures var checked := old(CheckedCompletion(
                repository.View(), plan, ValidState(), materialization, attempt, output, outcome, prediction, receipt));
              && (old(TailError(expected)).None? && checked.Err? ==> r == Err(checked.error))
              && (r.Ok? ==>
                    && checked.Ok?
                    && LoadCompletion(repository.View(), r.value.1) == checked
                    && Appended(RunEvent(plan.fingerprint, Action.CompleteCall(r.value.1)), r.value.0)
                    && state == Some(old(state).value.(
                      openMaterialization := None,
                      completions := old(state).value.completions + [r.value.1],
                      nextSlot := old(state).value.nextSlot + 1)))
              && (old(Honest(repository.View())) ==>
                    (r.Ok? <==> old(TailError(expected)).None? && checked.Ok?))
    {
      hide ApplyEvent, VerifyCompletion;
      var tailError := TailError(expected);
      if tailError.Some? {
        return Err(tailError.value);
      }
      ghost var known := ValidState();
      var checked := CheckedCompletion(
        repository.View(), plan, state, materialization, attempt, output, outcome, prediction, receipt);
      if checked.Err? {
        return Err(checked.error);
      }
      r := CommitCompletion(checked.value);
    }

    method CommitFreeze(freeze: JointCandidateFreeze) returns (r: Result<(Ref, Ref), RunError>)
      requires Valid() && state.Some? && state.value.Valid() && freeze.Valid()
      requires VerifyCandidateFreeze(repository.View(), plan, state.value, freeze).Ok?
      modifies this, repository
      ensures Valid() && Extends(old(repository.View()), repository.View())
      ensures r.Err? ==> unchanged(this)
      ensures r.Ok? ==>
                && LoadFreeze(repository.View(), r.value.1) == Ok(freeze)
                && Appended(RunEvent(plan.fingerprint, Action.FreezeCandidates(r.value.1)), r.value.0)
                && state == Some(old(state).value.(candidateFreeze := Some(r.value.1)))
      ensures old(Honest(repository.View())) ==> r.Ok?
    {
      hide ApplyEvent, VerifyCandidateFreeze, Agrees, AppendPublishes, AfterAppend, Honest, LoadFreeze;
      StateFacts();
      var s := state.value;
      ghost var before := repository.View();
      if old(Honest(repository.View())) {
        HonestPublishes(repository.View(), CandidateFreezeArtifact(freeze));
      }
      var ref := Store(CandidateFreezeArtifact(freeze), CandidateFreezeMedia);
      if ref.Err? {
        return Err(ref.error);
      }
      ghost var stored := repository.View();
      FreezeLoads(stored, stored, ref.value, freeze);
      FreezeMonotone(before, stored, plan, s, freeze);
      VerifiedFreezeApplies(stored, plan, s, ref.value, freeze);
      var newTail := Activate(RunEvent(plan.fingerprint, Action.FreezeCandidates(ref.value)));
      if newTail.Err? {
        return Err(newTail.error);
      }
      FreezeLoads(stored, repository.View(), ref.value, freeze);
      return Ok((newTail.value, ref.value));
    }

    /** Activate both candidates at once, after both proposal completions. */
    method FreezeCandidates(expected: Ref, score: ArmCandidateFreeze, full: ArmCandidateFreeze)
      returns (r: Result<(Ref, Ref), RunError>)
      requires Valid()
      modifies this, repository
      ensures Valid() && Extends(old(repository.View()), repository.View())
      ensures r.Err? ==> unchanged(this)
      ensures old(TailError(expected)).Some? ==> r == Err(old(TailError(expected)).value)
      ensures var checked := old(CheckedFreeze(repository.View(), plan, ValidState(), score, full));
              && (old(TailError(expected)).None? && checked.Err? ==> r == Err(checked.error))
              && (r.Ok? ==>
                    && checked.Ok?
                    && LoadFreeze(repository.View(), r.value.1) == checked
                    && Appended(RunEvent(plan.fingerprint, Action.FreezeCandidates(r.value.1)), r.value.0)
                    && state == Some(old(state).value.(candidateFreeze := Some(r.value.1))))
              && (old(Honest(repository.View())) ==>
                    (r.Ok? <==> old(TailError(expected)).None? && checked.Ok?))
    {
      hide ApplyEvent, VerifyCandidateFreeze;
      var tailError := TailError(expected);
      if tailError.Some? {
        return Err(tailError.value);
      }
      ghost var known := ValidState();
      var checked := CheckedFreeze(repository.View(), plan, state, score, full);
      if checked.Err? {
        return Err(checked.error);
      }
      r := CommitFreeze(checked.value);
    }

    method CommitJoint(joint: JointSelectionFreeze) returns (r: Result<(Ref, Ref), RunError>)
      requires Valid() && state.Some? && state.value.Valid() && joint.Valid()
      requires VerifyJointSelection(repository.View(), plan, state.value, joint).Ok?
      modifies this, repository
      ensures Valid() && Extends(old(repository.View()), repository.View())
      ensures r.Err? ==> unchanged(this)
      ensures r.Ok? ==>
                && LoadJoint(repository.View(), r.value.1) == Ok(joint)
                && Appended(RunEvent(plan.fingerprint, Action.FreezeSelections(r.value.1)), r.value.0)
                && state == Some(old(state).value.(jointSelection := Some(r.value.1)))
      ensures old(Honest(repository.View())) ==> r.Ok?
    {
      hide ApplyEvent, VerifyJointSelection, Agrees;
      StateFacts();
      var s := state.value;
      ghost var before := repository.View();
      if old(Honest(repository.View())) {
        HonestPublishes(repository.View(), JointSelectionArtifact(joint));
      }
      var ref := Store(JointSelectionArtifact(joint), JointSelectionMedia);
      if ref.Err? {
        return Err(ref.error);
      }
      JointMonotone(before, repository.View(), plan, s, joint);
      VerifiedJointApplies(repository.View(), plan, s, ref.value, joint);
      var newTail := Activate(RunEvent(plan.fingerprint, Action.FreezeSelections(ref.value)));
      if newTail.Err? {
        return Err(newTail.error);
      }
      return Ok((newTail.value, ref.value));
    }

    /** Publish both arm selections, then verify the joint selection they form; the position stays where it is. */
    method StoreSelections(score: ArmSelection, full: ArmSelection) returns (r: Result<JointSelectionFreeze, RunError>)
      requires Valid()
      modifies repository
      ensures Valid() && Extends(old(repository.View()), repository.View())
      ensures r.Ok? ==>
                && state.Some? && r.value.Valid() && state.value.Valid()
                && VerifyJointSelection(repository.View(), plan, state.value, r.value).Ok?
      ensures r.Ok? ==> old(CheckedSelections(repository.View(), plan, ValidState(), score, full)) == r
      ensures old(Honest(repository.View())) ==>
                && old(CheckedSelections(repository.View(), plan, ValidState(), score, full)) == r
                && (r.Ok? ==> Honest(repository.View()))
    {
      hide ApplyEvent, VerifyJointSelection, Agrees;
      ghost var before, known := repository.View(), ValidState();
      if state.None? || state.value.candidateFreeze.None? {
        return Err(ProtocolError);
      }
      if state.value.nextSlot != SELECTION_BARRIER || state.value.openMaterialization.Some? {
        return Err(ProtocolError);
      }
      if !score.Valid() || !full.Valid() {
        return Err(InvalidModel);
      }
      if Honest(before) {
        HonestPublishes(before, ArmSelectionArtifact(score));
        HonestPublishes(before.Put(ArmSelectionArtifact(score)), ArmSelectionArtifact(full));
      }
      var scoreRef := Store(ArmSelectionArtifact(score), ArmSelectionMedia);
      if scoreRef.Err? {
        return Err(scoreRef.error);
      }
      var fullRef := Store(ArmSelectionArtifact(full), ArmSelectionMedia);
      if fullRef.Err? {
        return Err(fullRef.error);
      }
      var joint := JointFor(plan, state.value, scoreRef.value, fullRef.value);
      if !joint.Valid() {
        return Err(InvalidModel);
      }
      var verified := VerifyJointSelection(repository.View(), plan, state.value, joint);
      if verified.Err? {
        return Err(verified.error);
      }
      return Ok(joint);
    }

    /** Activate both selections in one event, only after all sixteen GATE calls. */
    method FreezeSelections(expected: Ref, score: ArmSelection, full: ArmSelection)
      returns (r: Result<(Ref, Ref), RunError>)
      requires Valid()
      modifies this, repository
      ensures Valid() && Extends(old(repository.View()), repository.View())
      ensures r.Err? ==> unchanged(this)
      ensures old(TailError(expected)).Some? ==> r == Err(old(TailError(expected)).value)
      ensures var checked := old(CheckedSelections(repository.View(), plan, ValidState(), score, full));
              && (r.Ok? ==>
                    && checked.Ok?
                    && LoadJoint(repository.View(), r.value.1) == checked
                    && Appended(RunEvent(plan.fingerprint, Action.FreezeSelections(r.value.1)), r.value.0)
                    && state == Some(old(state).value.(jointSelection := Some(r.value.1))))
              && (old(Honest(repository.View()) && TailError(expected).None?) && checked.Err?
                  ==> r == Err(checked.error))
              && (old(Honest(repository.View())) ==>
                    (r.Ok? <==> old(TailError(expected)).None? && checked.Ok?))
    {
      hide ApplyEvent, VerifyJointSelection, Agrees, CheckedSelections, Honest;
      var tailError := TailError(expected);
      if tailError.Some? {
        return Err(tailError.value);
      }
      ghost var known := ValidState();
      var checked := StoreSelections(score, full);
      if checked.Err? {
        return Err(checked.error);
      }
      r := CommitJoint(checked.value);
    }

    /** The unlock for grading that the current joint selection implies; it exists once selections are frozen. */
    method UnlockHoldout() returns (r: Result<HoldoutUnlock, RunError>)
      requires Valid()
      ensures state.None? ==> r == Err(ProtocolError)
      ensures state.Some? ==> (r.Ok? <==> state.value.jointSelection.Some?)
      ensures r.Ok? ==>
                && state.Some? && LoadJointSelection(repository.View(), state.value).Ok?
                && var joint := LoadJointSelection(repository.View(), state.value).value.joint;
                && r.value == HoldoutUnlock(plan.fingerprint, joint.scoreSelection.sha, joint.fullSelection.sha)
                && r.value.scoreSelection != r.value.fullSelection
    {
      hide Agrees, ApplyEvent;
      if state.None? {
        return Err(ProtocolError);
      }
      var selections := LoadJointSelection(repository.View(), state.value);
      UnlockPossible();
      if selections.Err? {
        return Err(selections.error);
      }
      var joint := selections.value.joint;
      return Ok(HoldoutUnlock(plan.fingerprint, joint.scoreSelection.sha, joint.fullSelection.sha));
    }

    /** The unlock validator's distinctness check can never fire: equal digests would be one selection. */
    lemma UnlockPossible()
      requires Valid() && state.Some?
      ensures state.value.jointSelection.Some? <==> LoadJointSelection(repository.View(), state.value).Ok?
      ensures state.value.jointSelection.Some? ==>
                var joint := LoadJointSelection(repository.View(), state.value).value.joint;
                joint.scoreSelection.sha != joint.fullSelection.sha
    {
      hide ApplyEvent, ReplayEntries, VerifyJointSelection, CandidatesSound;
      ReplayedInvariant(repository.View(), plan, chain);
    }

    /**
     Close the run, then publish its closure. This is the one operation that can fail after the
     position has moved: exactly when CLOSE was appended and the closure could not be published.
     */
    method CloseRun(expected: Ref) returns (r: Result<(Ref, Ref), RunError>)
      requires Valid()
      modifies this, repository
      ensures Valid() && Extends(old(repository.View()), repository.View())
      ensures old(TailError(expected)).Some? ==> r == Err(old(TailError(expected)).value)
      ensures r.Ok? ==> VerifyClosure(repository.View(), plan, r.value.1) == Ok(ClosureVerification(plan.fingerprint, 204))
      ensures old(CloseAppends(expected)) <==>
                && old(state).Some? && tail.Some?
                && Appended(CloseEvent(), tail.value)
                && state == Some(old(state).value.(closed := true))
      ensures !old(CloseAppends(expected)) ==> r.Err? && unchanged(this)
      ensures old(CloseAppends(expected)) ==> (r.Ok? <==> old(RoomToClose()))
      ensures r.Ok? ==> tail == Some(r.value.0)
      ensures r.Ok? ==>
                && stateRef.Some? && state.Some?
                && state.value.candidateFreeze.Some? && state.value.jointSelection.Some?
                && LoadClosure(repository.View(), r.value.1)
                   == Ok(RunClosure(
                           plan.fingerprint, r.value.0, stateRef.value, state.value.candidateFreeze.value,
                           state.value.jointSelection.value, state.value.completions))
      ensures old(Honest(repository.View())) ==>
                (r.Ok? <==> old(TailError(expected).None? && Next(CloseEvent()).Ok?))
    {
      hide ApplyEvent, AppendPublishes, AfterAppend, Agrees, VerifyClosure, Honest, RoomToClose;
      var tailError := TailError(expected);
      if tailError.Some? {
        return Err(tailError.value);
      }
      if state.None? {
        CloseNeedsState();
        return Err(ProtocolError);
      }
      ghost var before, head, known := repository.View(), Position(), ValidState();
      ghost var next := Next(CloseEvent());
      if next.Ok? {
        CloseResult();
        if Honest(before) {
          HonestAppends(before, plan, head, chain, events, CloseEvent(), next.value);
          HonestAfterAppend(before, plan, head, CloseEvent(), next.value);
        }
        if AppendPublishes(before, plan, head, CloseEvent(), next.value) {
          CloseRoomExactly();
        }
      }
      var newTail := Append(CloseEvent());
      if newTail.Err? {
        return Err(newTail.error);
      }
      var ref := PublishClosure();
      if ref.Err? {
        return Err(ref.error);
      }
      return Ok((newTail.value, ref.value));
    }

    /** Publish the closure of a closed run; the offline verifier accepts what is published. */
    method PublishClosure() returns (r: Result<Ref, RunError>)
      requires Valid() && state.Some? && state.value.closed
      modifies repository
      ensures Valid() && Extends(old(repository.View()), repository.View())
      ensures state.value.candidateFreeze.Some? && state.value.jointSelection.Some?
      ensures tail.Some? && stateRef.Some?
      ensures r.Ok? <==>
              old(repository.View()).Publishes(
                ClosureArtifact(ClosureFor(plan, tail.value, stateRef.value, state.value)))
      ensures r.Ok? ==> VerifyClosure(repository.View(), plan, r.value) == Ok(ClosureVerification(plan.fingerprint, 204))
      ensures r.Ok? ==>
                LoadClosure(repository.View(), r.value)
                == Ok(RunClosure(
                        plan.fingerprint, tail.value, stateRef.value, state.value.candidateFreeze.value,
                        state.value.jointSelection.value, state.value.completions))
      ensures old(Honest(repository.View())) ==> r.Ok?
    {
      hide Agrees, VerifyClosure;
      ghost var known := ValidState();
      ClosureForValid(repository.View(), plan, Position(), chain, events);
      var closure := ClosureFor(plan, tail.value, stateRef.value, state.value);
      if Honest(repository.View()) {
        HonestPublishes(repository.View(), ClosureArtifact(closure));
      }
      r := Store(ClosureArtifact(closure), ClosureMedia);
      if r.Ok? {
        PublishedClosureVerifies(repository.View(), plan, Position(), chain, events, r.value);
      }
    }

    function CloseEvent(): RunEvent {
      RunEvent(plan.fingerprint, Close)
    }

    ghost predicate CloseAppends(expected: Ref)
      requires Valid()
      reads this, repository
    {
      && ValidState().Some?
      && TailError(expected).None?
      && Next(CloseEvent()).Ok?
      && AppendPublishes(repository.View(), plan, Position(), CloseEvent(), Next(CloseEvent()).value)
    }

    /** Nothing but the closure has taken the digest that the closure of this run will have. */
    ghost predicate RoomToClose()
      requires Valid()
      reads this, repository
    {
      && Next(CloseEvent()).Ok?
      && ValidState().Some?
      && var next := Next(CloseEvent()).value;
      && next.candidateFreeze.Some? && next.jointSelection.Some?
      && ClosureHasRoom(repository.View(), plan, Position(), CloseEvent(), next)
    }

    lemma CloseRoomExactly()
      requires Valid() && state.Some? && Next(CloseEvent()).Ok?
      requires AppendPublishes(repository.View(), plan, Position(), CloseEvent(), Next(CloseEvent()).value)
      ensures var next := Next(CloseEvent()).value;
              && next.candidateFreeze.Some? && next.jointSelection.Some?
              && (AfterAppend(repository.View(), plan, Position(), CloseEvent(), next).Publishes(
                    ClosingArtifact(repository.View(), plan, Position(), CloseEvent(), next))
                  <==> RoomToClose())
    {
      hide ApplyEvent, AppendPublishes, AfterAppend, ClosureHasRoom, ClosingArtifact;
      ghost var known := ValidState();
      CloseResult();
      ClosurePublishesExactly(
        repository.View(), plan, Position(), chain, events, CloseEvent(), Next(CloseEvent()).value);
    }

    lemma CloseNeedsState()
      requires Valid() && state.None?
      ensures Next(CloseEvent()).Err?
    {
    }

    lemma CloseResult()
      requires Valid() && state.Some? && Next(CloseEvent()).Ok?
      ensures Next(CloseEvent()) == Ok(state.value.(closed := true))
      ensures state.value.candidateFreeze.Some? && state.value.jointSelection.Some?
    {
      hide Agrees, LoadMaterialization, LoadCompletion, LoadFreeze, LoadJoint;
      hide VerifyMaterialization, VerifyCompletion, VerifyCandidateFreeze, VerifyJointSelection;
      ghost var known := ValidState();
    }
  }

  /** Crash recovery: a writer is rebuilt exactly when the tail replays, and fails with the replay's own error. */
  method Resume(repository: Repository, plan: CallPlan, tail: Option<Ref>) returns (r: Result<Journal, RunError>)
    requires RunShape(plan)
    ensures tail.None? ==> r.Ok? && r.value.tail.None? && r.value.state.None?
    ensures tail.Some? ==>
              match Replay(repository.View(), plan, tail.value)
              case Err(e) => r == Err(e)
              case Ok(replayed) =>
                r.Ok? && r.value.tail == tail && r.value.state == replayed.state && r.value.events == replayed.events
    ensures r.Ok? ==> fresh(r.value) && r.value.Valid() && r.value.repository == repository && r.value.plan == plan
  {
    if tail.None? {
      var unopened := new Journal(repository, plan);
      return Ok(unopened);
    }
    var replayed := ReplayLoop(repository.View(), plan, tail.value);
    if replayed.Err? {
      return Err(replayed.error);
    }
    var rebuilt := new Journal.Recover(repository, plan, tail.value);
    return Ok(rebuilt);
  }

  /** A writer rebuilt from the tail of another has the same tail, state, sequence and history. */
  method Rebuild(journal: Journal) returns (r: Result<Journal, RunError>)
    requires journal.Valid() && journal.tail.Some?
    ensures r.Ok? && fresh(r.value) && r.value.Valid()
    ensures r.value.Position() == journal.Position()
    ensures r.value.events == journal.events && r.value.chain == journal.chain
  {
    journal.TailReplays();
    r := Resume(journal.repository, journal.plan, journal.tail);
    r.value.TailReplays();
  }
}
