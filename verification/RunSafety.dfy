/** What every accepted run looks like. */
module RunSafety {
  import opened Prelude
  import opened PilotContracts
  import opened RunContracts
  import opened RunReplay

  // ---------------------------------------------------------------- the frozen schedule's shape

  function SlotArm(i: nat): Arm {
    if i < 5 then SCORE else if i < 10 then FULL
    else if i < 14 then (if i % 2 == 0 then SCORE else FULL)
    else if i < 19 then SCORE else if i < 24 then FULL
    else if i < 32 then SCORE else if i < 40 then FULL
    else if i < 48 then PURE else if i < 56 then STATIC
    else if i < 64 then SCORE else if i < 72 then FULL
    else PURE_AT_B
  }

  function SlotKind(i: nat): CallKind {
    if i < 10 then PARENT_FIT
    else if i < 12 then DIAGNOSIS
    else if i < 14 then PROPOSAL
    else if i < 24 then CANDIDATE_FIT
    else if i < 40 then GATE
    else if i < 72 then HOLDOUT
    else PURE_AT_B_SAMPLE
  }

  /** The part of the frozen plan that transitions depend on. */
  ghost predicate RunShape(plan: CallPlan) {
    && |plan.calls| == CALLS
    && forall i :: 0 <= i < CALLS ==> SlotShape(plan.calls[i], i)
  }

  ghost predicate SlotShape(slot: CallSlot, i: nat) {
    && slot.globalSlot == i
    && slot.arm == SlotArm(i)
    && slot.kind == SlotKind(i)
    && slot.requiresCandidates == (SlotKind(i) == CANDIDATE_FIT)
    && slot.requiresSelections == (i >= SELECTION_BARRIER)
  }

  // ---------------------------------------------------------------- one action at a time

  datatype Step = OPEN | MATERIALIZE | COMPLETE | FREEZE_CANDIDATES | FREEZE_SELECTIONS | CLOSE

  function StepOf(event: RunEvent): Step {
    match event.action
    case Open => OPEN
    case MaterializeCall(_) => MATERIALIZE
    case CompleteCall(_) => COMPLETE
    case FreezeCandidates(_) => FREEZE_CANDIDATES
    case FreezeSelections(_) => FREEZE_SELECTIONS
    case Close => CLOSE
  }

  function StepsOf(events: seq<RunEvent>): (steps: seq<Step>)
    ensures |steps| == |events|
    ensures forall i :: 0 <= i < |events| ==> steps[i] == StepOf(events[i])
  {
    seq(|events|, i requires 0 <= i < |events| => StepOf(events[i]))
  }

  /** The only kind of action a run in this state can accept; a closed run accepts none. */
  function NextStep(state: Option<RunState>): Option<Step> {
    match state
    case None => Some(OPEN)
    case Some(s) =>
      if s.closed then None
      else if s.openMaterialization.Some? then Some(COMPLETE)
      else if s.nextSlot == CANDIDATE_BARRIER && s.candidateFreeze.None? then Some(FREEZE_CANDIDATES)
      else if s.nextSlot == SELECTION_BARRIER && s.jointSelection.None? then Some(FREEZE_SELECTIONS)
      else if s.nextSlot == CALLS then Some(CLOSE)
      else Some(MATERIALIZE)
  }

  /** In every valid state at most one action kind can be accepted. */
  lemma OneActionKind(repo: Repo, plan: CallPlan, previous: Option<RunState>, event: RunEvent)
    requires RunShape(plan) && (previous.Some? ==> previous.value.Valid())
    requires ApplyEvent(repo, plan, previous, event).Ok?
    ensures NextStep(previous) == Some(StepOf(event))
  {
    if previous.Some? && event.action.MaterializeCall? && previous.value.nextSlot < CALLS {
      assert SlotShape(plan.calls[previous.value.nextSlot], previous.value.nextSlot);
    }
  }

  /** The word spelled by a run up to `n` completed calls, before any barrier that stands at `n`. */
  function WordAt(n: nat): seq<Step> {
    if n == 0 then [OPEN]
    else WordAt(n - 1) + BarrierAt(n - 1) + [MATERIALIZE, COMPLETE]
  }

  function BarrierAt(n: nat): seq<Step> {
    if n == CANDIDATE_BARRIER then [FREEZE_CANDIDATES]
    else if n == SELECTION_BARRIER then [FREEZE_SELECTIONS]
    else []
  }

  /** The steps taken since the last completed call. */
  function Pending(s: RunState): seq<Step> {
    (if s.nextSlot == CANDIDATE_BARRIER && s.candidateFreeze.Some? then [FREEZE_CANDIDATES]
     else if s.nextSlot == SELECTION_BARRIER && s.jointSelection.Some? then [FREEZE_SELECTIONS]
     else [])
    + (if s.openMaterialization.Some? then [MATERIALIZE] else if s.closed then [CLOSE] else [])
  }

  function WordOf(s: RunState): seq<Step> {
    WordAt(s.nextSlot) + Pending(s)
  }

  /** What an accepted transition does to the state, without saying what it verified. */
  predicate Moves(s: RunState, next: RunState, step: Step) {
    match step
    case OPEN => false
    case MATERIALIZE =>
      && next.openMaterialization.Some? && next == s.(openMaterialization := next.openMaterialization)
      && BarriersPassed(s)
    case COMPLETE =>
      && |next.completions| > 0
      && next == s.(
        openMaterialization := None,
        completions := s.completions + [next.completions[|next.completions| - 1]],
        nextSlot := s.nextSlot + 1)
    case FREEZE_CANDIDATES =>
      next.candidateFreeze.Some? && next == s.(candidateFreeze := next.candidateFreeze)
    case FREEZE_SELECTIONS =>
      next.jointSelection.Some? && next == s.(jointSelection := next.jointSelection)
    case CLOSE => next == s.(closed := true)
  }

  lemma ApplyMoves(repo: Repo, plan: CallPlan, s: RunState, event: RunEvent)
    requires RunShape(plan) && s.Valid()
    requires ApplyEvent(repo, plan, Some(s), event).Ok?
    ensures Moves(s, ApplyEvent(repo, plan, Some(s), event).value, StepOf(event))
  {
    if event.action.MaterializeCall? && s.nextSlot < CALLS {
      assert SlotShape(plan.calls[s.nextSlot], s.nextSlot);
    }
  }

  /** Freezes never come early: the part of state validity the word depends on. */
  predicate FreezesInTime(s: RunState) {
    && (s.candidateFreeze.Some? ==> CANDIDATE_BARRIER <= s.nextSlot)
    && (s.jointSelection.Some? ==> SELECTION_BARRIER <= s.nextSlot)
  }

  lemma CompletionSpells(s: RunState, next: RunState)
    requires FreezesInTime(s) && BarriersPassed(s) && !s.closed
    requires s.openMaterialization.Some?
    requires Moves(s, next, COMPLETE)
    ensures WordOf(next) == WordOf(s) + [COMPLETE]
  {
    var before := WordAt(s.nextSlot);
    var barrier := BarrierAt(s.nextSlot);
    assert Pending(s) == barrier + [MATERIALIZE];
    assert Pending(next) == [];
    assert WordAt(next.nextSlot) == before + barrier + [MATERIALIZE, COMPLETE];
    assert before + barrier + [MATERIALIZE, COMPLETE] == before + (barrier + [MATERIALIZE]) + [COMPLETE];
    assert WordOf(next) == WordAt(next.nextSlot);
  }

  lemma MovesSpell(s: RunState, next: RunState, step: Step)
    requires FreezesInTime(s) && !s.closed
    requires s.openMaterialization.Some? ==> BarriersPassed(s)
    requires Moves(s, next, step) && NextStep(Some(s)) == Some(step)
    ensures WordOf(next) == WordOf(s) + [step]
    ensures next.openMaterialization.Some? ==> BarriersPassed(next)
  {
    if step == COMPLETE {
      CompletionSpells(s, next);
    } else {
      var word := WordAt(s.nextSlot);
      assert next.nextSlot == s.nextSlot;
      assert Pending(next) == Pending(s) + [step];
      assert word + (Pending(s) + [step]) == word + Pending(s) + [step];
    }
  }

  lemma WordGrows(repo: Repo, plan: CallPlan, previous: Option<RunState>, event: RunEvent)
    requires RunShape(plan) && (previous.Some? ==> previous.value.Valid())
    requires previous.Some? && previous.value.openMaterialization.Some? ==> BarriersPassed(previous.value)
    requires ApplyEvent(repo, plan, previous, event).Ok?
    ensures var next := ApplyEvent(repo, plan, previous, event).value;
            && WordOf(next) == (if previous.None? then [] else WordOf(previous.value)) + [StepOf(event)]
            && (next.openMaterialization.Some? ==> BarriersPassed(next))
  {
    if previous.None? {
      assert WordOf(InitialState(plan.fingerprint)) == [OPEN];
    } else {
      var next := ApplyEvent(repo, plan, previous, event).value;
      assert !previous.value.closed;
      OneActionKind(repo, plan, previous, event);
      ApplyMoves(repo, plan, previous.value, event);
      MovesSpell(previous.value, next, StepOf(event));
    }
  }

  /** A call can be open only after the barrier at its slot has been frozen. */
  predicate BarriersPassed(s: RunState) {
    && (s.nextSlot == CANDIDATE_BARRIER ==> s.candidateFreeze.Some?)
    && (s.nextSlot == SELECTION_BARRIER ==> s.jointSelection.Some?)
  }

  /** Every accepted journal spells the word its final state determines. */
  lemma {:induction false} ReplayedWord(repo: Repo, plan: CallPlan, entries: seq<Linked>)
    requires RunShape(plan) && entries != []
    requires ReplayEntries(repo, plan, entries).Ok?
    ensures var r := ReplayEntries(repo, plan, entries).value;
            && StepsOf(r.events) == WordOf(r.state.value)
            && (r.state.value.openMaterialization.Some? ==> BarriersPassed(r.state.value))
            && |r.events| == |entries|
    decreases |entries|
  {
    var shorter := entries[..|entries| - 1];
    var before := ReplayEntries(repo, plan, shorter).value;
    var event := LoadEvent(repo, entries[|entries| - 1].entry.event).value;
    var r := ReplayEntries(repo, plan, entries).value;
    assert r.events == before.events + [event];
    assert StepsOf(r.events) == StepsOf(before.events) + [StepOf(event)];
    if shorter != [] {
      ReplayedWord(repo, plan, shorter);
    }
    WordGrows(repo, plan, before.state, event);
  }

  // ---------------------------------------------------------------- the closed word

  function CallPairs(n: nat): seq<Step> {
    seq(2 * n, i => if i % 2 == 0 then MATERIALIZE else COMPLETE)
  }

  lemma OneMorePair(n: nat)
    ensures CallPairs(n + 1) == CallPairs(n) + [MATERIALIZE, COMPLETE]
  {
  }

  /** OPEN, `a` calls, the candidate barrier, `b` calls, the selection barrier, `c` calls, CLOSE. */
  function ClosedWord(a: nat, b: nat, c: nat): seq<Step> {
    [OPEN] + CallPairs(a) + [FREEZE_CANDIDATES] + CallPairs(b) + [FREEZE_SELECTIONS] + CallPairs(c) + [CLOSE]
  }

  lemma {:induction false} WordBeforeCandidates(n: nat)
    requires n <= CANDIDATE_BARRIER
    ensures WordAt(n) == [OPEN] + CallPairs(n)
  {
    if n > 0 {
      WordBeforeCandidates(n - 1);
      OneMorePair(n - 1);
    }
  }

  lemma {:induction false} WordBeforeSelections(c: nat, n: nat)
    requires c == CANDIDATE_BARRIER && c < n <= SELECTION_BARRIER
    ensures WordAt(n) == [OPEN] + CallPairs(c) + [FREEZE_CANDIDATES] + CallPairs(n - c)
  {
    OneMorePair(n - c - 1);
    if n == c + 1 {
      WordBeforeCandidates(c);
      assert BarrierAt(c) == [FREEZE_CANDIDATES];
    } else {
      WordBeforeSelections(c, n - 1);
      assert BarrierAt(n - 1) == [];
    }
  }

  lemma {:induction false} WordAfterSelections(c: nat, s: nat, n: nat)
    requires c == CANDIDATE_BARRIER && s == SELECTION_BARRIER && s < n
    ensures WordAt(n) + [CLOSE] == ClosedWord(c, s - c, n - s)
  {
    OneMorePair(n - s - 1);
    if n == s + 1 {
      WordBeforeSelections(c, s);
      assert BarrierAt(s) == [FREEZE_SELECTIONS];
    } else {
      WordAfterSelections(c, s, n - 1);
      assert BarrierAt(n - 1) == [];
      var shorter := [OPEN] + CallPairs(c) + [FREEZE_CANDIDATES] + CallPairs(s - c) + [FREEZE_SELECTIONS]
                     + CallPairs(n - 1 - s);
      assert WordAt(n - 1) == shorter by {
        assert WordAt(n - 1) == (WordAt(n - 1) + [CLOSE])[..|WordAt(n - 1)|];
        assert shorter + [CLOSE] == ClosedWord(c, s - c, n - 1 - s);
        assert shorter == (shorter + [CLOSE])[..|shorter|];
        assert |WordAt(n - 1) + [CLOSE]| == |shorter + [CLOSE]|;
      }
    }
  }

  lemma {:induction false} PairCounts(n: nat)
    ensures multiset(CallPairs(n)) == multiset{}[MATERIALIZE := n][COMPLETE := n]
  {
    if n > 0 {
      PairCounts(n - 1);
      OneMorePair(n - 1);
    }
  }

  predicate Multiplicities(word: seq<Step>, calls: nat) {
    var counts := multiset(word);
    && counts[OPEN] == 1 && counts[MATERIALIZE] == calls && counts[COMPLETE] == calls
    && counts[FREEZE_CANDIDATES] == 1 && counts[FREEZE_SELECTIONS] == 1 && counts[CLOSE] == 1
  }

  lemma PairMultiplicities(n: nat)
    ensures |CallPairs(n)| == 2 * n
    ensures multiset(CallPairs(n))[MATERIALIZE] == n && multiset(CallPairs(n))[COMPLETE] == n
    ensures forall step :: step != MATERIALIZE && step != COMPLETE ==> multiset(CallPairs(n))[step] == 0
  {
    PairCounts(n);
  }

  lemma ClosedWordCounts(a: nat, b: nat, c: nat)
    ensures |ClosedWord(a, b, c)| == 2 * (a + b + c) + 4
    ensures Multiplicities(ClosedWord(a, b, c), a + b + c)
  {
    hide CallPairs;
    PairMultiplicities(a);
    PairMultiplicities(b);
    PairMultiplicities(c);
  }

  lemma ClosedStateWord(s: RunState)
    requires s.closed && s.openMaterialization.None? && s.nextSlot == CALLS
    ensures WordOf(s) == WordAt(s.nextSlot) + [CLOSE]
  {
  }

  /**
   Every journal that replays and ends closed has one and the same action word: OPEN, 14 calls,
   the candidate barrier, 26 calls, the selection barrier, 60 calls, CLOSE.
   */
  lemma ClosedRunWord(repo: Repo, plan: CallPlan, tail: Ref)
    requires RunShape(plan)
    requires Replay(repo, plan, tail).Ok?
    requires Replay(repo, plan, tail).value.state.Some? && Replay(repo, plan, tail).value.state.value.closed
    ensures StepsOf(Replay(repo, plan, tail).value.events) == ClosedWord(14, 26, 60)
  {
    hide WordOf, ClosedWord;
    var entries := ReadEntries(repo, tail).value;
    ReplayedWord(repo, plan, entries);
    var s := Replay(repo, plan, tail).value.state.value;
    var c, b: nat := CANDIDATE_BARRIER, SELECTION_BARRIER;
    ClosedStateWord(s);
    WordAfterSelections(c, b, s.nextSlot);
    assert StepsOf(Replay(repo, plan, tail).value.events) == ClosedWord(c, b - c, s.nextSlot - b);
  }

  // ---------------------------------------------------------------- closure verification

  datatype ClosureVerification = ClosureVerification(planFingerprint: int, transitions: nat)

  predicate ClosureMatches(closure: RunClosure, plan: CallPlan, state: RunState, finalState: Ref) {
    && closure.planFingerprint == plan.fingerprint
    && state.closed
    && finalState == closure.finalState
    && state.candidateFreeze == Some(closure.candidateFreeze)
    && state.jointSelection == Some(closure.jointSelection)
    && state.completions == closure.completions
  }

  /** `verify_bfcl_v4_public_run_closure`, with its transition count and action multiplicity checks. */
  function VerifyClosure(repo: Repo, plan: CallPlan, ref: Ref): Result<ClosureVerification, RunError>
    requires |plan.calls| == CALLS
  {
    var closure :- LoadClosure(repo, ref);
    var replayed :- Replay(repo, plan, closure.journalTail);
    var entries :- ReadEntries(repo, closure.journalTail);
    :- Need(|replayed.events| == 204, IntegrityError);
    if entries == [] || replayed.state.None? then Err(IntegrityError)
    else
      :- Need(
        ClosureMatches(closure, plan, replayed.state.value, entries[|entries| - 1].entry.state),
        IntegrityError);
      :- Need(Multiplicities(StepsOf(replayed.events), CALLS), IntegrityError);
      Ok(ClosureVerification(plan.fingerprint, |replayed.events|))
  }

  /** The 204-transition and multiplicity checks are implied: a closure verifies exactly when it matches its replay. */
  lemma ClosureVerifiesExactly(repo: Repo, plan: CallPlan, ref: Ref)
    requires RunShape(plan)
    ensures VerifyClosure(repo, plan, ref).Ok?
       <==> (&& LoadClosure(repo, ref).Ok?
             && var closure := LoadClosure(repo, ref).value;
             && Replay(repo, plan, closure.journalTail).Ok?
             && var replayed := Replay(repo, plan, closure.journalTail).value;
             && var entries := ReadEntries(repo, closure.journalTail).value;
             && entries != []
             && replayed.state.Some?
             && ClosureMatches(closure, plan, replayed.state.value, entries[|entries| - 1].entry.state))
    ensures VerifyClosure(repo, plan, ref).Ok?
        ==> VerifyClosure(repo, plan, ref).value == ClosureVerification(plan.fingerprint, 204)
  {
    hide ReplayEntries, ReadEntries, Multiplicities;
    if LoadClosure(repo, ref).Ok? {
      var tail := LoadClosure(repo, ref).value.journalTail;
      if Replay(repo, plan, tail).Ok? && Replay(repo, plan, tail).value.state.Some? {
        if Replay(repo, plan, tail).value.state.value.closed {
          ClosedRunCounts(repo, plan, tail);
        }
      }
    }
  }

  lemma ClosedRunCounts(repo: Repo, plan: CallPlan, tail: Ref)
    requires RunShape(plan)
    requires Replay(repo, plan, tail).Ok?
    requires Replay(repo, plan, tail).value.state.Some? && Replay(repo, plan, tail).value.state.value.closed
    ensures |Replay(repo, plan, tail).value.events| == 204
    ensures Multiplicities(StepsOf(Replay(repo, plan, tail).value.events), CALLS)
  {
    ClosedRunWord(repo, plan, tail);
    ClosedWordCounts(14, 26, 60);
  }
}
