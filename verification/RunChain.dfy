/** What the walk over linked entries accepts. */
module RunChain {
  import opened Prelude
  import opened PilotContracts
  import opened RunContracts
  import opened RunReplay

  /** A complete chain, stated without reference to the walk that finds it. */
  ghost predicate IsChain(repo: Repo, entries: seq<Linked>, tail: Ref) {
    && entries != []
    && entries[|entries| - 1].ref == tail
    && AllLinksJoin(entries)
    && forall i :: 0 <= i < |entries| ==> LoadEntry(repo, entries[i].ref) == Ok(entries[i].entry)
  }

  // ---------------------------------------------------------------- soundness of the walk

  ghost predicate Linking(repo: Repo, entries: seq<Linked>, cursor: Option<Ref>) {
    && (forall i :: 0 <= i < |entries| ==> LoadEntry(repo, entries[i].ref) == Ok(entries[i].entry))
    && (forall i :: 0 < i < |entries| ==> entries[i].entry.previousEntry == Some(entries[i - 1].ref))
    && (entries != [] ==> entries[0].entry.previousEntry == None)
    && cursor == if entries == [] then None else Some(entries[|entries| - 1].ref)
  }

  /** Every accepted walk ends at a root, whatever the store contains. */
  lemma {:induction false} WalkIsLinking(repo: Repo, cursor: Option<Ref>, seen: set<Digest>)
    requires WalkBack(repo, cursor, seen).Ok?
    ensures Linking(repo, WalkBack(repo, cursor, seen).value, cursor)
    decreases |repo.objects.Keys - seen|
  {
    if cursor.Some? {
      var entry := LoadEntry(repo, cursor.value).value;
      assert repo.objects.Keys - (seen + {cursor.value.sha}) < repo.objects.Keys - seen;
      SmallerSet(repo.objects.Keys - (seen + {cursor.value.sha}), repo.objects.Keys - seen);
      WalkIsLinking(repo, entry.previousEntry, seen + {cursor.value.sha});
    }
  }

  // ---------------------------------------------------------------- completeness of the walk

  /** References in one chain have different digests: equal digests would load the same sequence number. */
  lemma ChainDigestsDistinct(repo: Repo, entries: seq<Linked>, tail: Ref)
    requires IsChain(repo, entries, tail)
    ensures forall i, j :: 0 <= i < j < |entries| ==> entries[i].ref.sha != entries[j].ref.sha
  {
    forall i, j | 0 <= i < j < |entries|
      ensures entries[i].ref.sha != entries[j].ref.sha
    {
      assert LoadEntry(repo, entries[i].ref) == Ok(entries[i].entry);
      assert LoadEntry(repo, entries[j].ref) == Ok(entries[j].entry);
      assert LinksJoin(entries, i) && LinksJoin(entries, j);
    }
  }

  ghost function Digests(entries: seq<Linked>): set<Digest> {
    set i | 0 <= i < |entries| :: entries[i].ref.sha
  }

  /** Started at position `k - 1` of a chain, having seen only what follows, the walk returns the prefix. */
  lemma {:induction false} WalkFindsPrefix(repo: Repo, entries: seq<Linked>, tail: Ref, k: nat, seen: set<Digest>)
    requires IsChain(repo, entries, tail)
    requires k <= |entries|
    requires seen == Digests(entries[k..])
    ensures WalkBack(repo, if k == 0 then None else Some(entries[k - 1].ref), seen) == Ok(entries[..k])
    decreases k
  {
    if k > 0 {
      var here := entries[k - 1];
      ChainDigestsDistinct(repo, entries, tail);
      assert here.ref.sha !in seen;
      assert LoadEntry(repo, here.ref) == Ok(here.entry);
      assert LinksJoin(entries, k - 1);
      assert entries[k - 1..] == [here] + entries[k..];
      assert seen + {here.ref.sha} == Digests(entries[k - 1..]) by {
        forall d | d in Digests(entries[k - 1..])
          ensures d in seen + {here.ref.sha}
        {
          var i :| 0 <= i < |entries[k - 1..]| && entries[k - 1..][i].ref.sha == d;
          if i > 0 {
            assert entries[k..][i - 1].ref.sha == d;
          }
        }
        forall d | d in seen + {here.ref.sha}
          ensures d in Digests(entries[k - 1..])
        {
          if d in seen {
            var i :| 0 <= i < |entries[k..]| && entries[k..][i].ref.sha == d;
            assert entries[k - 1..][i + 1].ref.sha == d;
          } else {
            assert entries[k - 1..][0].ref.sha == d;
          }
        }
      }
      WalkFindsPrefix(repo, entries, tail, k - 1, seen + {here.ref.sha});
      assert entries[..k] == entries[..k - 1] + [here];
    }
  }

  /** `_read_entries` accepts exactly the complete chains, and returns the chain itself. */
  lemma ReadEntriesExact(repo: Repo, tail: Ref, entries: seq<Linked>)
    ensures ReadEntries(repo, tail) == Ok(entries) <==> IsChain(repo, entries, tail)
  {
    if ReadEntries(repo, tail) == Ok(entries) {
      WalkIsLinking(repo, Some(tail), {});
    }
    if IsChain(repo, entries, tail) {
      assert entries[|entries|..] == [];
      assert entries[..|entries|] == entries;
      assert Digests(entries[|entries|..]) == {};
      WalkFindsPrefix(repo, entries, tail, |entries|, {});
      assert LoadEntry(repo, entries[|entries| - 1].ref).Ok?;
    }
  }

  /** A store can hold at most one chain per tail. */
  lemma ChainUnique(repo: Repo, a: seq<Linked>, b: seq<Linked>, tail: Ref)
    requires IsChain(repo, a, tail) && IsChain(repo, b, tail)
    ensures a == b
  {
    ReadEntriesExact(repo, tail, a);
    ReadEntriesExact(repo, tail, b);
  }

  // ---------------------------------------------------------------- the tail commits to the history

  /** Two references with one digest name one artifact when the digest is injective. */
  lemma SameDigestSameContent(repo: Repo, other: Repo, ref: Ref)
    requires repo.codec == other.codec && InjectiveDigest(repo.codec)
    requires repo.Get(ref).Some? && other.Get(ref).Some?
    ensures repo.Get(ref) == other.Get(ref)
  {
  }

  lemma {:induction false} ChainsAgree(repo: Repo, other: Repo, a: seq<Linked>, b: seq<Linked>, tail: Ref)
    requires repo.codec == other.codec && InjectiveDigest(repo.codec)
    requires IsChain(repo, a, tail) && IsChain(other, b, tail)
    ensures a == b
    decreases |a|
  {
    hide IsChain;
    ChainEnd(repo, a, tail);
    ChainEnd(other, b, tail);
    SameEntry(repo, other, tail);
    assert a[|a| - 1] == b[|b| - 1];
    if |a| > 1 {
      var shorterA, shorterB := a[..|a| - 1], b[..|b| - 1];
      ChainsAgree(repo, other, shorterA, shorterB, shorterA[|shorterA| - 1].ref);
      assert a == shorterA + [a[|a| - 1]] && b == shorterB + [b[|b| - 1]];
    }
  }

  lemma SameEntry(repo: Repo, other: Repo, ref: Ref)
    requires repo.codec == other.codec && InjectiveDigest(repo.codec)
    requires LoadEntry(repo, ref).Ok? && LoadEntry(other, ref).Ok?
    ensures LoadEntry(repo, ref) == LoadEntry(other, ref)
  {
    SameDigestSameContent(repo, other, ref);
  }

  /** The last entry of a chain, and the chain before it. */
  lemma ChainEnd(repo: Repo, a: seq<Linked>, tail: Ref)
    requires IsChain(repo, a, tail)
    ensures a != [] && a[|a| - 1].ref == tail && LoadEntry(repo, tail) == Ok(a[|a| - 1].entry)
    ensures a[|a| - 1].entry.sequence == |a| - 1
    ensures |a| > 1 ==>
              && a[|a| - 1].entry.previousEntry == Some(a[|a| - 2].ref)
              && IsChain(repo, a[..|a| - 1], a[|a| - 2].ref)
  {
    hide LoadEntry;
    assert LinksJoin(a, |a| - 1);
    var shorter := a[..|a| - 1];
    forall i | 0 <= i < |shorter|
      ensures LinksJoin(shorter, i)
    {
      assert LinksJoin(a, i);
    }
  }

  lemma {:induction false} ReplaysAgree(repo: Repo, other: Repo, plan: CallPlan, entries: seq<Linked>)
    requires |plan.calls| == CALLS
    requires repo.codec == other.codec && InjectiveDigest(repo.codec)
    requires ReplayEntries(repo, plan, entries).Ok? && ReplayEntries(other, plan, entries).Ok?
    ensures ReplayEntries(repo, plan, entries) == ReplayEntries(other, plan, entries)
    decreases |entries|
  {
    if entries != [] {
      ReplaysAgree(repo, other, plan, entries[..|entries| - 1]);
      var entry := entries[|entries| - 1].entry;
      SameDigestSameContent(repo, other, entry.event);
      SameDigestSameContent(repo, other, entry.state);
    }
  }

  /**
   Equal tail references in any two stores, however different or hostile, denote one
   event history and one final state whenever both are accepted.
   */
  lemma TailCommitsToHistory(repo: Repo, other: Repo, plan: CallPlan, tail: Ref)
    requires |plan.calls| == CALLS
    requires repo.codec == other.codec && InjectiveDigest(repo.codec)
    requires Replay(repo, plan, tail).Ok? && Replay(other, plan, tail).Ok?
    ensures ReadEntries(repo, tail) == ReadEntries(other, tail)
    ensures Replay(repo, plan, tail) == Replay(other, plan, tail)
  {
    var a, b := ReadEntries(repo, tail).value, ReadEntries(other, tail).value;
    ReadEntriesExact(repo, tail, a);
    ReadEntriesExact(other, tail, b);
    ChainsAgree(repo, other, a, b, tail);
    ReplaysAgree(repo, other, plan, a);
  }

  // ---------------------------------------------------------------- adding artifacts

  /** Content that verified before still verifies, and is the same, after artifacts are added. */
  lemma GetMonotone(earlier: Repo, later: Repo, ref: Ref)
    requires Extends(earlier, later) && earlier.Get(ref).Some?
    ensures later.Get(ref) == earlier.Get(ref)
  {
  }

  lemma {:induction false} HarnessesMonotone(earlier: Repo, later: Repo, completions: seq<Ref>)
    requires Extends(earlier, later) && ExecutedHarnesses(earlier, completions).Ok?
    ensures ExecutedHarnesses(later, completions) == ExecutedHarnesses(earlier, completions)
    decreases |completions|
  {
    if completions != [] {
      HarnessesMonotone(earlier, later, completions[1..]);
    }
  }

  lemma ExecutionMonotone(earlier: Repo, later: Repo, state: RunState, slot: CallSlot)
    requires Extends(earlier, later) && ExpectedExecution(earlier, state, slot).Ok?
    ensures ExpectedExecution(later, state, slot) == ExpectedExecution(earlier, state, slot)
  {
  }

  lemma MaterializationMonotone(earlier: Repo, later: Repo, plan: CallPlan, state: RunState, m: CallMaterialization)
    requires |plan.calls| == CALLS
    requires Extends(earlier, later) && VerifyMaterialization(earlier, plan, state, m).Ok?
    ensures VerifyMaterialization(later, plan, state, m).Ok?
  {
    ExecutionMonotone(earlier, later, state, plan.calls[state.nextSlot]);
    GetMonotone(earlier, later, m.request);
    GetMonotone(earlier, later, m.executedHarness);
  }

  lemma CompletionMonotone(earlier: Repo, later: Repo, plan: CallPlan, state: RunState, c: CallCompletion)
    requires |plan.calls| == CALLS && state.Valid()
    requires Extends(earlier, later) && VerifyCompletion(earlier, plan, state, c).Ok?
    ensures VerifyCompletion(later, plan, state, c).Ok?
  {
    hide VerifyGraderBinding;
    var m := LoadMaterialization(earlier, c.materialization).value;
    MaterializationOutlives(earlier, later, c.materialization);
    GraderBindingMonotone(earlier, later, m, c);
  }

  lemma MaterializationOutlives(earlier: Repo, later: Repo, ref: Ref)
    requires Extends(earlier, later) && LoadMaterialization(earlier, ref).Ok?
    ensures LoadMaterialization(later, ref) == LoadMaterialization(earlier, ref)
  {
  }

  lemma GraderBindingMonotone(earlier: Repo, later: Repo, m: CallMaterialization, c: CallCompletion)
    requires Extends(earlier, later) && VerifyGraderBinding(earlier, m, c).Ok?
    ensures VerifyGraderBinding(later, m, c).Ok?
  {
  }

  lemma ArmFreezeMonotone(earlier: Repo, later: Repo, parentFit: seq<Ref>, f: ArmCandidateFreeze)
    requires Extends(earlier, later) && VerifyArmFreeze(earlier, parentFit, f).Ok?
    ensures VerifyArmFreeze(later, parentFit, f).Ok?
  {
    hide ExecutedHarnesses;
    HarnessesMonotone(earlier, later, parentFit);
  }

  lemma FreezeMonotone(earlier: Repo, later: Repo, plan: CallPlan, state: RunState, f: JointCandidateFreeze)
    requires state.Valid()
    requires Extends(earlier, later) && VerifyCandidateFreeze(earlier, plan, state, f).Ok?
    ensures VerifyCandidateFreeze(later, plan, state, f).Ok?
  {
    hide VerifyArmFreeze;
    ArmFreezeMonotone(earlier, later, state.completions[0..5], f.score);
    ArmFreezeMonotone(earlier, later, state.completions[5..10], f.full);
  }

  lemma JointMonotone(earlier: Repo, later: Repo, plan: CallPlan, state: RunState, j: JointSelectionFreeze)
    requires state.Valid()
    requires Extends(earlier, later) && VerifyJointSelection(earlier, plan, state, j).Ok?
    ensures VerifyJointSelection(later, plan, state, j).Ok?
  {
  }

  lemma ApplyMonotone(earlier: Repo, later: Repo, plan: CallPlan, previous: Option<RunState>, event: RunEvent)
    requires |plan.calls| == CALLS && (previous.Some? ==> previous.value.Valid())
    requires Extends(earlier, later) && ApplyEvent(earlier, plan, previous, event).Ok?
    ensures ApplyEvent(later, plan, previous, event) == ApplyEvent(earlier, plan, previous, event)
  {
    hide VerifyMaterialization, VerifyCompletion, VerifyCandidateFreeze, VerifyJointSelection;
    if previous.Some? {
      match event.action
      case MaterializeCall(ref) =>
        MaterializationMonotone(earlier, later, plan, previous.value, LoadMaterialization(earlier, ref).value);
      case CompleteCall(ref) =>
        CompletionMonotone(earlier, later, plan, previous.value, LoadCompletion(earlier, ref).value);
      case FreezeCandidates(ref) =>
        FreezeMonotone(earlier, later, plan, previous.value, LoadFreeze(earlier, ref).value);
      case FreezeSelections(ref) =>
        JointMonotone(earlier, later, plan, previous.value, LoadJoint(earlier, ref).value);
      case _ =>
    }
  }

  lemma {:induction false} ReplayEntriesMonotone(earlier: Repo, later: Repo, plan: CallPlan, entries: seq<Linked>)
    requires |plan.calls| == CALLS
    requires Extends(earlier, later) && ReplayEntries(earlier, plan, entries).Ok?
    ensures ReplayEntries(later, plan, entries) == ReplayEntries(earlier, plan, entries)
    decreases |entries|
  {
    if entries != [] {
      var before := ReplayEntries(earlier, plan, entries[..|entries| - 1]).value;
      ReplayEntriesMonotone(earlier, later, plan, entries[..|entries| - 1]);
      var event := LoadEvent(earlier, entries[|entries| - 1].entry.event).value;
      ApplyMonotone(earlier, later, plan, before.state, event);
    }
  }

  lemma ChainMonotone(earlier: Repo, later: Repo, entries: seq<Linked>, tail: Ref)
    requires Extends(earlier, later) && IsChain(earlier, entries, tail)
    ensures IsChain(later, entries, tail)
  {
    forall i | 0 <= i < |entries|
      ensures LoadEntry(later, entries[i].ref) == Ok(entries[i].entry)
    {
      assert LoadEntry(earlier, entries[i].ref) == Ok(entries[i].entry);
    }
  }

  /** Adding artifacts to the store never changes an accepted replay. */
  lemma ReplayMonotone(earlier: Repo, later: Repo, plan: CallPlan, tail: Ref)
    requires |plan.calls| == CALLS
    requires Extends(earlier, later) && Replay(earlier, plan, tail).Ok?
    ensures Replay(later, plan, tail) == Replay(earlier, plan, tail)
  {
    var entries := ReadEntries(earlier, tail).value;
    ReadEntriesExact(earlier, tail, entries);
    ChainMonotone(earlier, later, entries, tail);
    ReadEntriesExact(later, tail, entries);
    ReplayEntriesMonotone(earlier, later, plan, entries);
  }
}
