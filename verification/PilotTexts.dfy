/** The texts of the pilot's call IDs: no two calls of a built plan share one. */
module PilotTexts {
  import opened Prelude
  import opened Texts
  import opened PilotContracts
  import opened PilotPlan
  import opened PilotOrder
  import opened PilotClose

  /** What each task is called. */
  type Naming = TaskId -> string

  function ArmText(arm: Arm): string {
    match arm
    case PURE => "pure"
    case STATIC => "static"
    case SCORE => "score"
    case FULL => "full"
    case PURE_AT_B => "pure-at-b"
  }

  function KindText(kind: CallKind): string {
    match kind
    case BASELINE => "baseline"
    case PARENT_FIT => "parent-fit"
    case DIAGNOSIS => "diagnosis"
    case PROPOSAL => "proposal"
    case CANDIDATE_FIT => "candidate-fit"
    case GATE => "gate"
    case HOLDOUT => "holdout"
    case PURE_AT_B_SAMPLE => "pure-at-b-sample"
  }

  const SAMPLE: string := "bare-sample-"

  function VariantText(v: Variant): string
    requires !v.OtherVariant?
  {
    match v
    case Bare => "bare"
    case StaticFrozen => "static-frozen"
    case Parent => "parent"
    case Candidate => "candidate"
    case Revert => "revert"
    case Placebo => "placebo"
    case DiagnosticController => "diagnostic-controller"
    case ProposalController => "proposal-controller"
    case SelectedOrFallback => "selected-or-parent-fallback"
    case BareSample(index) => SAMPLE + Decimal(index)
  }

  function CallParts(name: Naming, id: CallId): seq<string>
    requires !id.variant.OtherVariant?
  {
    [ArmText(id.arm), Padded(id.armSlot), KindText(id.kind), NameOr(name, id.task), VariantText(id.variant)]
  }

  /** `_call_id`. */
  function CallText(name: Naming, id: CallId): string
    requires !id.variant.OtherVariant?
  {
    Join(CallParts(name, id))
  }

  // ---------------------------------------------------------------- every part can be read back

  lemma ArmTextInjective(a: Arm, b: Arm)
    ensures ArmText(a) == ArmText(b) ==> a == b
    ensures SlashFree(ArmText(a))
  {
    assert ArmText(a) == ArmText(b) ==> |ArmText(a)| == |ArmText(b)| && ArmText(a)[0] == ArmText(b)[0];
  }

  lemma KindTextInjective(a: CallKind, b: CallKind)
    ensures KindText(a) == KindText(b) ==> a == b
  {
    assert KindText(a) == KindText(b) ==> |KindText(a)| == |KindText(b)| && KindText(a)[0] == KindText(b)[0];
  }

  lemma KindTextSlashFree(a: CallKind)
    ensures SlashFree(KindText(a))
  {
  }

  lemma VariantTextInjective(a: Variant, b: Variant)
    requires !a.OtherVariant? && !b.OtherVariant? && VariantText(a) == VariantText(b)
    ensures a == b
  {
    var s, t := VariantText(a), VariantText(b);
    assert |s| == |t| && s[0] == t[0];
    if a.BareSample? && b.BareSample? {
      Cancel(SAMPLE, Decimal(a.index), Decimal(b.index), "");
      DecimalInjective(a.index, b.index);
    }
  }

  lemma VariantTextSlashFree(a: Variant)
    requires !a.OtherVariant?
    ensures SlashFree(VariantText(a))
  {
    hide VariantText;
    match a
    case DiagnosticController => ControllerTextSlashFree();
    case ProposalController => ControllerTextSlashFree();
    case SelectedOrFallback => FallbackTextSlashFree();
    case BareSample(index) => SampleTextSlashFree(index);
    case _ => ShortTextSlashFree(a);
  }

  lemma ControllerTextSlashFree()
    ensures SlashFree(VariantText(DiagnosticController)) && SlashFree(VariantText(ProposalController))
  {
  }

  lemma FallbackTextSlashFree()
    ensures SlashFree(VariantText(SelectedOrFallback))
  {
  }

  lemma SampleTextSlashFree(index: nat)
    ensures SlashFree(VariantText(BareSample(index)))
  {
    DecimalSlashFree(index);
  }

  lemma ShortTextSlashFree(a: Variant)
    requires a in {Bare, StaticFrozen, Parent, Candidate, Revert, Placebo}
    ensures SlashFree(VariantText(a))
  {
  }

  lemma DecimalSlashFree(n: nat)
    ensures SlashFree(Decimal(n)) && SlashFree(Padded(n))
  {
  }

  lemma PartsSlashFree(name: Naming, id: CallId)
    requires NamesDiffer(name) && !id.variant.OtherVariant?
    ensures AllSlashFree(CallParts(name, id))
  {
    hide ArmText, KindText, VariantText, NameOr, SlashFree;
    ArmTextInjective(id.arm, id.arm);
    KindTextSlashFree(id.kind);
    VariantTextSlashFree(id.variant);
    NameOrInjective(name, id.task, id.task);
    DecimalSlashFree(id.armSlot);
  }

  /** Between its slashes a call's text has arm, two-digit slot, kind, task and variant, in this order. */
  lemma CallTextReads(name: Naming, id: CallId)
    requires NamesDiffer(name) && !id.variant.OtherVariant?
    ensures var parts := Split(CallText(name, id));
            && |parts| == 5 && parts[0] == ArmText(id.arm) && parts[2] == KindText(id.kind)
            && |parts[1]| >= 2 && ReadDecimal(parts[1]) == Some(id.armSlot)
            && (id.task.Some? ==> parts[3] == name(id.task.value)) && (id.task.None? ==> parts[3] == "aggregate")
            && (id.variant.BareSample? ==>
                  |parts[4]| > 12 && parts[4][..12] == "bare-sample-"
                  && ReadDecimal(parts[4][12..]) == Some(id.variant.index))
            && (!id.variant.BareSample? ==> parts[4] == VariantText(id.variant))
  {
    hide ArmText, KindText, SlashFree, NamesDiffer, Split, ReadDecimal, Padded;
    PartsSlashFree(name, id);
    SplitJoin(CallParts(name, id));
    PaddedReads(id.armSlot);
    if id.variant.BareSample? {
      DecimalReads(id.variant.index);
      assert VariantText(id.variant)[..12] == SAMPLE && VariantText(id.variant)[12..] == Decimal(id.variant.index);
    }
  }

  /** The coordinates of a call can be read back from its text. */
  lemma CallTextInjective(name: Naming, a: CallId, b: CallId)
    requires NamesDiffer(name) && !a.variant.OtherVariant? && !b.variant.OtherVariant?
    requires CallText(name, a) == CallText(name, b)
    ensures a == b
  {
    hide ArmText, KindText, VariantText, NameOr, Padded, SlashFree, NamesDiffer;
    PartsSlashFree(name, a);
    PartsSlashFree(name, b);
    var s, t := CallParts(name, a), CallParts(name, b);
    JoinInjective(s, t);
    assert s[0] == t[0] && s[1] == t[1] && s[2] == t[2] && s[3] == t[3] && s[4] == t[4];
    ArmTextInjective(a.arm, b.arm);
    PaddedInjective(a.armSlot, b.armSlot);
    KindTextInjective(a.kind, b.kind);
    NameOrInjective(name, a.task, b.task);
    VariantTextInjective(a.variant, b.variant);
  }

  /** The texts of a built plan's calls differ, for any roster, seeds and names. */
  lemma CallTextsDiffer(r: Roster, seed: SeedFunction, name: Naming, i: nat, j: nat)
    requires NamesDiffer(name) && i < j < Total(r)
    ensures |Plan(r, seed)| == Total(r)
    ensures !Plan(r, seed)[i].callId.variant.OtherVariant? && !Plan(r, seed)[j].callId.variant.OtherVariant?
    ensures CallText(name, Plan(r, seed)[i].callId) != CallText(name, Plan(r, seed)[j].callId)
  {
    hide Plan, Total, Built, CallText, NamesDiffer, CellAt, Position, FlagsOf;
    ScheduledVariant(r, seed, i);
    ScheduledVariant(r, seed, j);
    CallIdsDiffer(r, seed, i, j);
    if CallText(name, Plan(r, seed)[i].callId) == CallText(name, Plan(r, seed)[j].callId) {
      CallTextInjective(name, Plan(r, seed)[i].callId, Plan(r, seed)[j].callId);
    }
  }

  lemma ScheduledVariant(r: Roster, seed: SeedFunction, i: nat)
    requires i < Total(r)
    ensures |Plan(r, seed)| == Total(r) && !Plan(r, seed)[i].callId.variant.OtherVariant?
  {
    hide Plan, Total, Built, CellAt, Position, FlagsOf;
    PlanAt(r, seed, i);
    var (arm, s) := CellAt(r, i);
    BuiltShape(r, seed, arm, s);
  }
}
