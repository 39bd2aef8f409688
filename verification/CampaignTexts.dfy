/** The texts of the campaign's node IDs: no two nodes of a built plan share one. */
module CampaignTexts {
  import opened Prelude
  import opened Texts
  import opened CampaignContracts
  import opened CampaignPlan
  import opened CampaignFlow

  /** What tasks and replicates are called. */
  datatype Naming = Naming(task: int -> string, replicate: int -> string) {
    ghost predicate Differ() {
      NamesDiffer(task) && NamesDiffer(replicate)
    }
  }

  function ArmText(arm: Arm): string {
    match arm
    case Pure => "pure"
    case Static => "static"
    case Score => "score"
    case Full => "full"
    case PureAtB => "pure-at-b"
  }

  function KindText(kind: Kind): string {
    match kind
    case ParentFit => "parent-fit"
    case Diagnosis => "diagnosis"
    case Proposal => "proposal"
    case CandidateFit => "candidate-fit"
    case Nomination => "nomination"
    case Gate => "gate"
    case GateDecision => "gate-decision"
    case Holdout => "holdout"
    case PureAtBSample => "pure-at-b-sample"
  }

  function VariantText(v: GateVariant): string {
    match v
    case ParentVariant => "parent"
    case NominatedCandidate => "nominated-candidate"
    case Revert => "revert"
    case NegativeControl => "negative-control"
  }

  function VariantPart(v: Option<GateVariant>): string {
    "v" + if v.Some? then VariantText(v.value) else "-"
  }

  function NodeParts(names: Naming, id: NodeId): seq<string> {
    [NameOr(names.replicate, Some(id.replicate)), ArmText(id.arm), KindText(id.kind), NameOr(names.task, id.task),
     Marked('r', id.rollout), Marked('s', id.sample), Marked('p', id.pipeline), Marked('c', id.candidate),
     VariantPart(id.variant)]
  }

  /** `bfcl_v4_public_development_v2_node_id`. */
  function NodeText(names: Naming, id: NodeId): string {
    Join(NodeParts(names, id))
  }

  // ---------------------------------------------------------------- every part can be read back

  lemma ArmTextInjective(a: Arm, b: Arm)
    ensures ArmText(a) == ArmText(b) ==> a == b
    ensures SlashFree(ArmText(a))
  {
    assert ArmText(a) == ArmText(b) ==> |ArmText(a)| == |ArmText(b)| && ArmText(a)[0] == ArmText(b)[0];
  }

  lemma KindTextInjective(a: Kind, b: Kind)
    ensures KindText(a) == KindText(b) ==> a == b
  {
    assert KindText(a) == KindText(b) ==> |KindText(a)| == |KindText(b)| && KindText(a)[0] == KindText(b)[0];
  }

  lemma KindTextSlashFree(a: Kind)
    ensures SlashFree(KindText(a))
  {
  }

  lemma VariantTextInjective(a: GateVariant, b: GateVariant)
    ensures VariantText(a) == VariantText(b) ==> a == b
    ensures SlashFree(VariantText(a)) && |VariantText(a)| > 1
  {
    assert VariantText(a) == VariantText(b) ==>
        |VariantText(a)| == |VariantText(b)| && VariantText(a)[0] == VariantText(b)[0];
  }

  lemma VariantPartInjective(a: Option<GateVariant>, b: Option<GateVariant>)
    ensures VariantPart(a) == VariantPart(b) ==> a == b
    ensures SlashFree(VariantPart(a))
  {
    hide VariantText;
    var s, t := if a.Some? then VariantText(a.value) else "-", if b.Some? then VariantText(b.value) else "-";
    if a.Some? {
      VariantTextInjective(a.value, if b.Some? then b.value else a.value);
    }
    if b.Some? {
      VariantTextInjective(b.value, b.value);
    }
    if VariantPart(a) == VariantPart(b) {
      Cancel("v", s, t, "");
    }
  }

  lemma MarkedSlashFree(mark: char, n: Option<nat>)
    requires mark != '/'
    ensures SlashFree(Marked(mark, n))
  {
  }

  lemma PartsSlashFree(names: Naming, id: NodeId)
    requires names.Differ()
    ensures AllSlashFree(NodeParts(names, id))
  {
    hide ArmText, KindText, VariantPart, NameOr, SlashFree, NamesDiffer, Marked;
    NameOrInjective(names.replicate, Some(id.replicate), None);
    ArmTextInjective(id.arm, id.arm);
    KindTextSlashFree(id.kind);
    NameOrInjective(names.task, id.task, id.task);
    MarkedSlashFree('r', id.rollout);
    MarkedSlashFree('s', id.sample);
    MarkedSlashFree('p', id.pipeline);
    MarkedSlashFree('c', id.candidate);
    VariantPartInjective(id.variant, id.variant);
  }

  /** A part that marks a number: the mark, and the number or a dash. */
  predicate MarksNumber(part: string, mark: char, n: Option<nat>) {
    part != "" && part[0] == mark && (n.Some? ==> ReadDecimal(part[1..]) == n) && (n.None? ==> part[1..] == "-")
  }

  lemma MarkedReads(mark: char, n: Option<nat>)
    ensures MarksNumber(Marked(mark, n), mark, n)
  {
    if n.Some? {
      DecimalReads(n.value);
    }
  }

  /** Between its slashes a node's text has replicate, arm, kind, task, the four marked numbers and the variant, in this order. */
  lemma NodeTextReads(names: Naming, id: NodeId)
    requires names.Differ()
    ensures var parts := Split(NodeText(names, id));
            && |parts| == 9 && parts[0] == names.replicate(id.replicate)
            && parts[1] == ArmText(id.arm) && parts[2] == KindText(id.kind)
            && (id.task.Some? ==> parts[3] == names.task(id.task.value)) && (id.task.None? ==> parts[3] == "aggregate")
            && MarksNumber(parts[4], 'r', id.rollout) && MarksNumber(parts[5], 's', id.sample)
            && MarksNumber(parts[6], 'p', id.pipeline) && MarksNumber(parts[7], 'c', id.candidate)
            && (id.variant.Some? ==> parts[8] == "v" + VariantText(id.variant.value))
            && (id.variant.None? ==> parts[8] == "v-")
  {
    hide ArmText, KindText, VariantText, SlashFree, NamesDiffer, Split, Marked, MarksNumber;
    PartsSlashFree(names, id);
    SplitJoin(NodeParts(names, id));
    MarkedReads('r', id.rollout);
    MarkedReads('s', id.sample);
    MarkedReads('p', id.pipeline);
    MarkedReads('c', id.candidate);
  }

  /** The coordinates of a node can be read back from its text. */
  lemma NodeTextInjective(names: Naming, a: NodeId, b: NodeId)
    requires names.Differ() && NodeText(names, a) == NodeText(names, b)
    ensures a == b
  {
    hide ArmText, KindText, VariantPart, NameOr, SlashFree, NamesDiffer, Marked;
    PartsSlashFree(names, a);
    PartsSlashFree(names, b);
    var s, t := NodeParts(names, a), NodeParts(names, b);
    JoinInjective(s, t);
    assert forall i :: 0 <= i < 9 ==> s[i] == t[i];
    assert s[0] == t[0] && s[1] == t[1] && s[2] == t[2] && s[3] == t[3] && s[4] == t[4];
    assert s[5] == t[5] && s[6] == t[6] && s[7] == t[7] && s[8] == t[8];
    NameOrInjective(names.replicate, Some(a.replicate), Some(b.replicate));
    ArmTextInjective(a.arm, b.arm);
    KindTextInjective(a.kind, b.kind);
    NameOrInjective(names.task, a.task, b.task);
    MarkedInjective('r', a.rollout, b.rollout);
    MarkedInjective('s', a.sample, b.sample);
    MarkedInjective('p', a.pipeline, b.pipeline);
    MarkedInjective('c', a.candidate, b.candidate);
    VariantPartInjective(a.variant, b.variant);
  }

  /** The node texts of a plan are unique, for any sizes and names. */
  lemma NodeTextsUnique(c: Campaign, names: Naming, i: nat, j: nat)
    requires c.Distinct() && names.Differ() && i < j < |Drafts(c)|
    ensures NodeText(names, Drafts(c)[i].id) != NodeText(names, Drafts(c)[j].id)
  {
    hide NodeText, NamesDiffer, Drafts;
    IdentitiesUnique(c);
    assert Ids(Drafts(c))[i] != Ids(Drafts(c))[j];
    if NodeText(names, Drafts(c)[i].id) == NodeText(names, Drafts(c)[j].id) {
      NodeTextInjective(names, Drafts(c)[i].id, Drafts(c)[j].id);
    }
  }
}
