/**
 The specified call DAG of a campaign. A site is a coordinate of one stage's loop nest; the plan
 lists the sites stage after stage and gives each site its identity, dependencies and evidence.
 */
module CampaignPlan {
  import opened Prelude
  import opened RowMajor
  import opened CampaignContracts

  /** Where a draft is emitted: its kind and the counters of the loops around it. */
  datatype Site = Site(kind: Kind, at: Coord)

  function Dims(c: Campaign, kind: Kind): seq<nat> {
    var r := |c.replicates|;
    match kind
    case ParentFit => [r, |c.fit|, c.fitRollouts, |ADAPTIVE_ARMS|]
    case Diagnosis => [r, c.pipelines, |ADAPTIVE_ARMS|]
    case Proposal => [r, c.pipelines, |ADAPTIVE_ARMS|]
    case CandidateFit => [r, c.pipelines, |c.fit|, c.fitRollouts, |ADAPTIVE_ARMS|]
    case Nomination => [r, |ADAPTIVE_ARMS|]
    case Gate => [r, |c.gate|, c.gateRollouts, |GATE_VARIANTS|, |ADAPTIVE_ARMS|]
    case GateDecision => [r, |ADAPTIVE_ARMS|]
    case Holdout => [r, |c.holdout|, |HOLDOUT_ARMS|]
    case PureAtBSample => [r, |c.holdout|]
  }

  predicate Valid(c: Campaign, site: Site) {
    var at, dims := site.at, Dims(c, site.kind);
    if site.kind == PureAtBSample then
      |at| == 3 && at[0] < dims[0] && at[1] < dims[1] && at[2] < SampleCount(c, c.holdout[at[1]])
    else Within(at, dims)
  }

  function ArmAt(c: Campaign, site: Site): Arm
    requires Valid(c, site)
  {
    match site.kind
    case PureAtBSample => PureAtB
    case Holdout => HOLDOUT_ARMS[site.at[2]]
    case _ =>
      var dims := Dims(c, site.kind);
      assert site.at[|dims| - 1] < dims[|dims| - 1];
      ADAPTIVE_ARMS[site.at[|dims| - 1]]
  }

  function IdAt(c: Campaign, site: Site): NodeId
    requires Valid(c, site)
  {
    var at := site.at;
    assert at[0] < Dims(c, site.kind)[0];
    var r, a := c.replicates[at[0]].id, ArmAt(c, site);
    match site.kind
    case ParentFit => NodeId(r, a, ParentFit, Some(c.fit[at[1]]), Some(at[2]), None, None, None, None)
    case Diagnosis => NodeId(r, a, Diagnosis, None, None, None, Some(at[1]), None, None)
    case Proposal => NodeId(r, a, Proposal, None, None, None, Some(at[1]), Some(at[1]), None)
    case CandidateFit =>
      NodeId(r, a, CandidateFit, Some(c.fit[at[2]]), Some(at[3]), None, Some(at[1]), Some(at[1]), None)
    case Nomination => NodeId(r, a, Nomination, None, None, None, None, None, None)
    case Gate => NodeId(r, a, Gate, Some(c.gate[at[1]]), Some(at[2]), None, None, None, Some(GATE_VARIANTS[at[3]]))
    case GateDecision => NodeId(r, a, GateDecision, None, None, None, None, None, None)
    case Holdout => NodeId(r, a, Holdout, Some(c.holdout[at[1]]), Some(0), None, None, None, None)
    case PureAtBSample => NodeId(r, a, PureAtBSample, Some(c.holdout[at[1]]), None, Some(at[2]), None, None, None)
  }

  /** The identities of one stage in emission order. */
  function StageIds(c: Campaign, kind: Kind): (ids: seq<NodeId>)
    requires kind != PureAtBSample
    ensures forall id :: id in ids ==> id.kind == kind
  {
    var coords := Product(Dims(c, kind));
    seq(|coords|, i requires 0 <= i < |coords| =>
      assert coords[i] in coords; ProductMembers(Dims(c, kind), coords[i]); IdAt(c, Site(kind, coords[i])))
  }

  /** Which earlier nodes of a stage a draft may see: its own replicate and arm, perhaps one pipeline. */
  datatype Selector = Selector(replicate: int, arm: Arm, pipeline: Option<nat>)

  predicate Selects(s: Selector, id: NodeId) {
    id.replicate == s.replicate && id.arm == s.arm && (s.pipeline.Some? ==> id.pipeline == s.pipeline)
  }

  function Own(ids: seq<NodeId>, s: Selector): (own: seq<NodeId>)
    ensures forall id :: id in own <==> id in ids && Selects(s, id)
  {
    if ids == [] then []
    else
      var last := ids[|ids| - 1];
      assert forall id :: id in ids <==> id in ids[..|ids| - 1] || id == last;
      Own(ids[..|ids| - 1], s) + if Selects(s, last) then [last] else []
  }

  /** `tuple(dict.fromkeys(values))`: first occurrences in order. */
  function Unique(ids: seq<NodeId>): (unique: seq<NodeId>)
    ensures forall id :: id in unique <==> id in ids
    ensures NoDuplicates(unique)
  {
    if ids == [] then []
    else
      var last, shorter := ids[|ids| - 1], Unique(ids[..|ids| - 1]);
      assert forall id :: id in ids <==> id in ids[..|ids| - 1] || id == last;
      if last in shorter then shorter else shorter + [last]
  }

  lemma StageIdsMember(c: Campaign, site: Site)
    requires Valid(c, site) && site.kind != PureAtBSample
    ensures IdAt(c, site) in StageIds(c, site.kind)
  {
    var coords := Product(Dims(c, site.kind));
    ProductMembers(Dims(c, site.kind), site.at);
    var i: nat :| i < |coords| && coords[i] == site.at;
    assert StageIds(c, site.kind)[i] == IdAt(c, site);
  }

  /** The first node of the stage `kind` that `s` selects; there is one whenever `site` is such a node. */
  function Next(c: Campaign, kind: Kind, s: Selector, ghost site: Site): (id: NodeId)
    requires kind != PureAtBSample && site.kind == kind && Valid(c, site) && Selects(s, IdAt(c, site))
    ensures id in StageIds(c, kind) && Selects(s, id)
  {
    StageIdsMember(c, site);
    var own := Own(StageIds(c, kind), s);
    assert IdAt(c, site) in own;
    own[0]
  }

  function OwnDiagnosis(c: Campaign, site: Site): NodeId
    requires site.kind == Proposal && Valid(c, site)
  {
    var id := IdAt(c, site);
    Next(c, Diagnosis, Selector(id.replicate, id.arm, id.pipeline), Site(Diagnosis, site.at))
  }

  function OwnProposal(c: Campaign, site: Site): NodeId
    requires site.kind == CandidateFit && Valid(c, site)
  {
    var id := IdAt(c, site);
    Next(
      c, Proposal, Selector(id.replicate, id.arm, id.pipeline), Site(Proposal, [site.at[0], site.at[1], site.at[4]]))
  }

  function OwnNomination(c: Campaign, site: Site): NodeId
    requires (site.kind == Gate || site.kind == GateDecision) && Valid(c, site)
  {
    var id := IdAt(c, site);
    Next(
      c, Nomination, Selector(id.replicate, id.arm, None),
      Site(Nomination, [site.at[0], site.at[|site.at| - 1]]))
  }

  function DependsOn(c: Campaign, site: Site): seq<NodeId>
    requires Valid(c, site)
  {
    var id := IdAt(c, site);
    var own := Selector(id.replicate, id.arm, None);
    match site.kind
    case ParentFit => []
    case Diagnosis => StageIds(c, ParentFit)
    case Proposal => StageIds(c, Diagnosis)
    case CandidateFit => StageIds(c, Proposal)
    case Nomination =>
      Unique(StageIds(c, CandidateFit) + Own(StageIds(c, ParentFit), own) + Own(StageIds(c, Proposal), own))
    case Gate => StageIds(c, Nomination)
    case GateDecision => StageIds(c, Gate) + [OwnNomination(c, site)]
    case Holdout => StageIds(c, GateDecision)
    case PureAtBSample => StageIds(c, GateDecision)
  }

  function Evidence(c: Campaign, site: Site): seq<NodeId>
    requires Valid(c, site)
  {
    var id := IdAt(c, site);
    var own := Selector(id.replicate, id.arm, None);
    match site.kind
    case ParentFit => []
    case Diagnosis => Own(StageIds(c, ParentFit), own)
    case Proposal => [OwnDiagnosis(c, site)]
    case CandidateFit => [OwnProposal(c, site)]
    case Nomination =>
      Own(StageIds(c, ParentFit), own) + Own(StageIds(c, Proposal), own) + Own(StageIds(c, CandidateFit), own)
    case Gate => [OwnNomination(c, site)]
    case GateDecision => [OwnNomination(c, site)] + Own(StageIds(c, Gate), own)
    case Holdout => Own(StageIds(c, GateDecision), own)
    case PureAtBSample => []
  }

  function SeedAt(c: Campaign, site: Site): Option<SeedCoordinate>
    requires Valid(c, site)
  {
    var at := site.at;
    match site.kind
    case ParentFit => Some(FitEvaluation(c.fit[at[1]], at[2]))
    case Diagnosis => Some(DiagnosisController(at[1]))
    case Proposal => Some(ProposalController(at[1]))
    case CandidateFit => Some(FitEvaluation(c.fit[at[2]], at[3]))
    case Nomination => None
    case Gate => Some(GateEvaluation(c.gate[at[1]], at[2]))
    case GateDecision => None
    case Holdout => Some(HoldoutEvaluation(c.holdout[at[1]]))
    case PureAtBSample => Some(PureAtBEvaluation(c.holdout[at[1]], at[2]))
  }

  function HarnessAt(c: Campaign, site: Site): Harness
    requires Valid(c, site)
  {
    match site.kind
    case ParentFit => ParentHarness
    case Diagnosis => DiagnosisPipeline(site.at[1])
    case Proposal => TypedProposal(site.at[1])
    case CandidateFit => CandidateOrParent(site.at[1])
    case Nomination => NominationRule
    case Gate => GateHarness(GATE_VARIANTS[site.at[3]])
    case GateDecision => PromotionRule
    case Holdout =>
      var arm := ArmAt(c, site);
      if arm == Pure then Bare else if arm == Static then StaticFrozen else SelectedOrParent
    case PureAtBSample => BareSample(site.at[2])
  }

  function DraftAt(c: Campaign, site: Site): Draft
    requires Valid(c, site)
  {
    var id := IdAt(c, site);
    assert site.at[0] < Dims(c, site.kind)[0];
    var controller := site.kind == Diagnosis || site.kind == Proposal;
    Draft(
      id, c.replicates[site.at[0]].outerSeed, StageOf(site.kind), HarnessAt(c, site),
      if controller then FeedbackOf(id.arm) else NoFeedback,
      SeedAt(c, site), DependsOn(c, site), Evidence(c, site),
      controller, site.kind == Proposal || site.kind == CandidateFit)
  }

  // ---------------------------------------------------------------- the whole plan as a value

  function Tag(kind: Kind, coords: seq<Coord>): (sites: seq<Site>)
    ensures |sites| == |coords| && forall i :: 0 <= i < |sites| ==> sites[i] == Site(kind, coords[i])
  {
    seq(|coords|, i requires 0 <= i < |coords| => Site(kind, coords[i]))
  }

  function SampleRow(r: nat, t: nat, n: nat): (sites: seq<Site>)
    ensures |sites| == n && forall i :: 0 <= i < n ==> sites[i] == Site(PureAtBSample, [r, t, i])
  {
    seq(n, i requires 0 <= i => Site(PureAtBSample, [r, t, i]))
  }

  /** PURE@B sites of one replicate, task after task. */
  function SampleSites(c: Campaign, r: nat, t: nat): seq<Site>
    requires t <= |c.holdout|
  {
    if t == 0 then []
    else SampleSites(c, r, t - 1) + SampleRow(r, t - 1, SampleCount(c, c.holdout[t - 1]))
  }

  function HoldoutSites(c: Campaign, r: nat): seq<Site> {
    Tag(Holdout, Prepend(r, Product([|c.holdout|, |HOLDOUT_ARMS|])))
  }

  /** The last stage goes replicate by replicate: HOLDOUT first, then PURE@B. */
  function EvaluationSites(c: Campaign, r: nat): seq<Site>
    requires r <= |c.replicates|
  {
    if r == 0 then []
    else EvaluationSites(c, r - 1) + HoldoutSites(c, r - 1) + SampleSites(c, r - 1, |c.holdout|)
  }

  function StageSites(c: Campaign, kind: Kind): seq<Site>
    requires kind != PureAtBSample
  {
    Tag(kind, Product(Dims(c, kind)))
  }

  function Sites(c: Campaign): seq<Site> {
    StageSites(c, ParentFit) + StageSites(c, Diagnosis) + StageSites(c, Proposal) + StageSites(c, CandidateFit)
    + StageSites(c, Nomination) + StageSites(c, Gate) + StageSites(c, GateDecision)
    + EvaluationSites(c, |c.replicates|)
  }

  ghost predicate AllValid(c: Campaign, sites: seq<Site>) {
    forall s :: s in sites ==> Valid(c, s)
  }

  function DraftsOf(c: Campaign, sites: seq<Site>): (drafts: seq<Draft>)
    requires AllValid(c, sites)
    ensures |drafts| == |sites|
    ensures forall i :: 0 <= i < |sites| ==> Valid(c, sites[i]) && drafts[i] == DraftAt(c, sites[i])
  {
    assert forall i :: 0 <= i < |sites| ==> sites[i] in sites;
    seq(|sites|, i requires 0 <= i < |sites| => DraftAt(c, sites[i]))
  }

  function Ids(drafts: seq<Draft>): (ids: seq<NodeId>)
    ensures |ids| == |drafts| && forall i :: 0 <= i < |ids| ==> ids[i] == drafts[i].id
  {
    seq(|drafts|, i requires 0 <= i < |drafts| => drafts[i].id)
  }
}
