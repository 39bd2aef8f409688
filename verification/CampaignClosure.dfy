/** The whole campaign validator at the registered sizes: stage, replicate and arm counts, and one topology. */
module CampaignClosure {
  import opened Prelude
  import opened RowMajor
  import opened CampaignContracts
  import opened CampaignPlan
  import opened CampaignFlow
  import opened CampaignSlots
  import opened CampaignCounts
  import opened CampaignClose
  import opened CampaignTopology

  // ---------------------------------------------------------------- nodes and calls of a stage

  /** How many drafts, or how many calls among them, stand in one stage. */
  function InStage(drafts: seq<Draft>, stage: nat, callsOnly: bool): nat {
    if drafts == [] then 0
    else
      var last := drafts[|drafts| - 1];
      InStage(drafts[..|drafts| - 1], stage, callsOnly)
      + if last.stage == stage && (callsOnly ==> last.seed.Some?) then 1 else 0
  }

  lemma {:induction false} InStageJoin(a: seq<Draft>, b: seq<Draft>, stage: nat, callsOnly: bool)
    ensures InStage(a + b, stage, callsOnly) == InStage(a, stage, callsOnly) + InStage(b, stage, callsOnly)
    decreases |b|
  {
    if b == [] {
      assert a + b == a;
    } else {
      assert (a + b)[..|a + b| - 1] == a + b[..|b| - 1];
      InStageJoin(a, b[..|b| - 1], stage, callsOnly);
    }
  }

  lemma {:induction false} InOneStage(drafts: seq<Draft>, own: nat, call: bool, stage: nat, callsOnly: bool)
    requires forall i :: 0 <= i < |drafts| ==> drafts[i].stage == own && drafts[i].seed.Some? == call
    ensures InStage(drafts, stage, callsOnly) == if stage == own && (callsOnly ==> call) then |drafts| else 0
    decreases |drafts|
  {
    if drafts != [] {
      InOneStage(drafts[..|drafts| - 1], own, call, stage, callsOnly);
    }
  }

  function SitesInStage(c: Campaign, sites: seq<Site>, stage: nat, callsOnly: bool): nat
    requires AllValid(c, sites)
  {
    InStage(DraftsOf(c, sites), stage, callsOnly)
  }

  lemma SitesInStageJoin(c: Campaign, a: seq<Site>, b: seq<Site>, stage: nat, callsOnly: bool)
    requires AllValid(c, a) && AllValid(c, b)
    ensures AllValid(c, a + b)
    ensures SitesInStage(c, a + b, stage, callsOnly)
         == SitesInStage(c, a, stage, callsOnly) + SitesInStage(c, b, stage, callsOnly)
  {
    hide Valid, DraftAt, InStage;
    assert DraftsOf(c, a + b) == DraftsOf(c, a) + DraftsOf(c, b);
    InStageJoin(DraftsOf(c, a), DraftsOf(c, b), stage, callsOnly);
  }

  lemma SeedOfSite(c: Campaign, site: Site)
    requires Valid(c, site)
    ensures DraftAt(c, site).stage == StageOf(site.kind) && DraftAt(c, site).seed.Some? == IsModelCall(site.kind)
  {
    hide DependsOn, Evidence, HarnessAt;
  }

  lemma StageCount(c: Campaign, kind: Kind, stage: nat, callsOnly: bool)
    requires kind != PureAtBSample
    ensures AllValid(c, StageSites(c, kind))
    ensures SitesInStage(c, StageSites(c, kind), stage, callsOnly)
         == if stage == StageOf(kind) && (callsOnly ==> IsModelCall(kind)) then StageSize(c, kind) else 0
  {
    hide Valid, DraftAt, StageSites, InStage, StageSize;
    var sites := StageSites(c, kind);
    forall s | s in sites ensures Valid(c, s) && s.kind == kind {
      StageSitesMembers(c, kind, s);
    }
    forall i | 0 <= i < |sites|
      ensures DraftAt(c, sites[i]).stage == StageOf(kind) && DraftAt(c, sites[i]).seed.Some? == IsModelCall(kind)
    {
      assert sites[i] in sites;
      SeedOfSite(c, sites[i]);
    }
    StageSitesCount(c, kind);
    InOneStage(DraftsOf(c, sites), StageOf(kind), IsModelCall(kind), stage, callsOnly);
  }

  lemma EvaluationCount(c: Campaign, stage: nat, callsOnly: bool)
    ensures AllValid(c, EvaluationSites(c, |c.replicates|))
    ensures SitesInStage(c, EvaluationSites(c, |c.replicates|), stage, callsOnly)
         == if stage == 8 then EvaluationSize(c, |c.replicates|) else 0
  {
    hide Valid, DraftAt, EvaluationSites, EvaluationSize, InStage;
    var sites := EvaluationSites(c, |c.replicates|);
    forall s | s in sites ensures Valid(c, s) && (s.kind == Holdout || s.kind == PureAtBSample) {
      EvaluationSitesMembers(c, |c.replicates|, s);
    }
    forall i | 0 <= i < |sites|
      ensures DraftAt(c, sites[i]).stage == 8 && DraftAt(c, sites[i]).seed.Some?
    {
      assert sites[i] in sites;
      SeedOfSite(c, sites[i]);
    }
    EvaluationSitesCount(c, |c.replicates|);
    InOneStage(DraftsOf(c, sites), 8, true, stage, callsOnly);
  }

  lemma AddStageCount(c: Campaign, before: seq<Site>, kind: Kind, stage: nat, callsOnly: bool)
    requires AllValid(c, before) && kind != PureAtBSample
    ensures AllValid(c, before + StageSites(c, kind))
    ensures SitesInStage(c, before + StageSites(c, kind), stage, callsOnly)
         == SitesInStage(c, before, stage, callsOnly)
            + if stage == StageOf(kind) && (callsOnly ==> IsModelCall(kind)) then StageSize(c, kind) else 0
  {
    hide Valid, SitesInStage, StageSites, StageSize;
    StageCount(c, kind, stage, callsOnly);
    SitesInStageJoin(c, before, StageSites(c, kind), stage, callsOnly);
  }

  /** The nodes of each stage; nomination and decision are the two without calls. */
  function StageNodes(c: Campaign, stage: nat): nat {
    if stage == 1 then StageSize(c, ParentFit)
    else if stage == 2 then StageSize(c, Diagnosis)
    else if stage == 3 then StageSize(c, Proposal)
    else if stage == 4 then StageSize(c, CandidateFit)
    else if stage == 5 then StageSize(c, Nomination)
    else if stage == 6 then StageSize(c, Gate)
    else if stage == 7 then StageSize(c, GateDecision)
    else if stage == 8 then EvaluationSize(c, |c.replicates|)
    else 0
  }

  /** Stage by stage, a plan's nodes and calls, for any sizes. */
  lemma StageCounts(c: Campaign, stage: nat, callsOnly: bool)
    ensures InStage(Drafts(c), stage, callsOnly)
         == if callsOnly && (stage == 5 || stage == 7) then 0 else StageNodes(c, stage)
  {
    hide Valid, StageSites, EvaluationSites, InStage, DraftsOf, StageSize, EvaluationSize;
    var sites := StageSites(c, ParentFit);
    StageCount(c, ParentFit, stage, callsOnly);
    AddStageCount(c, sites, Diagnosis, stage, callsOnly);
    sites := sites + StageSites(c, Diagnosis);
    AddStageCount(c, sites, Proposal, stage, callsOnly);
    sites := sites + StageSites(c, Proposal);
    AddStageCount(c, sites, CandidateFit, stage, callsOnly);
    sites := sites + StageSites(c, CandidateFit);
    AddStageCount(c, sites, Nomination, stage, callsOnly);
    sites := sites + StageSites(c, Nomination);
    AddStageCount(c, sites, Gate, stage, callsOnly);
    sites := sites + StageSites(c, Gate);
    AddStageCount(c, sites, GateDecision, stage, callsOnly);
    sites := sites + StageSites(c, GateDecision);
    EvaluationCount(c, stage, callsOnly);
    SitesInStageJoin(c, sites, EvaluationSites(c, |c.replicates|), stage, callsOnly);
    assert sites + EvaluationSites(c, |c.replicates|) == Sites(c);
  }

  // ---------------------------------------------------------------- nodes and calls of a replicate

  lemma {:induction false} CallShapesJoin(a: seq<Shape>, b: seq<Shape>)
    ensures CallShapes(a + b, None) == CallShapes(a, None) + CallShapes(b, None)
    decreases |b|
  {
    if b == [] {
      assert a + b == a;
    } else {
      assert (a + b)[..|a + b| - 1] == a + b[..|b| - 1];
      CallShapesJoin(a, b[..|b| - 1]);
    }
  }

  /** All sites of one replicate are seen from it; they are calls or not by their kind. */
  lemma {:induction false} OwnSites(c: Campaign, p: nat, sites: seq<Site>, call: bool)
    requires AllValid(c, sites) && p < |c.replicates|
    requires forall s :: s in sites ==> s.at != [] && s.at[0] == p && IsModelCall(s.kind) == call
    ensures |ShapesAt(c, p, sites)| == |sites|
    ensures CallShapes(ShapesAt(c, p, sites), None) == if call then |sites| else 0
    decreases |sites|
  {
    hide Valid, DraftAt, CallShapes, SeenAll;
    CallsOfNone();
    if sites != [] {
      var shorter, last := sites[..|sites| - 1], sites[|sites| - 1];
      assert last in sites && forall s :: s in shorter ==> s in sites;
      OwnSites(c, p, shorter, call);
      assert DraftsOf(c, sites)[..|shorter|] == DraftsOf(c, shorter);
      DraftReplicate(c, last);
      SeedOfSite(c, last);
      CallsGrow(ShapesAt(c, p, shorter), ShapeOf(c.replicates[p].id, DraftAt(c, last)), None);
    }
  }

  lemma StageSitesBelow(c: Campaign, kind: Kind)
    requires kind != PureAtBSample
    ensures StageSites(c, kind) == SitesBelow(c, kind, |c.replicates|)
  {
    assert Product(Dims(c, kind)) == Rows(Dims(c, kind), |c.replicates|);
  }

  /** A stage gives every replicate as many nodes as its inner loops have turns. */
  lemma StageOfReplicate(c: Campaign, kind: Kind, p: nat)
    requires c.Distinct() && kind != PureAtBSample && p < |c.replicates|
    ensures AllValid(c, StageSites(c, kind))
    ensures var shapes := ShapesAt(c, p, StageSites(c, kind));
            && |shapes| == Volume(Dims(c, kind)[1..])
            && CallShapes(shapes, None) == if IsModelCall(kind) then Volume(Dims(c, kind)[1..]) else 0
  {
    hide Valid, ShapesAt, Product;
    var n := |c.replicates|;
    StageSitesBelow(c, kind);
    ShapesBelow(c, kind, p, n);
    BlockMoves(c, kind, p, p);
    var own := SitesOfReplicate(c, kind, p);
    ProductCount(Dims(c, kind)[1..]);
    forall s | s in own ensures s.at != [] && s.at[0] == p && s.kind == kind {
    }
    OwnSites(c, p, own, IsModelCall(kind));
  }

  lemma LateOfReplicate(c: Campaign, p: nat)
    requires c.Distinct() && p < |c.replicates|
    ensures AllValid(c, EvaluationSites(c, |c.replicates|))
    ensures var shapes := ShapesAt(c, p, EvaluationSites(c, |c.replicates|));
            |shapes| == CallShapes(shapes, None) == 4 * |c.holdout| + TotalSamples(c, c.holdout)
  {
    hide Valid, ShapesAt, LateSites, TotalSamples, EvaluationSites;
    LateShapes(c, p, |c.replicates|);
    LateSitesMove(c, p, p);
    var own := LateSites(c, p);
    forall s | s in own
      ensures s.at != [] && s.at[0] == p && IsModelCall(s.kind)
    {
      var i :| 0 <= i < |own| && own[i] == s;
      LateKind(c, p, s);
    }
    OwnSites(c, p, own, true);
    LateSize(c, p);
  }

  lemma LateKind(c: Campaign, p: nat, s: Site)
    requires p < |c.replicates| && s in LateSites(c, p)
    ensures IsModelCall(s.kind)
  {
    hide Valid, SampleSites, HoldoutSites;
    if s in HoldoutSites(c, p) {
      HoldoutSitesMembers(c, p, s);
    } else {
      SampleSitesMembers(c, p, |c.holdout|, s);
    }
  }

  lemma LateSize(c: Campaign, p: nat)
    requires p < |c.replicates|
    ensures |LateSites(c, p)| == 4 * |c.holdout| + TotalSamples(c, c.holdout)
  {
    hide TotalSamples, SampleSites, HoldoutSites;
    HoldoutSitesCount(c, p);
    SampleSitesCount(c, p, |c.holdout|);
    assert c.holdout[..|c.holdout|] == c.holdout;
  }

  function ReplicateStage(c: Campaign, kind: Kind): nat {
    Volume(Dims(c, kind)[1..])
  }

  lemma AddStageShapes(c: Campaign, p: nat, before: seq<Site>, kind: Kind)
    requires c.Distinct() && kind != PureAtBSample && p < |c.replicates| && AllValid(c, before)
    ensures AllValid(c, before + StageSites(c, kind))
    ensures |ShapesAt(c, p, before + StageSites(c, kind))| == |ShapesAt(c, p, before)| + ReplicateStage(c, kind)
    ensures CallShapes(ShapesAt(c, p, before + StageSites(c, kind)), None)
         == CallShapes(ShapesAt(c, p, before), None) + if IsModelCall(kind) then ReplicateStage(c, kind) else 0
  {
    hide Valid, ShapesAt, StageSites;
    StageOfReplicate(c, kind, p);
    ShapesAtJoin(c, p, before, StageSites(c, kind));
    CallShapesJoin(ShapesAt(c, p, before), ShapesAt(c, p, StageSites(c, kind)));
  }

  /** The nodes and the calls of every replicate, for any sizes. */
  lemma ReplicateCounts(c: Campaign, p: nat)
    requires c.Distinct() && p < |c.replicates|
    ensures var calls := ReplicateStage(c, ParentFit) + ReplicateStage(c, Diagnosis) + ReplicateStage(c, Proposal)
                         + ReplicateStage(c, CandidateFit) + ReplicateStage(c, Gate)
                         + 4 * |c.holdout| + TotalSamples(c, c.holdout);
            && Count(Drafts(c), CallsOfReplicate(c.replicates[p].id)) == calls
            && Count(Drafts(c), OfReplicate(c.replicates[p].id))
               == calls + ReplicateStage(c, Nomination) + ReplicateStage(c, GateDecision)
  {
    hide Valid, StageSites, EvaluationSites, ShapesIn, CallShapes, DraftsOf, ReplicateStage, TotalSamples, Count, Volume;
    var sites := StageSites(c, ParentFit);
    StageOfReplicate(c, ParentFit, p);
    StageIsReplicateStage(c, ParentFit);
    AddStageShapes(c, p, sites, Diagnosis);
    sites := sites + StageSites(c, Diagnosis);
    AddStageShapes(c, p, sites, Proposal);
    sites := sites + StageSites(c, Proposal);
    AddStageShapes(c, p, sites, CandidateFit);
    sites := sites + StageSites(c, CandidateFit);
    AddStageShapes(c, p, sites, Nomination);
    sites := sites + StageSites(c, Nomination);
    AddStageShapes(c, p, sites, Gate);
    sites := sites + StageSites(c, Gate);
    AddStageShapes(c, p, sites, GateDecision);
    sites := sites + StageSites(c, GateDecision);
    LateOfReplicate(c, p);
    var evaluations := EvaluationSites(c, |c.replicates|);
    ShapesAtJoin(c, p, sites, evaluations);
    CallShapesJoin(ShapesAt(c, p, sites), ShapesAt(c, p, evaluations));
    assert sites + evaluations == Sites(c);
    ShapeCounts(c.replicates[p].id, Drafts(c), Score);
  }

  lemma StageIsReplicateStage(c: Campaign, kind: Kind)
    ensures ReplicateStage(c, kind) == Volume(Dims(c, kind)[1..])
  {
  }

  // ---------------------------------------------------------------- the registered campaign

  function DraftsIn(nodes: seq<Node>): (drafts: seq<Draft>)
    ensures |drafts| == |nodes| && forall i :: 0 <= i < |drafts| ==> drafts[i] == nodes[i].draft
  {
    seq(|nodes|, i requires 0 <= i < |nodes| => nodes[i].draft)
  }

  /** `expected_stage_call_counts`, and the four barrier stages' sizes. */
  ghost predicate StagesAsRegistered(drafts: seq<Draft>) {
    && InStage(drafts, 1, true) == 60 && InStage(drafts, 2, true) == 18 && InStage(drafts, 3, true) == 18
    && InStage(drafts, 4, true) == 180 && InStage(drafts, 5, true) == 0 && InStage(drafts, 6, true) == 288
    && InStage(drafts, 7, true) == 0 && InStage(drafts, 8, true) == 522
    && InStage(drafts, 5, false) == 6 && InStage(drafts, 6, false) == 288
    && InStage(drafts, 7, false) == 6 && InStage(drafts, 8, false) == 522
  }

  ghost predicate ReplicateAsRegistered(nodes: seq<Node>, id: int) {
    && SlotsOf(nodes, OfReplicate(id)) == Range(366)
    && SlotsOf(nodes, CallsOfReplicate(id)) == Range(362)
    && (forall arm :: SlotsOf(nodes, CallsOfArm(id, arm)) == Range(if arm == Pure || arm == Static then 16 else 110))
  }

  /** The checks of the campaign validator, with the registered counts. */
  ghost predicate ClosesAsRegistered(c: Campaign, nodes: seq<Node>) {
    && Closes(c, nodes)
    && SlotsOf(nodes, AllNodes) == Range(1098) && SlotsOf(nodes, Calls) == Range(1086)
    && StagesAsRegistered(DraftsIn(nodes))
    && (forall p :: 0 <= p < |c.replicates| ==> ReplicateAsRegistered(nodes, c.replicates[p].id))
    && (forall p, q :: 0 <= p < |c.replicates| && 0 <= q < |c.replicates| ==>
          TopologyIn(c.replicates[p].id, nodes) == TopologyIn(c.replicates[q].id, nodes))
  }

  lemma FrozenStages(c: Campaign)
    requires FrozenSizes(c)
    ensures StageSize(c, ParentFit) == 60 && StageSize(c, Diagnosis) == 18 && StageSize(c, Proposal) == 18
    ensures StageSize(c, CandidateFit) == 180 && StageSize(c, Nomination) == 6 && StageSize(c, GateDecision) == 6
    ensures StageSize(c, Gate) == 288 && EvaluationSize(c, |c.replicates|) == 522
    ensures TotalSamples(c, c.holdout) == 110
  {
    hide TotalSamples;
    SampleTotal(c);
    FrozenStage(c, ParentFit, [5, 2, 2], 20);
    FrozenStage(c, Diagnosis, [3, 2], 6);
    FrozenStage(c, Proposal, [3, 2], 6);
    FrozenStage(c, CandidateFit, [3, 5, 2, 2], 60);
    FrozenStage(c, Nomination, [2], 2);
    FrozenStage(c, GateDecision, [2], 2);
    FrozenStage(c, Gate, [4, 3, 4, 2], 96);
    assert EvaluationSize(c, 3) == EvaluationSize(c, 2) + 174;
    assert EvaluationSize(c, 2) == EvaluationSize(c, 1) + 174;
    assert EvaluationSize(c, 1) == 174;
  }

  lemma RegisteredStages(c: Campaign)
    requires FrozenSizes(c)
    ensures StagesAsRegistered(Drafts(c))
  {
    hide Drafts, InStage, StageSize, EvaluationSize, FrozenSizes;
    FrozenStages(c);
    StageCounts(c, 1, true);
    StageCounts(c, 2, true);
    StageCounts(c, 3, true);
    StageCounts(c, 4, true);
    StageCounts(c, 5, true);
    StageCounts(c, 6, true);
    StageCounts(c, 7, true);
    StageCounts(c, 8, true);
    StageCounts(c, 5, false);
    StageCounts(c, 6, false);
    StageCounts(c, 7, false);
    StageCounts(c, 8, false);
  }

  /** The inner volume of a stage is a third of its size. */
  lemma FrozenReplicateStage(c: Campaign, kind: Kind, size: nat)
    requires |c.replicates| == 3 && StageSize(c, kind) == 3 * size
    ensures ReplicateStage(c, kind) == size
  {
  }

  lemma RegisteredReplicate(c: Campaign, nodes: seq<Node>, seedOf: (int, SeedCoordinate) -> int, p: nat)
    requires FrozenSizes(c) && Numbered(Drafts(c), nodes, seedOf) && p < |c.replicates|
    ensures ReplicateAsRegistered(nodes, c.replicates[p].id)
  {
    hide Drafts, Numbered, Count, StageSize, EvaluationSize, ReplicateStage, TotalSamples, SlotsOf;
    var id := c.replicates[p].id;
    FrozenStages(c);
    FrozenReplicateStage(c, ParentFit, 20);
    FrozenReplicateStage(c, Diagnosis, 6);
    FrozenReplicateStage(c, Proposal, 6);
    FrozenReplicateStage(c, CandidateFit, 60);
    FrozenReplicateStage(c, Nomination, 2);
    FrozenReplicateStage(c, Gate, 96);
    FrozenReplicateStage(c, GateDecision, 2);
    ReplicateCounts(c, p);
    Contiguous(c, nodes, seedOf, OfReplicate(id));
    Contiguous(c, nodes, seedOf, CallsOfReplicate(id));
    BudgetsMatch(c, p);
    forall arm
      ensures SlotsOf(nodes, CallsOfArm(id, arm)) == Range(if arm == Pure || arm == Static then 16 else 110)
    {
      Contiguous(c, nodes, seedOf, CallsOfArm(id, arm));
    }
  }

  /** Every finalized plan of the registered sizes passes the campaign validator, whatever the seeds. */
  lemma RegisteredCampaignCloses(c: Campaign, nodes: seq<Node>, seedOf: (int, SeedCoordinate) -> int)
    requires FrozenSizes(c) && Numbered(Drafts(c), nodes, seedOf)
    ensures ClosesAsRegistered(c, nodes)
  {
    hide Drafts, Closes, Count, SlotsOf, TopologyIn, InStage, ReplicateAsRegistered, StagesAsRegistered;
    BuiltCampaignCloses(c, nodes, seedOf);
    FrozenTotals(c);
    Contiguous(c, nodes, seedOf, AllNodes);
    Contiguous(c, nodes, seedOf, Calls);
    CountAll(Drafts(c));
    RegisteredStages(c);
    assert DraftsIn(nodes) == Drafts(c) by {
      assert forall i :: 0 <= i < |nodes| ==> NumberedAt(Drafts(c), i, nodes[i], seedOf);
    }
    forall p | 0 <= p < |c.replicates|
      ensures ReplicateAsRegistered(nodes, c.replicates[p].id)
    {
      RegisteredReplicate(c, nodes, seedOf, p);
    }
    forall p, q | 0 <= p < |c.replicates| && 0 <= q < |c.replicates|
      ensures TopologyIn(c.replicates[p].id, nodes) == TopologyIn(c.replicates[q].id, nodes)
    {
      ReplicatesShareTopology(c, nodes, seedOf, p, q);
    }
  }
}
