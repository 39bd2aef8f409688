/**
 The campaign validator and its node contract, and the proof that every built campaign
 passes both, whatever its sizes.
 */
module CampaignClose {
  import opened Prelude
  import opened RowMajor
  import opened CampaignContracts
  import opened CampaignPlan
  import opened CampaignFlow
  import opened CampaignSlots
  import opened CampaignCounts
  import CampaignBuild

  // ---------------------------------------------------------------- single nodes

  lemma ConcatenatedKinds(a: seq<NodeId>, b: seq<NodeId>)
    requires NoDuplicates(a) && NoDuplicates(b)
    requires forall x, y :: x in a && y in b ==> x.kind != y.kind
    ensures NoDuplicates(a + b)
  {
    Joined(a, b);
  }

  lemma DependenciesDistinct(c: Campaign, site: Site)
    requires c.Distinct() && Valid(c, site)
    ensures NoDuplicates(DependsOn(c, site)) && IdAt(c, site) !in DependsOn(c, site)
  {
    hide StageIds, Valid, Own, Unique, IdAt;
    if IdAt(c, site) in DependsOn(c, site) {
      DependencyKinds(c, site, IdAt(c, site));
      KindOfIdentity(c, site);
    }
    match site.kind {
      case ParentFit =>
      case Diagnosis => StageIdsDistinct(c, ParentFit);
      case Proposal => StageIdsDistinct(c, Diagnosis);
      case CandidateFit => StageIdsDistinct(c, Proposal);
      case Nomination =>
      case Gate => StageIdsDistinct(c, Nomination);
      case GateDecision =>
        StageIdsDistinct(c, Gate);
        assert OwnNomination(c, site).kind == Nomination;
        ConcatenatedKinds(StageIds(c, Gate), [OwnNomination(c, site)]);
      case Holdout => StageIdsDistinct(c, GateDecision);
      case PureAtBSample => StageIdsDistinct(c, GateDecision);
    }
  }

  lemma EvidenceDistinct(c: Campaign, site: Site)
    requires c.Distinct() && Valid(c, site)
    ensures NoDuplicates(Evidence(c, site))
  {
    hide StageIds, Valid, Own, IdAt;
    var own := Selector(IdAt(c, site).replicate, IdAt(c, site).arm, None);
    StageIdsDistinct(c, ParentFit);
    OwnDistinct(StageIds(c, ParentFit), own);
    match site.kind {
      case Nomination =>
        StageIdsDistinct(c, Proposal);
        OwnDistinct(StageIds(c, Proposal), own);
        StageIdsDistinct(c, CandidateFit);
        OwnDistinct(StageIds(c, CandidateFit), own);
        var parents, proposals := Own(StageIds(c, ParentFit), own), Own(StageIds(c, Proposal), own);
        ConcatenatedKinds(parents, proposals);
        ConcatenatedKinds(parents + proposals, Own(StageIds(c, CandidateFit), own));
      case GateDecision =>
        StageIdsDistinct(c, Gate);
        OwnDistinct(StageIds(c, Gate), own);
        assert OwnNomination(c, site).kind == Nomination;
        ConcatenatedKinds([OwnNomination(c, site)], Own(StageIds(c, Gate), own));
      case Holdout =>
        StageIdsDistinct(c, GateDecision);
        OwnDistinct(StageIds(c, GateDecision), own);
      case _ =>
    }
  }

  /** Evidence inputs are also timing dependencies. */
  lemma EvidenceIsDependency(c: Campaign, site: Site, e: NodeId)
    requires Valid(c, site) && e in Evidence(c, site)
    ensures e in DependsOn(c, site)
  {
    hide StageIds, Valid, Own, Unique, IdAt;
  }

  lemma NodeCloses(c: Campaign, nodes: seq<Node>, seedOf: (int, SeedCoordinate) -> int, i: nat)
    requires c.Distinct() && Numbered(Drafts(c), nodes, seedOf) && i < |nodes|
    ensures CampaignContracts.NodeCloses(nodes[i])
  {
    hide StageIds, Valid, Own, Unique, IdAt, Evidence, DependsOn, Drafts, Sites, HarnessAt, Count;
    assert NumberedAt(Drafts(c), i, nodes[i], seedOf);
    DraftIndex(c, i);
    var site := Sites(c)[i];
    KindOfIdentity(c, site);
    DependenciesDistinct(c, site);
    EvidenceDistinct(c, site);
    forall e | e in Evidence(c, site)
      ensures e in DependsOn(c, site)
    {
      EvidenceIsDependency(c, site, e);
    }
    var id := nodes[i].draft.id;
    assert SlotIn(Calls, nodes[i]) == ExpectedSlot(Drafts(c), i, Calls);
    assert SlotIn(CallsOfReplicate(0), nodes[i]) == ExpectedSlot(Drafts(c), i, CallsOfReplicate(0));
    assert SlotIn(CallsOfArm(0, Pure), nodes[i]) == ExpectedSlot(Drafts(c), i, CallsOfArm(0, Pure));
  }

  // ---------------------------------------------------------------- the campaign

  /** The structural checks of the closed campaign, for any sizes. */
  ghost predicate Closes(c: Campaign, nodes: seq<Node>) {
    && SlotsOf(nodes, AllNodes) == Range(|nodes|)
    && (exists calls :: SlotsOf(nodes, Calls) == Range(calls))
    && (forall i, j :: 0 <= i < j < |nodes| ==> nodes[i].draft.id != nodes[j].draft.id)
    && (forall i, d :: 0 <= i < |nodes| && d in nodes[i].draft.dependsOn ==> PointsBackward(nodes, i, d))
    && (forall i, j :: 0 <= i < j < |nodes| ==> nodes[i].draft.stage <= nodes[j].draft.stage)
    && (forall r :: 0 <= r < |c.replicates| ==> ReplicateCloses(c, nodes, r))
    && (forall i :: 0 <= i < |nodes| ==> CampaignContracts.NodeCloses(nodes[i]))
  }

  ghost predicate PointsBackward(nodes: seq<Node>, i: nat, d: NodeId)
    requires i < |nodes|
  {
    exists j :: 0 <= j < i && nodes[j].draft.id == d
  }

  /** One outer seed, contiguous node and call slots, and the exact budget of every arm. */
  ghost predicate ReplicateCloses(c: Campaign, nodes: seq<Node>, r: nat)
    requires r < |c.replicates|
  {
    var replicate := c.replicates[r];
    && (forall i :: 0 <= i < |nodes| && nodes[i].draft.id.replicate == replicate.id ==>
          nodes[i].draft.outerSeed == replicate.outerSeed)
    && (exists n :: SlotsOf(nodes, OfReplicate(replicate.id)) == Range(n))
    && (exists n :: SlotsOf(nodes, CallsOfReplicate(replicate.id)) == Range(n))
    && (forall arm :: SlotsOf(nodes, CallsOfArm(replicate.id, arm)) == Range(ArmCalls(c, arm)))
  }

  lemma Contiguous(c: Campaign, nodes: seq<Node>, seedOf: (int, SeedCoordinate) -> int, g: Group)
    requires Numbered(Drafts(c), nodes, seedOf)
    ensures SlotsOf(nodes, g) == Range(Count(Drafts(c), g))
  {
    hide Drafts, SlotsOf, Count;
    SlotsAreContiguous(Drafts(c), nodes, seedOf, g, |nodes|);
    assert nodes[..|nodes|] == nodes && Drafts(c)[..|nodes|] == Drafts(c);
  }

  lemma OuterSeeds(c: Campaign, i: nat, r: nat)
    requires c.Distinct() && i < |Drafts(c)| && r < |c.replicates|
    requires Drafts(c)[i].id.replicate == c.replicates[r].id
    ensures Drafts(c)[i].outerSeed == c.replicates[r].outerSeed
  {
    hide Drafts, Sites, DependsOn, Evidence, HarnessAt, SeedAt, SampleCount;
    DraftIndex(c, i);
    FirstCoordinate(c, Sites(c)[i]);
  }

  lemma BuiltReplicateCloses(c: Campaign, nodes: seq<Node>, seedOf: (int, SeedCoordinate) -> int, r: nat)
    requires c.Distinct() && Numbered(Drafts(c), nodes, seedOf) && r < |c.replicates|
    ensures ReplicateCloses(c, nodes, r)
  {
    hide Drafts, SlotsOf, Count, ArmCalls;
    var id := c.replicates[r].id;
    Contiguous(c, nodes, seedOf, OfReplicate(id));
    Contiguous(c, nodes, seedOf, CallsOfReplicate(id));
    forall arm: Arm
      ensures SlotsOf(nodes, CallsOfArm(id, arm)) == Range(ArmCalls(c, arm))
    {
      Contiguous(c, nodes, seedOf, CallsOfArm(id, arm));
      ArmBudgets(c, r, arm);
    }
    forall i | 0 <= i < |nodes| && nodes[i].draft.id.replicate == id
      ensures nodes[i].draft.outerSeed == c.replicates[r].outerSeed
    {
      assert NumberedAt(Drafts(c), i, nodes[i], seedOf);
      OuterSeeds(c, i, r);
    }
  }

  lemma BuiltOrder(c: Campaign, i: nat, j: nat)
    requires i < j < |Drafts(c)|
    ensures Drafts(c)[i].stage <= Drafts(c)[j].stage
  {
    hide Drafts, Sites, DraftAt;
    DraftIndex(c, i);
    DraftIndex(c, j);
    SitesSorted(c);
  }

  /** Every campaign numbered from the built drafts passes the validator. */
  lemma BuiltCampaignCloses(c: Campaign, nodes: seq<Node>, seedOf: (int, SeedCoordinate) -> int)
    requires c.Distinct() && Numbered(Drafts(c), nodes, seedOf)
    ensures Closes(c, nodes)
  {
    hide Drafts, SlotsOf, Count, ReplicateCloses, CampaignContracts.NodeCloses;
    var drafts := Drafts(c);
    forall i | 0 <= i < |nodes|
      ensures nodes[i].draft == drafts[i] && CampaignContracts.NodeCloses(nodes[i])
    {
      assert NumberedAt(drafts, i, nodes[i], seedOf);
      NodeCloses(c, nodes, seedOf, i);
    }
    Contiguous(c, nodes, seedOf, AllNodes);
    CountAll(drafts);
    Contiguous(c, nodes, seedOf, Calls);
    IdentitiesUnique(c);
    forall i, j | 0 <= i < j < |nodes|
      ensures nodes[i].draft.id != nodes[j].draft.id && nodes[i].draft.stage <= nodes[j].draft.stage
    {
      assert Ids(drafts)[i] != Ids(drafts)[j];
      BuiltOrder(c, i, j);
    }
    forall i, d | 0 <= i < |nodes| && d in nodes[i].draft.dependsOn
      ensures PointsBackward(nodes, i, d)
    {
      DependenciesPointBackward(c, i, d);
      var j :| 0 <= j < i && drafts[j].id == d;
      assert nodes[j].draft.id == d;
    }
    forall r | 0 <= r < |c.replicates|
      ensures ReplicateCloses(c, nodes, r)
    {
      BuiltReplicateCloses(c, nodes, seedOf, r);
    }
  }

  /** Building and numbering the whole campaign. */
  method BuildCampaign(c: Campaign, seedOf: (int, SeedCoordinate) -> int) returns (nodes: seq<Node>)
    requires c.Distinct()
    ensures Numbered(Drafts(c), nodes, seedOf)
    ensures Closes(c, nodes)
  {
    hide Drafts, Numbered, Closes;
    var drafts := CampaignBuild.BuildDrafts(c);
    nodes := FinalizeNodes(drafts, seedOf);
    BuiltCampaignCloses(c, nodes, seedOf);
  }

  // ---------------------------------------------------------------- totals

  predicate CallSite(s: Site) {
    IsModelCall(s.kind)
  }

  function CallSites(sites: seq<Site>): nat {
    if sites == [] then 0
    else CallSites(sites[..|sites| - 1]) + if CallSite(sites[|sites| - 1]) then 1 else 0
  }

  lemma CallDraft(c: Campaign, site: Site)
    requires Valid(c, site)
    ensures In(Calls, DraftAt(c, site)) <==> CallSite(site)
  {
    hide Valid, IdAt, DependsOn, Evidence, HarnessAt;
  }

  lemma {:induction false} CallsAreCallSites(c: Campaign, sites: seq<Site>)
    requires AllValid(c, sites)
    ensures Count(DraftsOf(c, sites), Calls) == CallSites(sites)
    decreases |sites|
  {
    hide Valid, DraftAt, In, CallSite;
    if sites != [] {
      var shorter, last := sites[..|sites| - 1], sites[|sites| - 1];
      assert forall s :: s in shorter ==> s in sites;
      assert last in sites;
      CallsAreCallSites(c, shorter);
      CallDraft(c, last);
      assert DraftsOf(c, sites)[..|sites| - 1] == DraftsOf(c, shorter);
    }
  }

  lemma {:induction false} CallSitesJoin(a: seq<Site>, b: seq<Site>)
    ensures CallSites(a + b) == CallSites(a) + CallSites(b)
    decreases |b|
  {
    if b == [] {
      assert a + b == a;
    } else {
      assert (a + b)[..|a + b| - 1] == a + b[..|b| - 1];
      CallSitesJoin(a, b[..|b| - 1]);
    }
  }

  lemma {:induction false} UniformCallSites(sites: seq<Site>, call: bool)
    requires forall s :: s in sites ==> CallSite(s) == call
    ensures CallSites(sites) == if call then |sites| else 0
    decreases |sites|
  {
    hide CallSite;
    if sites != [] {
      assert sites[|sites| - 1] in sites && forall s :: s in sites[..|sites| - 1] ==> s in sites;
      UniformCallSites(sites[..|sites| - 1], call);
    }
  }

  function StageSize(c: Campaign, kind: Kind): nat {
    Volume(Dims(c, kind))
  }

  lemma StageSitesCount(c: Campaign, kind: Kind)
    requires kind != PureAtBSample
    ensures |StageSites(c, kind)| == StageSize(c, kind)
    ensures CallSites(StageSites(c, kind)) == if IsModelCall(kind) then StageSize(c, kind) else 0
  {
    hide Product;
    ProductCount(Dims(c, kind));
    forall s | s in StageSites(c, kind)
      ensures s.kind == kind
    {
      StageSitesMembers(c, kind, s);
    }
    UniformCallSites(StageSites(c, kind), IsModelCall(kind));
  }

  lemma HoldoutSitesCount(c: Campaign, r: nat)
    requires r < |c.replicates|
    ensures |HoldoutSites(c, r)| == 4 * |c.holdout|
  {
    var dims := [|c.holdout|, |HOLDOUT_ARMS|];
    ProductCount(dims);
    VolumeOfTwo(|c.holdout|, |HOLDOUT_ARMS|);
  }

  /** The evaluation nodes of `r` replicates. */
  function EvaluationSize(c: Campaign, r: nat): nat {
    if r == 0 then 0 else EvaluationSize(c, r - 1) + 4 * |c.holdout| + TotalSamples(c, c.holdout)
  }

  lemma {:induction false} EvaluationSitesCount(c: Campaign, r: nat)
    requires r <= |c.replicates|
    ensures |EvaluationSites(c, r)| == EvaluationSize(c, r)
    decreases r
  {
    hide HoldoutSites, SampleSites, TotalSamples;
    if r > 0 {
      EvaluationSitesCount(c, r - 1);
      HoldoutSitesCount(c, r - 1);
      SampleSitesCount(c, r - 1, |c.holdout|);
      assert c.holdout[..|c.holdout|] == c.holdout;
    }
  }

  lemma AddStage(c: Campaign, before: seq<Site>, kind: Kind)
    requires kind != PureAtBSample
    ensures |before + StageSites(c, kind)| == |before| + StageSize(c, kind)
    ensures CallSites(before + StageSites(c, kind))
         == CallSites(before) + if IsModelCall(kind) then StageSize(c, kind) else 0
  {
    hide *;
    StageSitesCount(c, kind);
    CallSitesJoin(before, StageSites(c, kind));
  }

  lemma EvaluationTotals(c: Campaign)
    ensures var evaluations := EvaluationSites(c, |c.replicates|);
            |evaluations| == CallSites(evaluations) == EvaluationSize(c, |c.replicates|)
  {
    hide EvaluationSites, EvaluationSize, Valid;
    var evaluations := EvaluationSites(c, |c.replicates|);
    EvaluationSitesCount(c, |c.replicates|);
    forall s | s in evaluations
      ensures CallSite(s)
    {
      EvaluationSitesMembers(c, |c.replicates|, s);
    }
    UniformCallSites(evaluations, true);
  }

  lemma SiteTotals(c: Campaign)
    ensures |Sites(c)|
         == StageSize(c, ParentFit) + StageSize(c, Diagnosis) + StageSize(c, Proposal) + StageSize(c, CandidateFit)
            + StageSize(c, Nomination) + StageSize(c, Gate) + StageSize(c, GateDecision)
            + EvaluationSize(c, |c.replicates|)
    ensures CallSites(Sites(c))
         == StageSize(c, ParentFit) + StageSize(c, Diagnosis) + StageSize(c, Proposal) + StageSize(c, CandidateFit)
            + StageSize(c, Gate) + EvaluationSize(c, |c.replicates|)
  {
    hide StageSites, EvaluationSites, StageSize, EvaluationSize, CallSites;
    StageSitesCount(c, ParentFit);
    var s := StageSites(c, ParentFit);
    AddStage(c, s, Diagnosis);
    s := s + StageSites(c, Diagnosis);
    AddStage(c, s, Proposal);
    s := s + StageSites(c, Proposal);
    AddStage(c, s, CandidateFit);
    s := s + StageSites(c, CandidateFit);
    AddStage(c, s, Nomination);
    s := s + StageSites(c, Nomination);
    AddStage(c, s, Gate);
    s := s + StageSites(c, Gate);
    AddStage(c, s, GateDecision);
    s := s + StageSites(c, GateDecision);
    EvaluationTotals(c);
    CallSitesJoin(s, EvaluationSites(c, |c.replicates|));
  }

  /** All nodes and all calls, stage by stage. */
  lemma Totals(c: Campaign)
    ensures |Drafts(c)|
         == StageSize(c, ParentFit) + StageSize(c, Diagnosis) + StageSize(c, Proposal) + StageSize(c, CandidateFit)
            + StageSize(c, Nomination) + StageSize(c, Gate) + StageSize(c, GateDecision)
            + EvaluationSize(c, |c.replicates|)
    ensures Count(Drafts(c), Calls)
         == StageSize(c, ParentFit) + StageSize(c, Diagnosis) + StageSize(c, Proposal) + StageSize(c, CandidateFit)
            + StageSize(c, Gate) + EvaluationSize(c, |c.replicates|)
  {
    hide Sites, Valid, Count, StageSize, EvaluationSize, CallSites, DraftAt;
    SitesValid(c);
    SiteTotals(c);
    CallsAreCallSites(c, Sites(c));
  }

  lemma FrozenStage(c: Campaign, kind: Kind, rest: seq<nat>, size: nat)
    requires Dims(c, kind) == [3] + rest
    requires 1 <= |rest| <= 4
    requires size == rest[0] * (if |rest| > 1 then rest[1] else 1) * (if |rest| > 2 then rest[2] else 1)
                     * (if |rest| > 3 then rest[3] else 1)
    ensures StageSize(c, kind) == 3 * size
  {
    VolumeOfUpToFour(rest);
    assert ([3] + rest)[1..] == rest;
  }

  lemma Reassociate(x: nat, y: nat, z: nat, w: nat)
    ensures x * (y * z * w) == x * y * z * w
  {
    assert x * (y * z * w) == x * (y * z) * w;
    assert x * (y * z) == x * y * z;
  }

  lemma VolumeOfFour(x: nat, y: nat, z: nat, w: nat)
    ensures Volume([x, y, z, w]) == x * y * z * w
  {
    VolumeOfThree(y, z, w);
    assert [x, y, z, w][1..] == [y, z, w];
    Reassociate(x, y, z, w);
  }

  lemma VolumeOfUpToFour(s: seq<nat>)
    requires 1 <= |s| <= 4
    ensures Volume(s) == s[0] * (if |s| > 1 then s[1] else 1) * (if |s| > 2 then s[2] else 1)
                         * (if |s| > 3 then s[3] else 1)
  {
    hide Volume;
    if |s| == 1 {
      assert s == [s[0]];
      VolumeOfOne(s[0]);
    } else if |s| == 2 {
      assert s == [s[0], s[1]];
      VolumeOfTwo(s[0], s[1]);
    } else if |s| == 3 {
      assert s == [s[0], s[1], s[2]];
      VolumeOfThree(s[0], s[1], s[2]);
    } else {
      assert s == [s[0], s[1], s[2], s[3]];
      VolumeOfFour(s[0], s[1], s[2], s[3]);
    }
  }

  /** With the frozen sizes there are 1,098 nodes and 1,086 calls. */
  lemma FrozenTotals(c: Campaign)
    requires FrozenSizes(c)
    ensures |Drafts(c)| == 1098 && Count(Drafts(c), Calls) == 1086
  {
    hide Drafts, Count, TotalSamples;
    Totals(c);
    SampleTotal(c);
    FrozenStage(c, ParentFit, [5, 2, 2], 20);
    FrozenStage(c, Diagnosis, [3, 2], 6);
    FrozenStage(c, Proposal, [3, 2], 6);
    FrozenStage(c, CandidateFit, [3, 5, 2, 2], 60);
    FrozenStage(c, Nomination, [2], 2);
    FrozenStage(c, GateDecision, [2], 2);
    FrozenStage(c, Gate, [4, 3, 4, 2], 96);
    assert EvaluationSize(c, 3) == EvaluationSize(c, 2) + 174;
    assert EvaluationSize(c, 2) == EvaluationSize(c, 1) + 174;
    assert EvaluationSize(c, 1) == 174;
  }
}
