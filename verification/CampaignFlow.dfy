/** What the call DAG guarantees: identities, order, isolation, barriers. */
module CampaignFlow {
  import opened Prelude
  import opened RowMajor
  import opened CampaignContracts
  import opened CampaignPlan

  // ---------------------------------------------------------------- the sites are exactly the valid ones

  lemma StageSitesMembers(c: Campaign, kind: Kind, site: Site)
    requires kind != PureAtBSample
    ensures site in StageSites(c, kind) <==> site.kind == kind && Valid(c, site)
  {
    var coords := Product(Dims(c, kind));
    ProductMembers(Dims(c, kind), site.at);
    if site.kind == kind && Valid(c, site) {
      var i: nat :| i < |coords| && coords[i] == site.at;
      assert StageSites(c, kind)[i] == site;
    }
    if site in StageSites(c, kind) {
      var i: nat :| i < |coords| && StageSites(c, kind)[i] == site;
      assert coords[i] in coords;
    }
  }

  lemma StageSitesDistinct(c: Campaign, kind: Kind)
    requires kind != PureAtBSample
    ensures NoDuplicates(StageSites(c, kind))
  {
    ProductDistinct(Dims(c, kind));
    var coords := Product(Dims(c, kind));
    forall i: nat, j: nat | i < j < |coords|
      ensures StageSites(c, kind)[i] != StageSites(c, kind)[j]
    {
      assert coords[i] != coords[j];
    }
  }

  lemma HoldoutSitesMembers(c: Campaign, r: nat, site: Site)
    requires r < |c.replicates|
    ensures site in HoldoutSites(c, r) <==> site.kind == Holdout && Valid(c, site) && site.at[0] == r
  {
    hide Product, Dims, Valid;
    var dims := [|c.holdout|, |HOLDOUT_ARMS|];
    var inner := Product(dims);
    var coords := Prepend(r, inner);
    HoldoutCoordinates(c, r, site);
    if site.kind == Holdout && Valid(c, site) && site.at[0] == r {
      var i: nat :| i < |inner| && inner[i] == site.at[1..];
      assert coords[i] == site.at;
      assert HoldoutSites(c, r)[i] == site;
    }
    if site in HoldoutSites(c, r) {
      var i: nat :| i < |coords| && HoldoutSites(c, r)[i] == site;
      assert inner[i] in inner;
      assert site.at == [r] + inner[i];
      assert site.at[1..] == inner[i];
    }
  }

  /** A holdout site is its replicate followed by a coordinate of the inner loops. */
  lemma HoldoutCoordinates(c: Campaign, r: nat, site: Site)
    requires r < |c.replicates|
    ensures site.kind == Holdout && Valid(c, site) ==>
              |site.at| == 3 && site.at[1..] in Product([|c.holdout|, |HOLDOUT_ARMS|])
    ensures (site.kind == Holdout && |site.at| > 0 && site.at[0] == r
             && site.at[1..] in Product([|c.holdout|, |HOLDOUT_ARMS|])) ==> Valid(c, site)
  {
    hide Product;
    if |site.at| > 0 {
      ProductMembers([|c.holdout|, |HOLDOUT_ARMS|], site.at[1..]);
      assert forall i :: 0 < i < |site.at| ==> site.at[i] == site.at[1..][i - 1];
    }
  }

  lemma {:induction false} SampleSitesMembers(c: Campaign, r: nat, t: nat, site: Site)
    requires t <= |c.holdout| && r < |c.replicates|
    ensures site in SampleSites(c, r, t)
       <==> site.kind == PureAtBSample && Valid(c, site) && site.at[0] == r && site.at[1] < t
    decreases t
  {
    if t > 0 {
      SampleSitesMembers(c, r, t - 1, site);
      var n := SampleCount(c, c.holdout[t - 1]);
      var row := SampleRow(r, t - 1, n);
      assert site in row ==> site.kind == PureAtBSample && |site.at| == 3 && site.at[0] == r && site.at[1] == t - 1;
      if site.kind == PureAtBSample && Valid(c, site) && site.at[0] == r && site.at[1] == t - 1 {
        assert row[site.at[2]].at == site.at;
        assert row[site.at[2]] in row;
      }
    }
  }

  lemma {:induction false} EvaluationSitesMembers(c: Campaign, r: nat, site: Site)
    requires r <= |c.replicates|
    ensures site in EvaluationSites(c, r)
       <==> (site.kind == Holdout || site.kind == PureAtBSample) && Valid(c, site) && site.at[0] < r
    decreases r
  {
    hide HoldoutSites, SampleSites, SampleCount;
    if r > 0 {
      EvaluationSitesMembers(c, r - 1, site);
      HoldoutSitesMembers(c, r - 1, site);
      SampleSitesMembers(c, r - 1, |c.holdout|, site);
    }
  }

  /** The loops visit exactly the valid sites. */
  lemma SitesMembers(c: Campaign, site: Site)
    ensures site in Sites(c) <==> Valid(c, site)
  {
    hide EvaluationSites, StageSites, Valid;
    StageSitesMembers(c, ParentFit, site);
    StageSitesMembers(c, Diagnosis, site);
    StageSitesMembers(c, Proposal, site);
    StageSitesMembers(c, CandidateFit, site);
    StageSitesMembers(c, Nomination, site);
    StageSitesMembers(c, Gate, site);
    StageSitesMembers(c, GateDecision, site);
    EvaluationSitesMembers(c, |c.replicates|, site);
    FirstCoordinate(c, site);
  }

  lemma FirstCoordinate(c: Campaign, site: Site)
    ensures Valid(c, site) ==> |site.at| > 0 && site.at[0] < |c.replicates|
  {
    if Valid(c, site) {
      assert site.at[0] < Dims(c, site.kind)[0];
    }
  }

  lemma SitesValid(c: Campaign)
    ensures AllValid(c, Sites(c))
  {
    forall s | s in Sites(c)
      ensures Valid(c, s)
    {
      SitesMembers(c, s);
    }
  }

  /** The complete list of drafts, in emission order. */
  function Drafts(c: Campaign): seq<Draft> {
    SitesValid(c);
    DraftsOf(c, Sites(c))
  }

  /** A draft and the site it was emitted at. */
  lemma DraftIndex(c: Campaign, i: nat)
    requires i < |Drafts(c)|
    ensures |Drafts(c)| == |Sites(c)| && Valid(c, Sites(c)[i])
    ensures var d, site := Drafts(c)[i], Sites(c)[i];
            && d.id == IdAt(c, site) && d.dependsOn == DependsOn(c, site) && d.evidence == Evidence(c, site)
            && d.stage == StageOf(site.kind) && d == DraftAt(c, site)
  {
    hide Sites, IdAt, DependsOn, Evidence, Valid;
    SitesValid(c);
  }

  lemma SiteIndex(c: Campaign, s: Site) returns (j: nat)
    requires Valid(c, s)
    ensures j < |Drafts(c)| == |Sites(c)| && Sites(c)[j] == s && Drafts(c)[j].id == IdAt(c, s)
  {
    hide Sites, IdAt, Valid;
    SitesMembers(c, s);
    j :| j < |Sites(c)| && Sites(c)[j] == s;
    SitesValid(c);
  }

  // ---------------------------------------------------------------- emission order and identities

  /** Sites of different stages are ordered; two sites of one loop nest are different. */
  lemma {:induction false} SampleSitesDistinct(c: Campaign, r: nat, t: nat)
    requires t <= |c.holdout| && r < |c.replicates|
    ensures NoDuplicates(SampleSites(c, r, t))
    decreases t
  {
    if t > 0 {
      SampleSitesDistinct(c, r, t - 1);
      var before, row := SampleSites(c, r, t - 1), SampleRow(r, t - 1, SampleCount(c, c.holdout[t - 1]));
      assert NoDuplicates(row) by {
        forall i, j | 0 <= i < j < |row|
          ensures row[i] != row[j]
        {
          assert row[i].at[2] == i && row[j].at[2] == j;
        }
      }
      forall s | s in before && s in row
        ensures false
      {
        SampleSitesMembers(c, r, t - 1, s);
      }
      Joined(before, row);
    }
  }

  lemma Joined<T>(a: seq<T>, b: seq<T>)
    requires NoDuplicates(a) && NoDuplicates(b)
    requires forall x :: x in a ==> x !in b
    ensures NoDuplicates(a + b)
  {
    forall i, j | 0 <= i < j < |a + b|
      ensures (a + b)[i] != (a + b)[j]
    {
      if i < |a| <= j {
        assert a[i] in a && b[j - |a|] in b;
      }
    }
  }

  lemma HoldoutSitesDistinct(c: Campaign, r: nat)
    ensures NoDuplicates(HoldoutSites(c, r))
  {
    var inner := Product([|c.holdout|, |HOLDOUT_ARMS|]);
    ProductDistinct([|c.holdout|, |HOLDOUT_ARMS|]);
    var sites := HoldoutSites(c, r);
    forall i, j | 0 <= i < j < |sites|
      ensures sites[i] != sites[j]
    {
      assert sites[i].at[1..] == inner[i] && sites[j].at[1..] == inner[j];
    }
  }

  lemma {:induction false} EvaluationSitesDistinct(c: Campaign, r: nat)
    requires r <= |c.replicates|
    ensures NoDuplicates(EvaluationSites(c, r))
    decreases r
  {
    hide HoldoutSites, SampleSites, SampleCount;
    if r > 0 {
      EvaluationSitesDistinct(c, r - 1);
      HoldoutSitesDistinct(c, r - 1);
      SampleSitesDistinct(c, r - 1, |c.holdout|);
      var before, holdout, samples := EvaluationSites(c, r - 1), HoldoutSites(c, r - 1), SampleSites(c, r - 1, |c.holdout|);
      forall s | s in before
        ensures s !in holdout && s !in samples
      {
        EvaluationSitesMembers(c, r - 1, s);
        HoldoutSitesMembers(c, r - 1, s);
        SampleSitesMembers(c, r - 1, |c.holdout|, s);
      }
      forall s | s in holdout
        ensures s !in samples
      {
        HoldoutSitesMembers(c, r - 1, s);
        SampleSitesMembers(c, r - 1, |c.holdout|, s);
      }
      Joined(before, holdout);
      Joined(before + holdout, samples);
    }
  }

  /** `late` sites all belong to a later stage than `early` ones, and both lists are in stage order. */
  ghost predicate StageSorted(sites: seq<Site>, low: nat, high: nat) {
    && NoDuplicates(sites)
    && (forall s :: s in sites ==> low <= StageOf(s.kind) <= high)
    && (forall i, j :: 0 <= i < j < |sites| ==> StageOf(sites[i].kind) <= StageOf(sites[j].kind))
  }

  lemma StagesJoin(a: seq<Site>, b: seq<Site>, low: nat, middle: nat, high: nat)
    requires StageSorted(a, low, middle) && StageSorted(b, middle + 1, high) && low <= middle < high
    ensures StageSorted(a + b, low, high)
  {
    Joined(a, b);
    forall i, j | 0 <= i < j < |a + b|
      ensures StageOf((a + b)[i].kind) <= StageOf((a + b)[j].kind)
    {
      if i < |a| <= j {
        assert a[i] in a && b[j - |a|] in b;
      }
    }
  }

  lemma OneStageSorted(c: Campaign, kind: Kind)
    requires kind != PureAtBSample
    ensures StageSorted(StageSites(c, kind), StageOf(kind), StageOf(kind))
  {
    StageSitesDistinct(c, kind);
    var sites := StageSites(c, kind);
    forall i | 0 <= i < |sites|
      ensures StageOf(sites[i].kind) == StageOf(kind)
    {
      StageSitesMembers(c, kind, sites[i]);
      assert sites[i] in sites;
    }
  }

  lemma EvaluationSorted(c: Campaign)
    ensures StageSorted(EvaluationSites(c, |c.replicates|), 8, 8)
  {
    var sites := EvaluationSites(c, |c.replicates|);
    EvaluationSitesDistinct(c, |c.replicates|);
    forall s | s in sites
      ensures StageOf(s.kind) == 8
    {
      EvaluationSitesMembers(c, |c.replicates|, s);
    }
    forall i | 0 <= i < |sites|
      ensures StageOf(sites[i].kind) == 8
    {
      assert sites[i] in sites;
    }
  }

  /** No site is visited twice and the stages follow each other. */
  lemma SitesSorted(c: Campaign)
    ensures StageSorted(Sites(c), 1, 8)
  {
    hide StageSites, EvaluationSites, StageSorted;
    OneStageSorted(c, ParentFit);
    OneStageSorted(c, Diagnosis);
    OneStageSorted(c, Proposal);
    OneStageSorted(c, CandidateFit);
    OneStageSorted(c, Nomination);
    OneStageSorted(c, Gate);
    OneStageSorted(c, GateDecision);
    EvaluationSorted(c);
    var s1, s2, s3 := StageSites(c, ParentFit), StageSites(c, Diagnosis), StageSites(c, Proposal);
    var s4, s5, s6 := StageSites(c, CandidateFit), StageSites(c, Nomination), StageSites(c, Gate);
    var s7, s8 := StageSites(c, GateDecision), EvaluationSites(c, |c.replicates|);
    StagesJoin(s1, s2, 1, 1, 2);
    StagesJoin(s1 + s2, s3, 1, 2, 3);
    StagesJoin(s1 + s2 + s3, s4, 1, 3, 4);
    StagesJoin(s1 + s2 + s3 + s4, s5, 1, 4, 5);
    StagesJoin(s1 + s2 + s3 + s4 + s5, s6, 1, 5, 6);
    StagesJoin(s1 + s2 + s3 + s4 + s5 + s6, s7, 1, 6, 7);
    StagesJoin(s1 + s2 + s3 + s4 + s5 + s6 + s7, s8, 1, 7, 8);
  }

  /** Coordinates can be read back from an identity. */
  lemma IdentityInjective(c: Campaign, s: Site, t: Site)
    requires c.Distinct() && Valid(c, s) && Valid(c, t) && IdAt(c, s) == IdAt(c, t)
    ensures s == t
  {
    hide SampleCount;
    FirstCoordinate(c, s);
    FirstCoordinate(c, t);
    assert s.kind == t.kind;
    if s.kind != PureAtBSample {
      SameArmIndex(c, s, t);
    }
    assert |s.at| == |t.at|;
    assert forall i :: 0 <= i < |s.at| ==> s.at[i] == t.at[i];
  }

  lemma SameArmIndex(c: Campaign, s: Site, t: Site)
    requires Valid(c, s) && Valid(c, t) && s.kind == t.kind && s.kind != PureAtBSample
    requires ArmAt(c, s) == ArmAt(c, t)
    ensures s.at[|s.at| - 1] == t.at[|t.at| - 1]
  {
    var dims := Dims(c, s.kind);
    assert s.at[|dims| - 1] < dims[|dims| - 1] && t.at[|dims| - 1] < dims[|dims| - 1];
  }

  /** Node identities are unique. */
  lemma IdentitiesUnique(c: Campaign)
    requires c.Distinct()
    ensures NoDuplicates(Ids(Drafts(c)))
  {
    SitesSorted(c);
    SitesValid(c);
    var sites, ids := Sites(c), Ids(Drafts(c));
    forall i, j | 0 <= i < j < |ids|
      ensures ids[i] != ids[j]
    {
      if ids[i] == ids[j] {
        IdentityInjective(c, sites[i], sites[j]);
      }
    }
  }

  // ---------------------------------------------------------------- what the dependency lists hold

  /** A stage's identities are those of its valid sites, each once. */
  lemma StageIdsExactly(c: Campaign, kind: Kind, id: NodeId)
    requires kind != PureAtBSample
    ensures id in StageIds(c, kind) <==> exists s :: Valid(c, s) && s.kind == kind && IdAt(c, s) == id
  {
    var coords, ids := Product(Dims(c, kind)), StageIds(c, kind);
    if id in ids {
      var i: nat :| i < |ids| && ids[i] == id;
      assert coords[i] in coords;
      ProductMembers(Dims(c, kind), coords[i]);
      assert IdAt(c, Site(kind, coords[i])) == id;
    }
    forall s | Valid(c, s) && s.kind == kind && IdAt(c, s) == id
      ensures id in ids
    {
      StageIdsMember(c, s);
    }
  }

  lemma StageIdsDistinct(c: Campaign, kind: Kind)
    requires c.Distinct() && kind != PureAtBSample
    ensures NoDuplicates(StageIds(c, kind))
  {
    ProductDistinct(Dims(c, kind));
    var coords, ids := Product(Dims(c, kind)), StageIds(c, kind);
    forall i: nat, j: nat | i < j < |ids|
      ensures ids[i] != ids[j]
    {
      assert coords[i] in coords && coords[j] in coords;
      ProductMembers(Dims(c, kind), coords[i]);
      ProductMembers(Dims(c, kind), coords[j]);
      if ids[i] == ids[j] {
        IdentityInjective(c, Site(kind, coords[i]), Site(kind, coords[j]));
      }
    }
  }

  lemma {:induction false} OwnDistinct(ids: seq<NodeId>, s: Selector)
    requires NoDuplicates(ids)
    ensures NoDuplicates(Own(ids, s))
    decreases |ids|
  {
    if ids != [] {
      OwnDistinct(ids[..|ids| - 1], s);
      assert ids[|ids| - 1] !in ids[..|ids| - 1];
    }
  }

  /** The stages a draft of one kind depends on. */
  predicate DependsOnKind(kind: Kind, dependency: Kind) {
    match kind
    case ParentFit => false
    case Diagnosis => dependency == ParentFit
    case Proposal => dependency == Diagnosis
    case CandidateFit => dependency == Proposal
    case Nomination => dependency == CandidateFit || dependency == ParentFit || dependency == Proposal
    case Gate => dependency == Nomination
    case GateDecision => dependency == Gate || dependency == Nomination
    case Holdout => dependency == GateDecision
    case PureAtBSample => dependency == GateDecision
  }

  lemma DependencyKinds(c: Campaign, site: Site, id: NodeId)
    requires Valid(c, site) && id in DependsOn(c, site)
    ensures DependsOnKind(site.kind, id.kind) && id in StageIds(c, id.kind)
  {
    hide StageIds;
  }

  /** Every dependency is a node emitted strictly earlier. */
  lemma DependenciesPointBackward(c: Campaign, i: nat, dependency: NodeId)
    requires i < |Drafts(c)| && dependency in Drafts(c)[i].dependsOn
    ensures exists j :: 0 <= j < i && Drafts(c)[j].id == dependency
  {
    hide StageIds, DependsOn, Valid, IdAt, Drafts, Sites;
    DraftIndex(c, i);
    SitesSorted(c);
    DependencyKinds(c, Sites(c)[i], dependency);
    StageIdsExactly(c, dependency.kind, dependency);
    var s :| Valid(c, s) && s.kind == dependency.kind && IdAt(c, s) == dependency;
    var j := SiteIndex(c, s);
  }

  // ---------------------------------------------------------------- evidence

  /** What a node may learn from: only its own replicate and arm, and only the kinds listed here. */
  predicate Flows(source: NodeId, reader: NodeId) {
    && source.replicate == reader.replicate && source.arm == reader.arm
    && match reader.kind
       case ParentFit => false
       case Diagnosis => source.kind == ParentFit
       case Proposal => source.kind == Diagnosis && source.pipeline == reader.pipeline
       case CandidateFit => source.kind == Proposal && source.candidate == reader.candidate
       case Nomination => source.kind == ParentFit || source.kind == Proposal || source.kind == CandidateFit
       case Gate => source.kind == Nomination
       case GateDecision => source.kind == Nomination || source.kind == Gate
       case Holdout => source.kind == GateDecision
       case PureAtBSample => false
  }

  lemma OwnControl(c: Campaign, kind: Kind, id: NodeId)
    requires kind == Diagnosis || kind == Proposal || kind == Nomination
    requires id in StageIds(c, kind)
    ensures id == NodeId(
                    id.replicate, id.arm, kind, None, None, None, id.pipeline,
                    if kind == Proposal then id.pipeline else None, None)
    ensures kind == Nomination ==> id.pipeline.None?
  {
    StageIdsExactly(c, kind, id);
  }

  /** Proposals and candidates carry the index of their pipeline. */
  lemma PipelineOfIdentity(c: Campaign, s: Site)
    requires Valid(c, s) && (s.kind == Proposal || s.kind == CandidateFit)
    ensures IdAt(c, s).pipeline.Some? && IdAt(c, s).candidate == IdAt(c, s).pipeline
  {
    hide SampleCount;
  }

  lemma EvidenceOfSite(c: Campaign, site: Site, e: NodeId)
    requires Valid(c, site)
    ensures e in Evidence(c, site) <==> e.kind != PureAtBSample && e in StageIds(c, e.kind) && Flows(e, IdAt(c, site))
  {
    hide StageIds, Valid, IdAt, Own;
    KindOfIdentity(c, site);
    if site.kind == Proposal || site.kind == CandidateFit {
      PipelineOfIdentity(c, site);
    }
    if e.kind == Diagnosis || e.kind == Proposal || e.kind == Nomination {
      if e in StageIds(c, e.kind) {
        OwnControl(c, e.kind, e);
      }
    }
    match site.kind {
      case Proposal =>
        OwnControl(c, Diagnosis, OwnDiagnosis(c, site));
      case CandidateFit =>
        OwnControl(c, Proposal, OwnProposal(c, site));
      case Gate =>
        OwnControl(c, Nomination, OwnNomination(c, site));
      case GateDecision =>
        OwnControl(c, Nomination, OwnNomination(c, site));
      case _ =>
    }
  }

  lemma DraftIds(c: Campaign, id: NodeId)
    ensures id in Ids(Drafts(c)) <==> exists s :: Valid(c, s) && IdAt(c, s) == id
  {
    hide Valid, IdAt, Drafts, Sites;
    var ids := Ids(Drafts(c));
    if id in ids {
      var i: nat :| i < |ids| && ids[i] == id;
      DraftIndex(c, i);
    }
    forall s | Valid(c, s) && IdAt(c, s) == id
      ensures id in ids
    {
      var i := SiteIndex(c, s);
      assert ids[i] == id;
    }
  }

  /** A node's evidence is exactly what may flow to it: nothing is missing and nothing is added. */
  lemma EvidenceExactly(c: Campaign, i: nat, e: NodeId)
    requires i < |Drafts(c)|
    ensures e in Drafts(c)[i].evidence <==> e in Ids(Drafts(c)) && Flows(e, Drafts(c)[i].id)
  {
    hide StageIds, Valid, Evidence, Drafts, Sites;
    DraftIndex(c, i);
    var site := Sites(c)[i];
    EvidenceOfSite(c, site, e);
    DraftIds(c, e);
    if e.kind != PureAtBSample {
      StageIdsExactly(c, e.kind, e);
      if e in Ids(Drafts(c)) {
        var s :| Valid(c, s) && IdAt(c, s) == e;
        KindOfIdentity(c, s);
      }
    }
  }

  lemma KindOfIdentity(c: Campaign, s: Site)
    requires Valid(c, s)
    ensures IdAt(c, s).kind == s.kind && IdAt(c, s).arm == ArmAt(c, s)
    ensures s.kind != Holdout && s.kind != PureAtBSample ==> IdAt(c, s).arm == Score || IdAt(c, s).arm == Full
  {
    hide SampleCount;
    if s.kind != Holdout && s.kind != PureAtBSample {
      var dims := Dims(c, s.kind);
      assert s.at[|dims| - 1] < dims[|dims| - 1];
    }
  }

  /** Each element was, by the frozen plan, evidence for the one before it. */
  ghost predicate EvidenceChain(c: Campaign, chain: seq<NodeId>) {
    forall k :: 0 < k < |chain| ==> EvidenceLink(c, chain[k - 1], chain[k])
  }

  ghost predicate EvidenceLink(c: Campaign, reader: NodeId, source: NodeId) {
    exists i :: 0 <= i < |Drafts(c)| && Drafts(c)[i].id == reader && source in Drafts(c)[i].evidence
  }

  lemma OneLink(c: Campaign, reader: NodeId, source: NodeId)
    requires EvidenceLink(c, reader, source)
    ensures Flows(source, reader) && source in Ids(Drafts(c))
    ensures source.replicate == reader.replicate && source.arm == reader.arm
    ensures source.kind != Holdout && source.kind != PureAtBSample && StageOf(source.kind) < StageOf(reader.kind)
  {
    hide Drafts;
    var i :| 0 <= i < |Drafts(c)| && Drafts(c)[i].id == reader && source in Drafts(c)[i].evidence;
    EvidenceExactly(c, i, source);
  }

  /**
   Non-interference: whatever reaches a node through any chain of evidence comes from that
   node's own replicate and arm, and is never a HOLDOUT or PURE@B result.
   */
  lemma {:induction false} EvidenceIsIsolated(c: Campaign, chain: seq<NodeId>)
    requires |chain| >= 2 && EvidenceChain(c, chain)
    ensures chain[|chain| - 1].replicate == chain[0].replicate && chain[|chain| - 1].arm == chain[0].arm
    ensures chain[|chain| - 1].kind != Holdout && chain[|chain| - 1].kind != PureAtBSample
    ensures StageOf(chain[|chain| - 1].kind) < StageOf(chain[0].kind)
    decreases |chain|
  {
    hide EvidenceLink, Flows, StageOf, Drafts;
    var n := |chain|;
    OneLink(c, chain[n - 2], chain[n - 1]);
    if n > 2 {
      var shorter := chain[..n - 1];
      assert forall k :: 0 < k < |shorter| ==> EvidenceLink(c, shorter[k - 1], shorter[k]);
      EvidenceIsIsolated(c, shorter);
    }
  }

  /** The baseline arms have no evidence at all. */
  lemma BaselinesSeeNothing(c: Campaign, i: nat)
    requires i < |Drafts(c)|
    requires Drafts(c)[i].id.arm != Score && Drafts(c)[i].id.arm != Full
    ensures Drafts(c)[i].evidence == []
  {
    hide Drafts, IdAt, Valid;
    var d := Drafts(c)[i];
    if d.evidence != [] {
      var e := d.evidence[0];
      EvidenceExactly(c, i, e);
      DraftIds(c, e);
      var s :| Valid(c, s) && IdAt(c, s) == e;
      KindOfIdentity(c, s);
    }
  }

  // ---------------------------------------------------------------- the global barriers

  /** `order` runs every node once, each after all its dependencies. */
  ghost predicate Execution(c: Campaign, order: seq<NodeId>) {
    && NoDuplicates(order)
    && (forall id :: id in order <==> id in Ids(Drafts(c)))
    && (forall k, i :: 0 <= k < |order| && 0 <= i < |Drafts(c)| && Drafts(c)[i].id == order[k] ==>
          forall d :: d in Drafts(c)[i].dependsOn ==> d in order[..k])
  }

  function PreviousKind(kind: Kind): Kind
    requires kind != ParentFit
  {
    match kind
    case Diagnosis => ParentFit
    case Proposal => Diagnosis
    case CandidateFit => Proposal
    case Nomination => CandidateFit
    case Gate => Nomination
    case GateDecision => Gate
    case Holdout => GateDecision
    case PureAtBSample => GateDecision
  }

  lemma FirstSite(c: Campaign, kind: Kind) returns (s: Site)
    requires c.Inhabited() && c.replicates != [] && kind != Holdout && kind != PureAtBSample
    ensures Valid(c, s) && s.kind == kind
  {
    s := Site(kind, seq(|Dims(c, kind)|, _ => 0));
  }

  /** A node runs after every node of every earlier stage. */
  lemma {:induction false} RunsAfter(c: Campaign, order: seq<NodeId>, k: nat, later: Site, earlier: Site)
    requires c.Inhabited() && Execution(c, order) && k < |order|
    requires Valid(c, later) && Valid(c, earlier) && order[k] == IdAt(c, later)
    requires StageOf(earlier.kind) < StageOf(later.kind)
    ensures IdAt(c, earlier) in order[..k]
    decreases StageOf(later.kind)
  {
    hide Valid, IdAt, StageIds, Drafts;
    var kind := PreviousKind(later.kind);
    FirstCoordinate(c, later);
    var z := FirstSite(c, kind);
    if StageOf(earlier.kind) == StageOf(kind) {
      assert earlier.kind == kind;
      DependsOnPrevious(c, order, k, later, earlier);
    } else {
      DependsOnPrevious(c, order, k, later, z);
      var m: nat :| m < k && order[m] == IdAt(c, z);
      RunsAfter(c, order, m, z, earlier);
      assert order[..m] <= order[..k];
      var q: nat :| q < m && order[q] == IdAt(c, earlier);
      assert order[..k][q] == IdAt(c, earlier);
    }
  }

  lemma DependsOnPrevious(c: Campaign, order: seq<NodeId>, k: nat, later: Site, earlier: Site)
    requires Execution(c, order) && k < |order|
    requires Valid(c, later) && Valid(c, earlier) && order[k] == IdAt(c, later)
    requires later.kind != ParentFit && earlier.kind == PreviousKind(later.kind)
    ensures IdAt(c, earlier) in order[..k]
  {
    hide Valid, IdAt, StageIds, Drafts, Sites;
    var i := SiteIndex(c, later);
    DraftIndex(c, i);
    StageIdsMember(c, earlier);
    assert Drafts(c)[i].id == order[k];
    assert IdAt(c, earlier) in Drafts(c)[i].dependsOn;
  }

  /**
   Every execution that respects dependencies, not only the serialized one, passes the stages
   in order across all replicates and arms.
   */
  lemma ExecutionsAreStageMonotone(c: Campaign, order: seq<NodeId>, i: nat, j: nat)
    requires c.Inhabited() && Execution(c, order) && i < j < |order|
    ensures StageOf(order[i].kind) <= StageOf(order[j].kind)
  {
    hide Valid, IdAt, StageIds, Drafts;
    DraftIds(c, order[i]);
    DraftIds(c, order[j]);
    assert order[i] in order && order[j] in order;
    var s :| Valid(c, s) && IdAt(c, s) == order[i];
    var t :| Valid(c, t) && IdAt(c, t) == order[j];
    KindOfIdentity(c, s);
    KindOfIdentity(c, t);
    if StageOf(order[i].kind) > StageOf(order[j].kind) {
      RunsAfter(c, order, i, s, t);
    }
  }
}
