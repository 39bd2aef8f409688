/** What a built campaign plan says, on its node identities alone. */
module CampaignMeaning {
  import opened Prelude
  import opened RowMajor
  import opened Sorting
  import opened CampaignContracts
  import opened CampaignPlan
  import opened CampaignFlow
  import opened CampaignSlots
  import opened CampaignCounts

  // ---------------------------------------------------------------- which nodes there are

  predicate Below(index: Option<nat>, bound: nat) {
    index.Some? && index.value < bound
  }

  predicate InRoster(task: Option<int>, roster: seq<int>) {
    task.Some? && task.value in roster
  }

  predicate IsReplicate(c: Campaign, id: int) {
    exists r :: 0 <= r < |c.replicates| && c.replicates[r].id == id
  }

  /** The nodes of a campaign: every combination its kind allows, with nothing else filled in. */
  predicate IsNode(c: Campaign, id: NodeId) {
    && IsReplicate(c, id.replicate)
    && (id.kind != Holdout && id.kind != PureAtBSample ==> id.arm == Score || id.arm == Full)
    && match id.kind
       case ParentFit =>
         InRoster(id.task, c.fit) && Below(id.rollout, c.fitRollouts)
         && id == NodeId(id.replicate, id.arm, ParentFit, id.task, id.rollout, None, None, None, None)
       case Diagnosis =>
         Below(id.pipeline, c.pipelines)
         && id == NodeId(id.replicate, id.arm, Diagnosis, None, None, None, id.pipeline, None, None)
       case Proposal =>
         Below(id.pipeline, c.pipelines)
         && id == NodeId(id.replicate, id.arm, Proposal, None, None, None, id.pipeline, id.pipeline, None)
       case CandidateFit =>
         InRoster(id.task, c.fit) && Below(id.rollout, c.fitRollouts) && Below(id.pipeline, c.pipelines)
         && id == NodeId(id.replicate, id.arm, CandidateFit, id.task, id.rollout, None, id.pipeline, id.pipeline, None)
       case Nomination =>
         id == NodeId(id.replicate, id.arm, Nomination, None, None, None, None, None, None)
       case Gate =>
         InRoster(id.task, c.gate) && Below(id.rollout, c.gateRollouts) && id.variant.Some?
         && id == NodeId(id.replicate, id.arm, Gate, id.task, id.rollout, None, None, None, id.variant)
       case GateDecision =>
         id == NodeId(id.replicate, id.arm, GateDecision, None, None, None, None, None, None)
       case Holdout =>
         id.arm != PureAtB && InRoster(id.task, c.holdout)
         && id == NodeId(id.replicate, id.arm, Holdout, id.task, Some(0), None, None, None, None)
       case PureAtBSample =>
         InRoster(id.task, c.holdout) && Below(id.sample, SampleCount(c, id.task.value))
         && id == NodeId(id.replicate, PureAtB, PureAtBSample, id.task, None, id.sample, None, None, None)
  }

  lemma SiteIsNode(c: Campaign, site: Site)
    requires Valid(c, site)
    ensures IsNode(c, IdAt(c, site))
  {
    hide SampleCount;
    assert |site.at| > 0 && site.at[0] < Dims(c, site.kind)[0];
    assert IsReplicate(c, c.replicates[site.at[0]].id);
  }

  lemma FirstIndex(xs: seq<int>, x: int) returns (i: nat)
    requires x in xs
    ensures i < |xs| && xs[i] == x
  {
    i :| i < |xs| && xs[i] == x;
  }

  function AdaptiveIndex(arm: Arm): (a: nat)
    ensures a < 2 && (arm == Score || arm == Full ==> ADAPTIVE_ARMS[a] == arm)
  {
    if arm == Full then 1 else 0
  }

  function HoldoutIndex(arm: Arm): (a: nat)
    ensures a < 4 && (arm != PureAtB ==> HOLDOUT_ARMS[a] == arm)
  {
    match arm
    case Static => 1
    case Score => 2
    case Full => 3
    case _ => 0
  }

  function VariantIndex(v: GateVariant): (i: nat)
    ensures i < 4 && GATE_VARIANTS[i] == v
  {
    match v
    case ParentVariant => 0
    case NominatedCandidate => 1
    case Revert => 2
    case NegativeControl => 3
  }

  lemma NodeHasSite(c: Campaign, id: NodeId) returns (site: Site)
    requires IsNode(c, id)
    ensures Valid(c, site) && IdAt(c, site) == id
  {
    hide SampleCount;
    var r: nat :| r < |c.replicates| && c.replicates[r].id == id.replicate;
    var a := AdaptiveIndex(id.arm);
    match id.kind {
      case ParentFit =>
        var t := FirstIndex(c.fit, id.task.value);
        site := Site(ParentFit, [r, t, id.rollout.value, a]);
      case Diagnosis =>
        site := Site(Diagnosis, [r, id.pipeline.value, a]);
      case Proposal =>
        site := Site(Proposal, [r, id.pipeline.value, a]);
      case CandidateFit =>
        var t := FirstIndex(c.fit, id.task.value);
        site := Site(CandidateFit, [r, id.pipeline.value, t, id.rollout.value, a]);
      case Nomination =>
        site := Site(Nomination, [r, a]);
      case Gate =>
        var t := FirstIndex(c.gate, id.task.value);
        site := Site(Gate, [r, t, id.rollout.value, VariantIndex(id.variant.value), a]);
      case GateDecision =>
        site := Site(GateDecision, [r, a]);
      case Holdout =>
        var t := FirstIndex(c.holdout, id.task.value);
        site := Site(Holdout, [r, t, HoldoutIndex(id.arm)]);
      case PureAtBSample =>
        var t := FirstIndex(c.holdout, id.task.value);
        site := Site(PureAtBSample, [r, t, id.sample.value]);
    }
  }

  /** The plan has exactly these nodes. */
  lemma NodesExactly(c: Campaign, id: NodeId)
    ensures id in Ids(Drafts(c)) <==> IsNode(c, id)
  {
    hide Valid, IdAt, Drafts, IsNode;
    DraftIds(c, id);
    if id in Ids(Drafts(c)) {
      var site :| Valid(c, site) && IdAt(c, site) == id;
      SiteIsNode(c, site);
    }
    if IsNode(c, id) {
      var site := NodeHasSite(c, id);
    }
  }

  /** A task of the roster has the base number of samples, and one more exactly if it is among the lowest priorities. */
  lemma SamplesExactly(c: Campaign, t: int)
    ensures SampleCount(c, t) == c.baseSamples || SampleCount(c, t) == c.baseSamples + 1
    ensures SampleCount(c, t) == c.baseSamples + 1 <==> t in RemainderTasks(c)
  {
    hide RemainderTasks;
  }

  // ---------------------------------------------------------------- in which order

  function IndexOf(xs: seq<int>, x: int): (i: nat)
    ensures i <= |xs| && (x in xs ==> i < |xs| && xs[i] == x)
  {
    if xs == [] || xs[0] == x then 0 else 1 + IndexOf(xs[1..], x)
  }

  lemma IndexUnique(xs: seq<int>, i: nat)
    requires NoDuplicates(xs) && i < |xs|
    ensures IndexOf(xs, xs[i]) == i
  {
    assert xs[i] in xs;
    var j := IndexOf(xs, xs[i]);
    assert xs[j] == xs[i];
  }

  function ReplicateIds(c: Campaign): (ids: seq<int>)
    ensures |ids| == |c.replicates| && forall i :: 0 <= i < |ids| ==> ids[i] == c.replicates[i].id
  {
    seq(|c.replicates|, i requires 0 <= i < |c.replicates| => c.replicates[i].id)
  }

  /** The place of a node: its stage, its replicate, then the loops of its stage from the outside in. */
  function PlanKey(c: Campaign, id: NodeId): seq<int>
    requires IsNode(c, id)
  {
    var r := IndexOf(ReplicateIds(c), id.replicate);
    match id.kind
    case ParentFit => [1, r, IndexOf(c.fit, id.task.value), id.rollout.value, AdaptiveIndex(id.arm)]
    case Diagnosis => [2, r, id.pipeline.value, AdaptiveIndex(id.arm)]
    case Proposal => [3, r, id.pipeline.value, AdaptiveIndex(id.arm)]
    case CandidateFit =>
      [4, r, id.pipeline.value, IndexOf(c.fit, id.task.value), id.rollout.value, AdaptiveIndex(id.arm)]
    case Nomination => [5, r, AdaptiveIndex(id.arm)]
    case Gate =>
      [6, r, IndexOf(c.gate, id.task.value), id.rollout.value, VariantIndex(id.variant.value), AdaptiveIndex(id.arm)]
    case GateDecision => [7, r, AdaptiveIndex(id.arm)]
    case Holdout => [8, r, 0, IndexOf(c.holdout, id.task.value), HoldoutIndex(id.arm)]
    case PureAtBSample => [8, r, 1, IndexOf(c.holdout, id.task.value), id.sample.value]
  }

  function SiteKey(site: Site): seq<int> {
    if site.kind == Holdout && site.at != [] then [8, site.at[0], 0] + site.at[1..]
    else if site.kind == PureAtBSample && site.at != [] then [8, site.at[0], 1] + site.at[1..]
    else [StageOf(site.kind)] + site.at
  }

  lemma ArmPlace(i: nat)
    ensures i < 2 ==> AdaptiveIndex(ADAPTIVE_ARMS[i]) == i
    ensures i < 4 ==> HoldoutIndex(HOLDOUT_ARMS[i]) == i && VariantIndex(GATE_VARIANTS[i]) == i
  {
  }

  lemma ReplicatePlace(c: Campaign, r: nat)
    requires c.Distinct() && r < |c.replicates|
    ensures IndexOf(ReplicateIds(c), c.replicates[r].id) == r
  {
    IndexUnique(ReplicateIds(c), r);
  }

  lemma KeysAgree(c: Campaign, site: Site)
    requires c.Distinct() && Valid(c, site)
    ensures IsNode(c, IdAt(c, site)) && PlanKey(c, IdAt(c, site)) == SiteKey(site)
  {
    hide SampleCount, IsNode, IndexOf;
    SiteIsNode(c, site);
    var at := site.at;
    assert |at| > 0 && at[0] < Dims(c, site.kind)[0];
    ReplicatePlace(c, at[0]);
    match site.kind {
      case ParentFit =>
        IndexUnique(c.fit, at[1]);
        ArmPlace(at[3]);
        assert at == [at[0], at[1], at[2], at[3]];
      case Diagnosis =>
        ArmPlace(at[2]);
        assert at == [at[0], at[1], at[2]];
      case Proposal =>
        ArmPlace(at[2]);
        assert at == [at[0], at[1], at[2]];
      case CandidateFit =>
        IndexUnique(c.fit, at[2]);
        ArmPlace(at[4]);
        assert at == [at[0], at[1], at[2], at[3], at[4]];
      case Nomination =>
        ArmPlace(at[1]);
        assert at == [at[0], at[1]];
      case Gate =>
        IndexUnique(c.gate, at[1]);
        ArmPlace(at[3]);
        ArmPlace(at[4]);
        assert at == [at[0], at[1], at[2], at[3], at[4]];
      case GateDecision =>
        ArmPlace(at[1]);
        assert at == [at[0], at[1]];
      case Holdout =>
        IndexUnique(c.holdout, at[1]);
        ArmPlace(at[2]);
        assert at[1..] == [at[1], at[2]];
      case PureAtBSample =>
        IndexUnique(c.holdout, at[1]);
        assert at[1..] == [at[1], at[2]];
    }
  }

  /** Lexicographically before. */
  predicate Comes(a: seq<int>, b: seq<int>) {
    TextLeq(a, b) && a != b
  }

  lemma ComesBehind(x: int, a: seq<int>, b: seq<int>)
    requires Comes(a, b)
    ensures Comes([x] + a, [x] + b)
  {
    assert ([x] + a)[1..] == a && ([x] + b)[1..] == b;
  }

  lemma {:induction false} RowsAscend(dims: seq<nat>, x: nat, i: nat, j: nat)
    requires dims != [] && i < j < |Rows(dims, x)|
    ensures Comes(Rows(dims, x)[i], Rows(dims, x)[j])
    decreases |dims|, 0, x
  {
    if x > 0 {
      var before, rest := Rows(dims, x - 1), Product(dims[1..]);
      var all := Rows(dims, x);
      if j < |before| {
        RowsAscend(dims, x - 1, i, j);
        assert all[i] == before[i] && all[j] == before[j];
      } else if i < |before| {
        assert all[i] == before[i] && before[i] in before;
        RowsMembers(dims, x - 1, before[i]);
        assert all[j] == [x - 1] + rest[j - |before|];
      } else {
        ProductAscends(dims[1..], i - |before|, j - |before|);
        assert all[i] == [x - 1] + rest[i - |before|] && all[j] == [x - 1] + rest[j - |before|];
        ComesBehind(x - 1, rest[i - |before|], rest[j - |before|]);
      }
    }
  }

  lemma {:induction false} ProductAscends(dims: seq<nat>, i: nat, j: nat)
    requires i < j < |Product(dims)|
    ensures Comes(Product(dims)[i], Product(dims)[j])
    decreases |dims|, 1, 0
  {
    if dims != [] {
      RowsAscend(dims, dims[0], i, j);
    }
  }

  ghost predicate SitesAscend(sites: seq<Site>) {
    forall i, j :: 0 <= i < j < |sites| ==> Comes(SiteKey(sites[i]), SiteKey(sites[j]))
  }

  lemma SitesJoin(a: seq<Site>, b: seq<Site>)
    requires SitesAscend(a) && SitesAscend(b)
    requires forall x, y :: x in a && y in b ==> Comes(SiteKey(x), SiteKey(y))
    ensures SitesAscend(a + b)
  {
    hide Comes, SiteKey;
    var all := a + b;
    forall i, j | 0 <= i < j < |all|
      ensures Comes(SiteKey(all[i]), SiteKey(all[j]))
    {
      if i < |a| <= j {
        assert all[i] in a && all[j] in b;
      }
    }
  }

  lemma StageAscends(c: Campaign, kind: Kind)
    requires kind != PureAtBSample && kind != Holdout
    ensures SitesAscend(StageSites(c, kind))
  {
    hide Product, Comes;
    var coords, sites := Product(Dims(c, kind)), StageSites(c, kind);
    forall i, j | 0 <= i < j < |sites|
      ensures Comes(SiteKey(sites[i]), SiteKey(sites[j]))
    {
      ProductAscends(Dims(c, kind), i, j);
      ComesBehind(StageOf(kind), coords[i], coords[j]);
    }
  }

  lemma HoldoutAscends(c: Campaign, r: nat)
    ensures SitesAscend(HoldoutSites(c, r))
  {
    hide Product, Comes;
    var dims := [|c.holdout|, |HOLDOUT_ARMS|];
    var coords, sites := Product(dims), HoldoutSites(c, r);
    forall i, j | 0 <= i < j < |sites|
      ensures Comes(SiteKey(sites[i]), SiteKey(sites[j]))
    {
      ProductAscends(dims, i, j);
      ComesBehind(0, coords[i], coords[j]);
      ComesBehind(r, [0] + coords[i], [0] + coords[j]);
      ComesBehind(8, [r] + ([0] + coords[i]), [r] + ([0] + coords[j]));
      LateKey(Holdout, r, 0, coords[i]);
      LateKey(Holdout, r, 0, coords[j]);
    }
  }

  lemma LateKey(kind: Kind, r: nat, mark: int, rest: Coord)
    requires (kind == Holdout && mark == 0) || (kind == PureAtBSample && mark == 1)
    ensures SiteKey(Site(kind, [r] + rest)) == [8] + ([r] + ([mark] + rest))
  {
    assert ([r] + rest)[1..] == rest;
    assert [8, r, mark] + rest == [8] + ([r] + ([mark] + rest));
  }

  lemma {:induction false} SamplesAscend(c: Campaign, r: nat, t: nat)
    requires t <= |c.holdout|
    ensures SitesAscend(SampleSites(c, r, t))
    decreases t
  {
    hide Comes, SiteKey;
    if t > 0 {
      SamplesAscend(c, r, t - 1);
      var n := SampleCount(c, c.holdout[t - 1]);
      var row := SampleRow(r, t - 1, n);
      forall i, j | 0 <= i < j < |row|
        ensures Comes(SiteKey(row[i]), SiteKey(row[j]))
      {
        SampleKeys(r, t - 1, i, t - 1, j);
      }
      forall x, y | x in SampleSites(c, r, t - 1) && y in row
        ensures Comes(SiteKey(x), SiteKey(y))
      {
        SampleShape(c, r, t - 1, x);
        var j :| 0 <= j < |row| && row[j] == y;
        SampleKeys(r, x.at[1], x.at[2], t - 1, j);
      }
      SitesJoin(SampleSites(c, r, t - 1), row);
    }
  }

  lemma SampleKeys(r: nat, t: nat, s: nat, t': nat, s': nat)
    requires t < t' || (t == t' && s < s')
    ensures Comes(SiteKey(Site(PureAtBSample, [r, t, s])), SiteKey(Site(PureAtBSample, [r, t', s'])))
  {
    assert [r, t, s] == [r] + [t, s] && [r, t', s'] == [r] + [t', s'];
    LateKey(PureAtBSample, r, 1, [t, s]);
    LateKey(PureAtBSample, r, 1, [t', s']);
    PairComes(t, s, t', s');
    ComesBehind(1, [t, s], [t', s']);
    ComesBehind(r, [1] + [t, s], [1] + [t', s']);
    ComesBehind(8, [r] + ([1] + [t, s]), [r] + ([1] + [t', s']));
  }

  lemma PairComes(t: nat, s: nat, t': nat, s': nat)
    requires t < t' || (t == t' && s < s')
    ensures Comes([t, s], [t', s'])
  {
    assert [t, s][1..] == [s] && [t', s'][1..] == [s'];
    assert [s][1..] == [] && [s'][1..] == [];
    assert TextLeq([s][1..], [s'][1..]);
    assert [t, s][0] == t && [t', s'][0] == t' && [t, s][1] == s && [t', s'][1] == s';
  }

  lemma {:induction false} SampleShape(c: Campaign, r: nat, t: nat, x: Site)
    requires t <= |c.holdout| && x in SampleSites(c, r, t)
    ensures |x.at| == 3 && x == Site(PureAtBSample, [r, x.at[1], x.at[2]]) && x.at[1] < t
    decreases t
  {
    if x in SampleSites(c, r, t - 1) {
      SampleShape(c, r, t - 1, x);
    }
  }

  /** The keys of one replicate's evaluations start with 8 and the replicate. */
  lemma EvaluationKey(c: Campaign, r: nat, x: Site)
    requires r <= |c.replicates| && x in EvaluationSites(c, r)
    ensures |SiteKey(x)| == 5 && SiteKey(x)[0] == 8 && 0 <= SiteKey(x)[1] < r
  {
    EvaluationSitesMembers(c, r, x);
  }

  lemma {:induction false} EvaluationAscends(c: Campaign, r: nat)
    requires r <= |c.replicates|
    ensures SitesAscend(EvaluationSites(c, r))
    decreases r
  {
    hide SiteKey, Comes, HoldoutSites, SampleSites;
    if r > 0 {
      EvaluationAscends(c, r - 1);
      HoldoutAscends(c, r - 1);
      SamplesAscend(c, r - 1, |c.holdout|);
      var early, holdout := EvaluationSites(c, r - 1), HoldoutSites(c, r - 1);
      var samples := SampleSites(c, r - 1, |c.holdout|);
      forall x, y | x in holdout && y in samples
        ensures Comes(SiteKey(x), SiteKey(y))
      {
        HoldoutSitesMembers(c, r - 1, x);
        SampleShape(c, r - 1, |c.holdout|, y);
        LateComes(x, y);
      }
      SitesJoin(holdout, samples);
      forall x, y | x in early && y in holdout + samples
        ensures Comes(SiteKey(x), SiteKey(y))
      {
        EvaluationKey(c, r - 1, x);
        if y in holdout {
          HoldoutSitesMembers(c, r - 1, y);
        } else {
          SampleShape(c, r - 1, |c.holdout|, y);
        }
        LaterReplicate(x, y, r - 1);
      }
      SitesJoin(early, holdout + samples);
      assert early + (holdout + samples) == EvaluationSites(c, r);
    }
  }

  lemma LateComes(x: Site, y: Site)
    requires x.kind == Holdout && y.kind == PureAtBSample && x.at != [] && y.at != [] && x.at[0] == y.at[0]
    ensures Comes(SiteKey(x), SiteKey(y))
  {
    var r, u, v := x.at[0], x.at[1..], y.at[1..];
    assert x == Site(Holdout, [r] + u) && y == Site(PureAtBSample, [r] + v);
    LateKey(Holdout, r, 0, u);
    LateKey(PureAtBSample, r, 1, v);
    assert ([0] + u)[0] == 0 && ([1] + v)[0] == 1;
    ComesBehind(r, [0] + u, [1] + v);
    ComesBehind(8, [r] + ([0] + u), [r] + ([1] + v));
  }

  lemma LaterReplicate(x: Site, y: Site, r: nat)
    requires |SiteKey(x)| == 5 && SiteKey(x)[0] == 8 && SiteKey(x)[1] < r
    requires (y.kind == Holdout || y.kind == PureAtBSample) && y.at != [] && y.at[0] == r
    ensures Comes(SiteKey(x), SiteKey(y))
  {
    var a, b := SiteKey(x), SiteKey(y);
    assert b[0] == 8 && b[1..][0] == r && a[1..][0] < r;
  }

  lemma StagesCome(x: Site, y: Site)
    requires StageOf(x.kind) < StageOf(y.kind)
    ensures Comes(SiteKey(x), SiteKey(y))
  {
    assert SiteKey(x)[0] == StageOf(x.kind) && SiteKey(y)[0] == StageOf(y.kind);
  }

  lemma AddStage(c: Campaign, before: seq<Site>, kind: Kind)
    requires kind != PureAtBSample && kind != Holdout
    requires SitesAscend(before) && forall x :: x in before ==> StageOf(x.kind) < StageOf(kind)
    ensures SitesAscend(before + StageSites(c, kind))
    ensures forall x :: x in before + StageSites(c, kind) ==> StageOf(x.kind) <= StageOf(kind)
  {
    hide Comes, SiteKey, StageSites;
    StageAscends(c, kind);
    forall y | y in StageSites(c, kind) ensures y.kind == kind {
      StageSitesMembers(c, kind, y);
    }
    forall x, y | x in before && y in StageSites(c, kind)
      ensures Comes(SiteKey(x), SiteKey(y))
    {
      StagesCome(x, y);
    }
    SitesJoin(before, StageSites(c, kind));
  }

  lemma AllSitesAscend(c: Campaign)
    ensures SitesAscend(Sites(c))
  {
    hide Comes, SiteKey, StageSites, EvaluationSites, SitesAscend;
    var sites: seq<Site> := [];
    NoSitesAscend();
    AddStage(c, sites, ParentFit);
    sites := sites + StageSites(c, ParentFit);
    AddStage(c, sites, Diagnosis);
    sites := sites + StageSites(c, Diagnosis);
    AddStage(c, sites, Proposal);
    sites := sites + StageSites(c, Proposal);
    AddStage(c, sites, CandidateFit);
    sites := sites + StageSites(c, CandidateFit);
    AddStage(c, sites, Nomination);
    sites := sites + StageSites(c, Nomination);
    AddStage(c, sites, Gate);
    sites := sites + StageSites(c, Gate);
    AddStage(c, sites, GateDecision);
    sites := sites + StageSites(c, GateDecision);
    var late := EvaluationSites(c, |c.replicates|);
    EvaluationAscends(c, |c.replicates|);
    forall x, y | x in sites && y in late
      ensures Comes(SiteKey(x), SiteKey(y))
    {
      EvaluationSitesMembers(c, |c.replicates|, y);
      StagesCome(x, y);
    }
    SitesJoin(sites, late);
    assert sites + late == Sites(c);
  }

  lemma NoSitesAscend()
    ensures SitesAscend([])
  {
  }

  /** The plan lists its nodes in ascending order of their places. */
  lemma PlanAscends(c: Campaign, i: nat, j: nat)
    requires c.Distinct() && i < j < |Drafts(c)|
    ensures IsNode(c, Drafts(c)[i].id) && IsNode(c, Drafts(c)[j].id)
    ensures Comes(PlanKey(c, Drafts(c)[i].id), PlanKey(c, Drafts(c)[j].id))
  {
    hide Comes, SiteKey, PlanKey, Drafts, Sites, IsNode, Valid, IdAt;
    DraftIndex(c, i);
    DraftIndex(c, j);
    AllSitesAscend(c);
    KeysAgree(c, Sites(c)[i]);
    KeysAgree(c, Sites(c)[j]);
  }

  // ---------------------------------------------------------------- what a draft says

  /** Everything a draft carries beside its references, from its identity. */
  ghost predicate DraftSays(c: Campaign, d: Draft) {
    var id := d.id;
    && (exists r :: 0 <= r < |c.replicates| && c.replicates[r].id == id.replicate && c.replicates[r].outerSeed == d.outerSeed)
    && d.graderFeedback == (id.kind == Diagnosis || id.kind == Proposal)
    && d.typedEdit == (id.kind == Proposal || id.kind == CandidateFit)
    && (d.feedback == ScoreOnly <==> d.graderFeedback && id.arm == Score)
    && (d.feedback == CandidateSafeFull <==> d.graderFeedback && id.arm == Full)
    && match id.kind
       case ParentFit =>
         && d.stage == 1 && d.harness == ParentHarness
         && id.task.Some? && id.rollout.Some? && d.seed == Some(FitEvaluation(id.task.value, id.rollout.value))
       case Diagnosis =>
         && d.stage == 2 && id.pipeline.Some? && d.harness == DiagnosisPipeline(id.pipeline.value)
         && d.seed == Some(DiagnosisController(id.pipeline.value))
       case Proposal =>
         && d.stage == 3 && id.pipeline.Some? && d.harness == TypedProposal(id.pipeline.value)
         && d.seed == Some(ProposalController(id.pipeline.value))
       case CandidateFit =>
         && d.stage == 4 && id.candidate.Some? && d.harness == CandidateOrParent(id.candidate.value)
         && id.task.Some? && id.rollout.Some? && d.seed == Some(FitEvaluation(id.task.value, id.rollout.value))
       case Nomination => d.stage == 5 && d.harness == NominationRule && d.seed == None
       case Gate =>
         && d.stage == 6 && id.variant.Some? && d.harness == GateHarness(id.variant.value)
         && id.task.Some? && id.rollout.Some? && d.seed == Some(GateEvaluation(id.task.value, id.rollout.value))
       case GateDecision => d.stage == 7 && d.harness == PromotionRule && d.seed == None
       case Holdout =>
         && d.stage == 8 && id.task.Some? && d.seed == Some(HoldoutEvaluation(id.task.value))
         && (id.arm == Pure ==> d.harness == Bare) && (id.arm == Static ==> d.harness == StaticFrozen)
         && (id.arm == Score || id.arm == Full ==> d.harness == SelectedOrParent)
       case PureAtBSample =>
         && d.stage == 8 && id.sample.Some? && d.harness == BareSample(id.sample.value)
         && id.task.Some? && d.seed == Some(PureAtBEvaluation(id.task.value, id.sample.value))
  }

  lemma DraftsSay(c: Campaign, i: nat)
    requires i < |Drafts(c)|
    ensures DraftSays(c, Drafts(c)[i])
  {
    hide Drafts, Sites, DependsOn, Evidence, SampleCount;
    DraftIndex(c, i);
    var site := Sites(c)[i];
    assert |site.at| > 0 && site.at[0] < Dims(c, site.kind)[0];
  }

  // ---------------------------------------------------------------- which calls share a seed

  predicate IsFit(kind: Kind) {
    kind == ParentFit || kind == CandidateFit
  }

  /** Two calls are given one seed coordinate: paired FIT calls, paired GATE calls, matched HOLDOUT calls, and otherwise
      only controllers of one pipeline or one and the same sample. */
  predicate SharesSeed(a: NodeId, b: NodeId) {
    || (IsFit(a.kind) && IsFit(b.kind) && a.task == b.task && a.rollout == b.rollout)
    || (a.kind == b.kind == Gate && a.task == b.task && a.rollout == b.rollout)
    || (a.kind == b.kind == Holdout && a.task == b.task)
    || (a.kind == b.kind == Diagnosis && a.pipeline == b.pipeline)
    || (a.kind == b.kind == Proposal && a.pipeline == b.pipeline)
    || (a.kind == b.kind == PureAtBSample && a.task == b.task && a.sample == b.sample)
  }

  /** Two calls have one seed coordinate exactly when they are meant to. */
  lemma SeedsExactly(c: Campaign, i: nat, j: nat)
    requires i < |Drafts(c)| && j < |Drafts(c)|
    requires Drafts(c)[i].seed.Some? && Drafts(c)[j].seed.Some?
    ensures Drafts(c)[i].seed == Drafts(c)[j].seed <==> SharesSeed(Drafts(c)[i].id, Drafts(c)[j].id)
  {
    hide Drafts;
    DraftsSay(c, i);
    DraftsSay(c, j);
  }

  /** No two outer seeds and coordinates are hashed to one provider seed. */
  ghost predicate SeparatesSeeds(seedOf: (int, SeedCoordinate) -> int) {
    forall s, x, t, y :: seedOf(s, x) == seedOf(t, y) ==> s == t && x == y
  }

  /** With such a seed function two calls have one provider seed exactly when they share it within one outer seed. */
  lemma ProviderSeedsExactly(c: Campaign, nodes: seq<Node>, seedOf: (int, SeedCoordinate) -> int, i: nat, j: nat)
    requires Numbered(Drafts(c), nodes, seedOf) && SeparatesSeeds(seedOf)
    requires i < |nodes| && j < |nodes| && nodes[i].providerSeed.Some? && nodes[j].providerSeed.Some?
    ensures nodes[i].providerSeed == nodes[j].providerSeed
       <==> nodes[i].draft.outerSeed == nodes[j].draft.outerSeed && SharesSeed(nodes[i].draft.id, nodes[j].draft.id)
  {
    hide Drafts, SharesSeed;
    assert NumberedAt(Drafts(c), i, nodes[i], seedOf) && NumberedAt(Drafts(c), j, nodes[j], seedOf);
    SeedsExactly(c, i, j);
  }

  // ---------------------------------------------------------------- what a node waits for

  /** The barrier in front of a node: whole stages of every replicate and arm, and its own arm's controls. */
  predicate Awaits(reader: NodeId, source: NodeId) {
    var own := source.replicate == reader.replicate && source.arm == reader.arm;
    match reader.kind
    case ParentFit => false
    case Diagnosis => source.kind == ParentFit
    case Proposal => source.kind == Diagnosis
    case CandidateFit => source.kind == Proposal
    case Nomination => source.kind == CandidateFit || (own && (source.kind == ParentFit || source.kind == Proposal))
    case Gate => source.kind == Nomination
    case GateDecision => source.kind == Gate || (own && source.kind == Nomination)
    case Holdout => source.kind == GateDecision
    case PureAtBSample => source.kind == GateDecision
  }

  lemma AwaitsAtSite(c: Campaign, site: Site, d: NodeId)
    requires Valid(c, site)
    ensures d in DependsOn(c, site) <==> d.kind != PureAtBSample && d in StageIds(c, d.kind) && Awaits(IdAt(c, site), d)
  {
    hide StageIds, Valid, IdAt, Own, Unique;
    KindOfIdentity(c, site);
    if d.kind == Nomination && d in StageIds(c, d.kind) {
      OwnControl(c, d.kind, d);
    }
    if site.kind == GateDecision {
      OwnControl(c, Nomination, OwnNomination(c, site));
    }
  }

  /** A node depends on exactly the nodes it has to wait for. */
  lemma DependenciesExactly(c: Campaign, i: nat, d: NodeId)
    requires i < |Drafts(c)|
    ensures d in Drafts(c)[i].dependsOn <==> d in Ids(Drafts(c)) && Awaits(Drafts(c)[i].id, d)
  {
    hide StageIds, Valid, DependsOn, Drafts, Sites;
    DraftIndex(c, i);
    AwaitsAtSite(c, Sites(c)[i], d);
    DraftIds(c, d);
    if d.kind != PureAtBSample {
      StageIdsExactly(c, d.kind, d);
      if d in Ids(Drafts(c)) {
        var s :| Valid(c, s) && IdAt(c, s) == d;
        KindOfIdentity(c, s);
      }
    }
  }
}
