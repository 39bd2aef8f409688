/**
 Call budgets: how many calls every arm of every replicate receives, counted along the
 emitted plan and compared with closed formulas in the campaign sizes.
 */
module CampaignCounts {
  import opened Prelude
  import opened RowMajor
  import opened Sorting
  import opened CampaignContracts
  import opened CampaignPlan
  import opened CampaignFlow
  import opened CampaignSlots

  // ---------------------------------------------------------------- PURE@B allocation

  function TotalSamples(c: Campaign, tasks: seq<int>): nat {
    if tasks == [] then 0 else TotalSamples(c, tasks[..|tasks| - 1]) + SampleCount(c, tasks[|tasks| - 1])
  }

  function Least(a: nat, b: nat): nat {
    if a < b then a else b
  }

  lemma RankedTasks(c: Campaign)
    ensures multiset(SortBy(c.holdout, PriorityKey(c))) == multiset(c.holdout)
    ensures |SortBy(c.holdout, PriorityKey(c))| == |c.holdout|
    ensures |RemainderTasks(c)| == Least(c.remainderSamples, |c.holdout|)
    ensures forall t :: t in RemainderTasks(c) ==> t in c.holdout
  {
    var ranked := SortBy(c.holdout, PriorityKey(c));
    SortByCorrect(c.holdout, PriorityKey(c));
    forall t | t in RemainderTasks(c)
      ensures t in c.holdout
    {
      assert t in ranked;
      assert t in multiset(ranked);
    }
  }

  /** The remainder goes to the tasks lowest by (priority, task), one extra sample each. */
  lemma RemainderIsLowest(c: Campaign, chosen: int, other: int)
    requires chosen in RemainderTasks(c) && other in c.holdout && other !in RemainderTasks(c)
    ensures chosen in c.holdout
    ensures Leq(Key(c.priority(chosen), chosen), Key(c.priority(other), other))
  {
    RankedTasks(c);
    SortByCorrect(c.holdout, PriorityKey(c));
    var ranked, first := SortBy(c.holdout, PriorityKey(c)), RemainderTasks(c);
    assert other in multiset(ranked);
    var i :| 0 <= i < |first| && first[i] == chosen;
    var j :| 0 <= j < |ranked| && ranked[j] == other;
    assert forall q :: 0 <= q < |first| ==> ranked[q] in first;
    assert Leq(PriorityKey(c)(ranked[i]), PriorityKey(c)(ranked[j]));
  }

  function Extras(c: Campaign, tasks: seq<int>): set<int> {
    set t | t in tasks && t in RemainderTasks(c)
  }

  lemma ExtrasGrow(c: Campaign, tasks: seq<int>, t: int)
    requires t !in tasks
    ensures |Extras(c, tasks + [t])| == |Extras(c, tasks)| + if t in RemainderTasks(c) then 1 else 0
  {
    hide RemainderTasks;
    var before, after := Extras(c, tasks), Extras(c, tasks + [t]);
    assert after == if t in RemainderTasks(c) then before + {t} else before;
  }

  function BaseTotal(c: Campaign, tasks: nat): nat {
    c.baseSamples * tasks
  }

  lemma BaseStep(c: Campaign, tasks: nat)
    ensures BaseTotal(c, tasks + 1) == BaseTotal(c, tasks) + c.baseSamples && BaseTotal(c, 0) == 0
  {
  }

  lemma NothingToSample(c: Campaign)
    ensures Extras(c, []) == {} && TotalSamples(c, []) == 0
  {
  }

  lemma LastIsFresh(tasks: seq<int>)
    requires NoDuplicates(tasks) && tasks != []
    ensures NoDuplicates(tasks[..|tasks| - 1]) && tasks[|tasks| - 1] !in tasks[..|tasks| - 1]
  {
  }

  lemma SamplesGrow(c: Campaign, tasks: seq<int>, t: int)
    ensures TotalSamples(c, tasks + [t])
         == TotalSamples(c, tasks) + c.baseSamples + if t in RemainderTasks(c) then 1 else 0
  {
    hide RemainderTasks;
    assert (tasks + [t])[..|tasks|] == tasks;
  }

  /** Among distinct tasks, the remainder tasks get one sample more than the base. */
  lemma {:induction false} SamplesOfDistinct(c: Campaign, tasks: seq<int>)
    requires NoDuplicates(tasks)
    ensures TotalSamples(c, tasks) == BaseTotal(c, |tasks|) + |Extras(c, tasks)|
    decreases |tasks|
  {
    hide *;
    BaseStep(c, if tasks == [] then 0 else |tasks| - 1);
    if tasks == [] {
      NothingToSample(c);
    } else {
      var shorter, last := tasks[..|tasks| - 1], tasks[|tasks| - 1];
      assert tasks == shorter + [last];
      LastIsFresh(tasks);
      SamplesOfDistinct(c, shorter);
      ExtrasGrow(c, shorter, last);
      SamplesGrow(c, shorter, last);
    }
  }

  lemma {:induction false} DistinctCount(s: seq<int>)
    requires NoDuplicates(s)
    ensures |set t | t in s| == |s|
    decreases |s|
  {
    if s != [] {
      var shorter, last := s[..|s| - 1], s[|s| - 1];
      DistinctCount(shorter);
      assert last !in shorter;
      assert (set t | t in s) == (set t | t in shorter) + {last};
    }
  }

  lemma TwiceCounted(b: seq<int>, i: nat, j: nat)
    requires i < j < |b| && b[i] == b[j]
    ensures multiset(b)[b[i]] >= 2
  {
    assert b == b[..i] + [b[i]] + b[i + 1..j] + [b[j]] + b[j + 1..];
  }

  lemma PermutationDistinct(a: seq<int>, b: seq<int>)
    requires NoDuplicates(a) && multiset(a) == multiset(b)
    ensures NoDuplicates(b)
  {
    forall i, j | 0 <= i < j < |b|
      ensures b[i] != b[j]
    {
      if b[i] == b[j] {
        TwiceCounted(b, i, j);
        MultisetOfDistinct(a, b[i]);
      }
    }
  }

  lemma {:induction false} MultisetOfDistinct(a: seq<int>, x: int)
    requires NoDuplicates(a)
    ensures multiset(a)[x] <= 1
    decreases |a|
  {
    if a != [] {
      var shorter, last := a[..|a| - 1], a[|a| - 1];
      MultisetOfDistinct(shorter, x);
      assert a == shorter + [last];
      assert last !in shorter;
    }
  }

  /** One replicate's PURE@B arm: the base for every task and one extra for the lowest ones. */
  lemma SampleTotal(c: Campaign)
    requires NoDuplicates(c.holdout)
    ensures TotalSamples(c, c.holdout) == c.baseSamples * |c.holdout| + Least(c.remainderSamples, |c.holdout|)
  {
    SamplesOfDistinct(c, c.holdout);
    RankedTasks(c);
    var ranked, first := SortBy(c.holdout, PriorityKey(c)), RemainderTasks(c);
    PermutationDistinct(c.holdout, ranked);
    assert NoDuplicates(first);
    DistinctCount(first);
    assert Extras(c, c.holdout) == (set t | t in first);
  }

  // ---------------------------------------------------------------- calls per arm

  predicate Charged(c: Campaign, r: nat, arm: Arm, site: Site)
    requires Valid(c, site)
  {
    assert site.at[0] < Dims(c, site.kind)[0];
    site.at[0] == r && ArmAt(c, site) == arm && IsModelCall(site.kind)
  }

  /** How many of the sites are calls of one arm of replicate `r`. */
  function Charges(c: Campaign, r: nat, arm: Arm, sites: seq<Site>): nat
    requires AllValid(c, sites)
  {
    if sites == [] then 0
    else
      var shorter, last := sites[..|sites| - 1], sites[|sites| - 1];
      assert forall s :: s in shorter ==> s in sites;
      assert last in sites;
      Charges(c, r, arm, shorter) + if Charged(c, r, arm, last) then 1 else 0
  }

  lemma ChargedDraft(c: Campaign, r: nat, arm: Arm, site: Site)
    requires c.Distinct() && Valid(c, site) && r < |c.replicates|
    ensures In(CallsOfArm(c.replicates[r].id, arm), DraftAt(c, site)) <==> Charged(c, r, arm, site)
  {
    hide SampleCount, DependsOn, Evidence, HarnessAt;
    FirstCoordinate(c, site);
  }

  lemma {:induction false} DraftCharges(c: Campaign, r: nat, arm: Arm, sites: seq<Site>)
    requires c.Distinct() && AllValid(c, sites) && r < |c.replicates|
    ensures Count(DraftsOf(c, sites), CallsOfArm(c.replicates[r].id, arm)) == Charges(c, r, arm, sites)
    decreases |sites|
  {
    hide Valid, In, Charged, DraftAt;
    var g := CallsOfArm(c.replicates[r].id, arm);
    if sites != [] {
      var shorter, last := sites[..|sites| - 1], sites[|sites| - 1];
      assert forall s :: s in shorter ==> s in sites;
      assert last in sites;
      DraftCharges(c, r, arm, shorter);
      ChargedDraft(c, r, arm, last);
      assert DraftsOf(c, sites)[..|sites| - 1] == DraftsOf(c, shorter);
    }
  }

  lemma {:induction false} ChargesJoin(c: Campaign, r: nat, arm: Arm, a: seq<Site>, b: seq<Site>)
    requires AllValid(c, a) && AllValid(c, b)
    ensures AllValid(c, a + b)
    ensures Charges(c, r, arm, a + b) == Charges(c, r, arm, a) + Charges(c, r, arm, b)
    decreases |b|
  {
    hide Valid, Charged;
    if b == [] {
      assert a + b == a;
    } else {
      var shorter := b[..|b| - 1];
      assert (a + b)[..|a + b| - 1] == a + shorter;
      assert forall s :: s in shorter ==> s in b;
      ChargesJoin(c, r, arm, a, shorter);
    }
  }

  lemma ChargedByArm(c: Campaign, r: nat, arm: Arm, site: Site)
    requires Valid(c, site)
    ensures site.at != [] && (Charged(c, r, arm, site) <==> site.at[0] == r && ArmAt(c, site) == arm && IsModelCall(site.kind))
  {
    hide Valid, ArmAt;
    FirstCoordinate(c, site);
  }

  /** A stretch of sites of one kind and one replicate is charged by its last coordinate. */
  lemma {:induction false} ChargesOfRow(
    c: Campaign, kind: Kind, r: nat, r': nat, arms: seq<Arm>, y: nat, rest: seq<Coord>)
    requires IsModelCall(kind) && kind != PureAtBSample && y < |arms|
    requires arms == if kind == Holdout then HOLDOUT_ARMS else ADAPTIVE_ARMS
    requires (forall v :: v in rest ==> v != []) && AllValid(c, Tag(kind, Prepend(r', rest)))
    ensures Charges(c, r, arms[y], Tag(kind, Prepend(r', rest))) == if r == r' then EndingIn(rest, y) else 0
    decreases |rest|
  {
    hide Valid, ArmAt, Charged;
    var sites := Tag(kind, Prepend(r', rest));
    if rest != [] {
      var shorter, last := rest[..|rest| - 1], rest[|rest| - 1];
      assert last in rest && forall v :: v in shorter ==> v in rest;
      var fewer := Tag(kind, Prepend(r', shorter));
      assert sites[..|sites| - 1] == fewer;
      assert forall s :: s in fewer ==> s in sites;
      ChargesOfRow(c, kind, r, r', arms, y, shorter);
      var site := sites[|sites| - 1];
      assert site in sites;
      assert site.at == [r'] + last;
      ArmOfLast(c, site, arms, y);
      assert site.at[|site.at| - 1] == last[|last| - 1];
      ChargedByArm(c, r, arms[y], site);
    }
  }

  lemma ArmOfLast(c: Campaign, site: Site, arms: seq<Arm>, y: nat)
    requires Valid(c, site) && site.kind != PureAtBSample && y < |arms|
    requires arms == if site.kind == Holdout then HOLDOUT_ARMS else ADAPTIVE_ARMS
    ensures |site.at| == |Dims(c, site.kind)| && site.at != []
    ensures ArmAt(c, site) == arms[y] <==> site.at[|site.at| - 1] == y
  {
    hide SampleCount;
    var dims := Dims(c, site.kind);
    assert site.at[|dims| - 1] < dims[|dims| - 1];
  }

  lemma NoSitesNoCharges(c: Campaign, r: nat, arm: Arm)
    ensures Charges(c, r, arm, []) == 0
  {
  }

  lemma HoldoutIsNotSampled(c: Campaign, s: Site)
    requires Valid(c, s) && s.kind == Holdout
    ensures ArmAt(c, s) != PureAtB
  {
    hide SampleCount;
  }

  lemma {:induction false} NothingCharged(c: Campaign, r: nat, arm: Arm, sites: seq<Site>)
    requires AllValid(c, sites)
    requires forall s :: s in sites ==> ArmAt(c, s) != arm || !IsModelCall(s.kind)
    ensures Charges(c, r, arm, sites) == 0
    decreases |sites|
  {
    hide Valid, ArmAt;
    if sites != [] {
      var shorter, last := sites[..|sites| - 1], sites[|sites| - 1];
      assert last in sites && forall s :: s in shorter ==> s in sites;
      NothingCharged(c, r, arm, shorter);
    }
  }

  /** A stage's sites in the first `k` replicates, and those of replicate `k`. */
  function SitesBelow(c: Campaign, kind: Kind, k: nat): seq<Site> {
    Tag(kind, Rows(Dims(c, kind), k))
  }

  function SitesOfReplicate(c: Campaign, kind: Kind, k: nat): seq<Site> {
    Tag(kind, Prepend(k, Product(Dims(c, kind)[1..])))
  }

  lemma OneMoreReplicate(c: Campaign, kind: Kind, k: nat)
    ensures SitesBelow(c, kind, k + 1) == SitesBelow(c, kind, k) + SitesOfReplicate(c, kind, k)
    ensures SitesBelow(c, kind, 0) == []
  {
    hide Product;
  }

  lemma SitesBelowValid(c: Campaign, kind: Kind, k: nat)
    requires kind != PureAtBSample && k <= |c.replicates|
    ensures AllValid(c, SitesBelow(c, kind, k))
  {
    hide Product, Rows;
    var dims := Dims(c, kind);
    var coords := Rows(dims, k);
    forall s | s in Tag(kind, coords)
      ensures Valid(c, s)
    {
      var i :| 0 <= i < |coords| && Tag(kind, coords)[i] == s;
      assert coords[i] in coords;
      RowsMembers(dims, k, coords[i]);
      assert forall j :: 0 < j < |dims| ==> s.at[j] == s.at[1..][j - 1] && dims[j] == dims[1..][j - 1];
    }
  }

  lemma InnerNonEmpty(dims: seq<nat>)
    requires dims != []
    ensures forall v :: v in Product(dims) ==> v != []
  {
    forall v | v in Product(dims)
      ensures v != []
    {
      ProductMembers(dims, v);
    }
  }

  /** One replicate's calls of one stage, per adaptive arm. */
  function StageCalls(c: Campaign, kind: Kind): nat
    requires kind != PureAtBSample
  {
    if IsModelCall(kind) then Volume(Dims(c, kind)[1..|Dims(c, kind)| - 1]) else 0
  }

  predicate IsAdaptive(arm: Arm) {
    arm == Score || arm == Full
  }

  /** One replicate's row of a stage holds as many calls for each of its arms. */
  lemma ChargesOfReplicate(c: Campaign, kind: Kind, r: nat, k: nat, arm: Arm)
    requires IsModelCall(kind) && kind != PureAtBSample && kind != Holdout && IsAdaptive(arm)
    requires k < |c.replicates| && AllValid(c, SitesOfReplicate(c, kind, k))
    ensures Charges(c, r, arm, SitesOfReplicate(c, kind, k)) == if r == k then StageCalls(c, kind) else 0
  {
    hide Valid, Charges, Product, EndingIn, Volume;
    var dims, y := Dims(c, kind), if arm == Score then 0 else 1;
    InnerNonEmpty(dims[1..]);
    ProductEndingIn(dims[1..], y);
    assert dims[1..][..|dims| - 2] == dims[1..|dims| - 1];
    ChargesOfRow(c, kind, r, k, ADAPTIVE_ARMS, y, Product(dims[1..]));
  }

  lemma {:induction false} ChargesBelow(c: Campaign, kind: Kind, r: nat, k: nat, arm: Arm)
    requires IsModelCall(kind) && kind != PureAtBSample && kind != Holdout && IsAdaptive(arm)
    requires k <= |c.replicates|
    ensures AllValid(c, SitesBelow(c, kind, k))
    ensures Charges(c, r, arm, SitesBelow(c, kind, k)) == if r < k then StageCalls(c, kind) else 0
    decreases k
  {
    hide Valid, Charges, StageCalls, SitesBelow, SitesOfReplicate;
    SitesBelowValid(c, kind, k);
    if k == 0 {
      OneMoreReplicate(c, kind, 0);
      NoSitesNoCharges(c, r, arm);
    } else {
      ChargesBelow(c, kind, r, k - 1, arm);
      OneMoreReplicate(c, kind, k - 1);
      var before, row := SitesBelow(c, kind, k - 1), SitesOfReplicate(c, kind, k - 1);
      assert forall s :: s in row ==> s in before + row;
      ChargesJoin(c, r, arm, before, row);
      ChargesOfReplicate(c, kind, r, k - 1, arm);
    }
  }

  lemma StageCharges(c: Campaign, kind: Kind, r: nat, arm: Arm)
    requires kind != PureAtBSample && kind != Holdout && r < |c.replicates|
    ensures AllValid(c, StageSites(c, kind))
    ensures Charges(c, r, arm, StageSites(c, kind)) == if IsAdaptive(arm) then StageCalls(c, kind) else 0
  {
    hide Valid, Charges, Volume, Rows;
    var sites := StageSites(c, kind);
    assert sites == SitesBelow(c, kind, |c.replicates|);
    SitesBelowValid(c, kind, |c.replicates|);
    if IsModelCall(kind) && IsAdaptive(arm) {
      ChargesBelow(c, kind, r, |c.replicates|, arm);
    } else {
      forall s | s in sites
        ensures ArmAt(c, s) != arm || !IsModelCall(s.kind)
      {
        StageSitesMembers(c, kind, s);
        KindOfIdentity(c, s);
      }
      NothingCharged(c, r, arm, sites);
    }
  }

  // ---------------------------------------------------------------- the evaluation stage

  function HoldoutArm(arm: Arm): nat {
    if arm == Pure then 0 else if arm == Static then 1 else if arm == Score then 2 else 3
  }

  lemma HoldoutCharges(c: Campaign, r: nat, r': nat, arm: Arm)
    requires r' < |c.replicates|
    ensures AllValid(c, HoldoutSites(c, r'))
    ensures Charges(c, r, arm, HoldoutSites(c, r')) == if r == r' && arm != PureAtB then |c.holdout| else 0
  {
    hide Valid, Charges, Product, EndingIn;
    var dims := [|c.holdout|, |HOLDOUT_ARMS|];
    var sites := HoldoutSites(c, r');
    forall s | s in sites
      ensures Valid(c, s) && s.kind == Holdout
    {
      HoldoutSitesMembers(c, r', s);
    }
    if arm == PureAtB {
      forall s | s in sites
        ensures ArmAt(c, s) != arm
      {
        HoldoutIsNotSampled(c, s);
      }
      NothingCharged(c, r, arm, sites);
    } else {
      InnerNonEmpty(dims);
      ProductEndingIn(dims, HoldoutArm(arm));
      assert dims[..1] == [|c.holdout|];
      assert Volume([|c.holdout|]) == |c.holdout|;
      assert HOLDOUT_ARMS[HoldoutArm(arm)] == arm;
      ChargesOfRow(c, Holdout, r, r', HOLDOUT_ARMS, HoldoutArm(arm), Product(dims));
    }
  }

  lemma {:induction false} ChargesOfSamples(c: Campaign, r: nat, r': nat, arm: Arm, sites: seq<Site>)
    requires r' < |c.replicates| && AllValid(c, sites)
    requires forall s :: s in sites ==> s.kind == PureAtBSample && s.at[0] == r'
    ensures Charges(c, r, arm, sites) == if r == r' && arm == PureAtB then |sites| else 0
    decreases |sites|
  {
    hide SampleCount;
    if sites != [] {
      var shorter, last := sites[..|sites| - 1], sites[|sites| - 1];
      assert last in sites && forall s :: s in shorter ==> s in sites;
      ChargesOfSamples(c, r, r', arm, shorter);
    }
  }

  lemma {:induction false} SampleSitesCount(c: Campaign, r: nat, t: nat)
    requires t <= |c.holdout|
    ensures |SampleSites(c, r, t)| == TotalSamples(c, c.holdout[..t])
    decreases t
  {
    hide SampleCount;
    if t > 0 {
      SampleSitesCount(c, r, t - 1);
      assert c.holdout[..t][..t - 1] == c.holdout[..t - 1];
    }
  }

  lemma SampleCharges(c: Campaign, r: nat, r': nat, arm: Arm)
    requires r' < |c.replicates|
    ensures AllValid(c, SampleSites(c, r', |c.holdout|))
    ensures Charges(c, r, arm, SampleSites(c, r', |c.holdout|))
         == if r == r' && arm == PureAtB then TotalSamples(c, c.holdout) else 0
  {
    hide SampleCount, Charges;
    var sites := SampleSites(c, r', |c.holdout|);
    forall s | s in sites
      ensures Valid(c, s) && s.kind == PureAtBSample && s.at[0] == r'
    {
      SampleSitesMembers(c, r', |c.holdout|, s);
    }
    ChargesOfSamples(c, r, r', arm, sites);
    SampleSitesCount(c, r', |c.holdout|);
    assert c.holdout[..|c.holdout|] == c.holdout;
  }

  function EvaluationCalls(c: Campaign, arm: Arm): nat {
    if arm == PureAtB then TotalSamples(c, c.holdout) else |c.holdout|
  }

  lemma {:induction false} EvaluationCharges(c: Campaign, r: nat, k: nat, arm: Arm)
    requires k <= |c.replicates|
    ensures AllValid(c, EvaluationSites(c, k))
    ensures Charges(c, r, arm, EvaluationSites(c, k)) == if r < k then EvaluationCalls(c, arm) else 0
    decreases k
  {
    hide Valid, Charges, HoldoutSites, SampleSites, TotalSamples;
    if k == 0 {
      NoSitesNoCharges(c, r, arm);
    } else {
      EvaluationCharges(c, r, k - 1, arm);
      HoldoutCharges(c, r, k - 1, arm);
      SampleCharges(c, r, k - 1, arm);
      var before, holdout, samples :=
        EvaluationSites(c, k - 1), HoldoutSites(c, k - 1), SampleSites(c, k - 1, |c.holdout|);
      ChargesJoin(c, r, arm, before, holdout);
      ChargesJoin(c, r, arm, before + holdout, samples);
    }
  }

  // ---------------------------------------------------------------- budgets

  /** The calls one arm receives in one replicate. */
  function ArmCalls(c: Campaign, arm: Arm): nat {
    match arm
    case PureAtB => c.baseSamples * |c.holdout| + Least(c.remainderSamples, |c.holdout|)
    case Pure => |c.holdout|
    case Static => |c.holdout|
    case _ =>
      |c.fit| * c.fitRollouts + 2 * c.pipelines + c.pipelines * |c.fit| * c.fitRollouts
      + |c.gate| * c.gateRollouts * |GATE_VARIANTS| + |c.holdout|
  }

  lemma StageVolumes(c: Campaign)
    ensures StageCalls(c, ParentFit) == |c.fit| * c.fitRollouts
    ensures StageCalls(c, Diagnosis) == StageCalls(c, Proposal) == c.pipelines
    ensures StageCalls(c, CandidateFit) == c.pipelines * |c.fit| * c.fitRollouts
    ensures StageCalls(c, Nomination) == StageCalls(c, GateDecision) == 0
    ensures StageCalls(c, Gate) == |c.gate| * c.gateRollouts * |GATE_VARIANTS|
  {
    VolumeOfOne(c.pipelines);
    VolumeOfTwo(|c.fit|, c.fitRollouts);
    VolumeOfThree(c.pipelines, |c.fit|, c.fitRollouts);
    VolumeOfThree(|c.gate|, c.gateRollouts, |GATE_VARIANTS|);
    assert Dims(c, ParentFit)[1..3] == [|c.fit|, c.fitRollouts];
    assert Dims(c, Diagnosis)[1..2] == [c.pipelines] == Dims(c, Proposal)[1..2];
    assert Dims(c, CandidateFit)[1..4] == [c.pipelines, |c.fit|, c.fitRollouts];
    assert Dims(c, Gate)[1..4] == [|c.gate|, c.gateRollouts, |GATE_VARIANTS|];
  }

  lemma VolumeOfOne(x: nat)
    ensures Volume([x]) == x
  {
    assert [x][1..] == [];
  }

  lemma VolumeOfTwo(x: nat, y: nat)
    ensures Volume([x, y]) == x * y
  {
    VolumeOfOne(y);
    assert [x, y][1..] == [y];
  }

  lemma VolumeOfThree(x: nat, y: nat, z: nat)
    ensures Volume([x, y, z]) == x * y * z
  {
    VolumeOfTwo(y, z);
    assert [x, y, z][1..] == [y, z];
    assert x * (y * z) == x * y * z;
  }

  /** Every arm of every replicate receives exactly its budget of calls. */
  lemma ArmBudgets(c: Campaign, r: nat, arm: Arm)
    requires c.Distinct() && r < |c.replicates|
    ensures Count(Drafts(c), CallsOfArm(c.replicates[r].id, arm)) == ArmCalls(c, arm)
  {
    hide Valid, Charges, StageSites, EvaluationSites, TotalSamples, Count, StageCalls, DraftsOf;
    SitesValid(c);
    DraftCharges(c, r, arm, Sites(c));
    StageCharges(c, ParentFit, r, arm);
    StageCharges(c, Diagnosis, r, arm);
    StageCharges(c, Proposal, r, arm);
    StageCharges(c, CandidateFit, r, arm);
    StageCharges(c, Nomination, r, arm);
    StageCharges(c, Gate, r, arm);
    StageCharges(c, GateDecision, r, arm);
    EvaluationCharges(c, r, |c.replicates|, arm);
    var s := StageSites(c, ParentFit);
    ChargesJoin(c, r, arm, s, StageSites(c, Diagnosis));
    s := s + StageSites(c, Diagnosis);
    ChargesJoin(c, r, arm, s, StageSites(c, Proposal));
    s := s + StageSites(c, Proposal);
    ChargesJoin(c, r, arm, s, StageSites(c, CandidateFit));
    s := s + StageSites(c, CandidateFit);
    ChargesJoin(c, r, arm, s, StageSites(c, Nomination));
    s := s + StageSites(c, Nomination);
    ChargesJoin(c, r, arm, s, StageSites(c, Gate));
    s := s + StageSites(c, Gate);
    ChargesJoin(c, r, arm, s, StageSites(c, GateDecision));
    s := s + StageSites(c, GateDecision);
    ChargesJoin(c, r, arm, s, EvaluationSites(c, |c.replicates|));
    StageVolumes(c);
    SampleTotal(c);
  }

  /** The frozen sizes: five FIT, four GATE and sixteen HOLDOUT tasks, three pipelines, 6 + 14 samples. */
  ghost predicate FrozenSizes(c: Campaign) {
    && c.Distinct() && |c.replicates| == 3 && |c.fit| == 5 && |c.gate| == 4 && |c.holdout| == 16
    && c.fitRollouts == 2 && c.pipelines == 3 && c.gateRollouts == 3
    && c.baseSamples == 6 && c.remainderSamples == 14
  }

  /** With the frozen sizes the three treatment arms have matched budgets of 110 calls. */
  lemma BudgetsMatch(c: Campaign, r: nat)
    requires FrozenSizes(c) && r < 3
    ensures var budget := (arm: Arm) => Count(Drafts(c), CallsOfArm(c.replicates[r].id, arm));
            && budget(Score) == budget(Full) == budget(PureAtB) == 110
            && budget(Pure) == budget(Static) == 16
  {
    hide Drafts, Count;
    ArmBudgets(c, r, Score);
    ArmBudgets(c, r, Full);
    ArmBudgets(c, r, PureAtB);
    ArmBudgets(c, r, Pure);
    ArmBudgets(c, r, Static);
  }
}
