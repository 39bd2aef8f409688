/**
 The loop nests that emit the drafts, stage after stage, proved to emit the plan of
 `CampaignFlow.Drafts`. A stage in progress holds the drafts of all coordinates before its counters.
 */
module CampaignBuild {
  import opened Prelude
  import opened RowMajor
  import opened CampaignContracts
  import opened CampaignPlan
  import opened CampaignFlow

  // ---------------------------------------------------------------- loop counters and emitted drafts

  predicate Counters(c: Campaign, kind: Kind, v: Coord) {
    var dims := Dims(c, kind);
    && |v| <= |dims|
    && (forall i :: 0 <= i < |v| ==> v[i] <= dims[i])
    && (forall i :: 0 <= i < |v| - 1 ==> v[i] < dims[i])
  }

  lemma CountersValid(c: Campaign, kind: Kind, v: Coord)
    requires kind != PureAtBSample && Counters(c, kind, v)
    ensures AllValid(c, Tag(kind, Before(Dims(c, kind), v)))
  {
    var coords := Before(Dims(c, kind), v);
    var sites := Tag(kind, coords);
    forall s | s in sites
      ensures Valid(c, s)
    {
      var i :| 0 <= i < |sites| && sites[i] == s;
      assert coords[i] in coords;
      BeforeMembers(Dims(c, kind), v, coords[i]);
    }
  }

  /** What a stage's loop nest has emitted when its outer counters reach `v`. */
  function Emitted(c: Campaign, kind: Kind, v: Coord): seq<Draft>
    requires kind != PureAtBSample && Counters(c, kind, v)
  {
    CountersValid(c, kind, v);
    DraftsOf(c, Tag(kind, Before(Dims(c, kind), v)))
  }

  /** A stage's drafts. */
  function StageDrafts(c: Campaign, kind: Kind): seq<Draft>
    requires kind != PureAtBSample
  {
    Emitted(c, kind, [Dims(c, kind)[0]])
  }

  /** The loop-nest invariant. */
  ghost predicate Progress(c: Campaign, kind: Kind, v: Coord, drafts: seq<Draft>) {
    kind != PureAtBSample && Counters(c, kind, v) && drafts == Emitted(c, kind, v)
  }

  lemma Start(c: Campaign, kind: Kind)
    requires kind != PureAtBSample
    ensures Progress(c, kind, [0], [])
  {
    Deepen(Dims(c, kind), []);
    assert [] + [0] == [0];
  }

  lemma Enter(c: Campaign, kind: Kind, v: Coord, next: Coord, drafts: seq<Draft>)
    requires Progress(c, kind, v, drafts) && 0 < |v| < |Dims(c, kind)| && v[|v| - 1] < Dims(c, kind)[|v| - 1]
    requires next == v + [0]
    ensures Progress(c, kind, next, drafts)
  {
    hide Before, Rows, Dims, Valid, DraftsOf;
    Deepen(Dims(c, kind), v);
  }

  lemma Leave(c: Campaign, kind: Kind, v: Coord, next: Coord, drafts: seq<Draft>)
    requires Progress(c, kind, v, drafts) && |v| >= 2 && v[|v| - 1] == Dims(c, kind)[|v| - 1]
    requires next == v[..|v| - 2] + [v[|v| - 2] + 1]
    ensures Progress(c, kind, next, drafts)
  {
    hide Before, Rows, Dims, Valid, DraftsOf;
    var dims := Dims(c, kind);
    var u, x := v[..|v| - 2], v[|v| - 2];
    assert v == u + [x] + [dims[|u| + 1]];
    assert next == u + [x + 1];
    Carry(dims, u, x);
  }

  lemma Emit(c: Campaign, kind: Kind, v: Coord, next: Coord, drafts: seq<Draft>)
    requires Progress(c, kind, v, drafts) && |v| == |Dims(c, kind)| && v[|v| - 1] < Dims(c, kind)[|v| - 1]
    requires next == v[..|v| - 1] + [v[|v| - 1] + 1]
    ensures Valid(c, Site(kind, v)) && Progress(c, kind, next, drafts + [DraftAt(c, Site(kind, v))])
  {
    hide Before, Rows, Dims, SampleCount, DraftAt;
    var dims := Dims(c, kind);
    var u, x := v[..|v| - 1], v[|v| - 1];
    assert v == u + [x] && next == u + [x + 1];
    Step(dims, u, x);
    var before := Before(dims, v);
    assert Tag(kind, before + [v]) == Tag(kind, before) + [Site(kind, v)];
    CountersValid(c, kind, v);
    CountersValid(c, kind, next);
    DraftsAppend(c, Tag(kind, before), Site(kind, v));
  }

  lemma DraftsAppend(c: Campaign, sites: seq<Site>, site: Site)
    requires AllValid(c, sites) && Valid(c, site)
    ensures AllValid(c, sites + [site])
    ensures DraftsOf(c, sites + [site]) == DraftsOf(c, sites) + [DraftAt(c, site)]
  {
    hide Valid, DraftAt;
  }

  lemma Finish(c: Campaign, kind: Kind, v: Coord, drafts: seq<Draft>)
    requires Progress(c, kind, v, drafts) && v == [Dims(c, kind)[0]]
    ensures drafts == StageDrafts(c, kind)
  {
  }

  lemma StageDraftIds(c: Campaign, kind: Kind)
    requires kind != PureAtBSample
    ensures Ids(StageDrafts(c, kind)) == StageIds(c, kind)
  {
    hide SampleCount, IdAt;
    Complete(Dims(c, kind));
    CountersValid(c, kind, [Dims(c, kind)[0]]);
  }

  // ---------------------------------------------------------------- the loop nests

  method BuildParents(c: Campaign) returns (parents: seq<Draft>)
    ensures parents == StageDrafts(c, ParentFit)
  {
    hide Progress, Emitted, StageIds, SampleCount;
    parents := [];
    Start(c, ParentFit);
    for r := 0 to |c.replicates|
      invariant Progress(c, ParentFit, [r], parents)
    {
      Enter(c, ParentFit, [r], [r, 0], parents);
      for t := 0 to |c.fit|
        invariant Progress(c, ParentFit, [r, t], parents)
      {
        Enter(c, ParentFit, [r, t], [r, t, 0], parents);
        for k := 0 to c.fitRollouts
          invariant Progress(c, ParentFit, [r, t, k], parents)
        {
          Enter(c, ParentFit, [r, t, k], [r, t, k, 0], parents);
          for a := 0 to |ADAPTIVE_ARMS|
            invariant Progress(c, ParentFit, [r, t, k, a], parents)
          {
            Emit(c, ParentFit, [r, t, k, a], [r, t, k, a + 1], parents);
            parents := parents + [
              Draft(
                NodeId(
                  c.replicates[r].id, ADAPTIVE_ARMS[a], ParentFit, Some(c.fit[t]), Some(k), None, None, None, None),
                c.replicates[r].outerSeed, 1, ParentHarness, NoFeedback, Some(FitEvaluation(c.fit[t], k)),
                [], [], false, false)];
          }
          Leave(c, ParentFit, [r, t, k, |ADAPTIVE_ARMS|], [r, t, k + 1], parents);
        }
        Leave(c, ParentFit, [r, t, c.fitRollouts], [r, t + 1], parents);
      }
      Leave(c, ParentFit, [r, |c.fit|], [r + 1], parents);
    }
    Finish(c, ParentFit, [|c.replicates|], parents);
  }

  lemma FirstDiagnosis(c: Campaign, site: Site)
    requires site.kind == Proposal && Valid(c, site)
    ensures var id := IdAt(c, site);
            var own := Own(StageIds(c, Diagnosis), Selector(id.replicate, id.arm, id.pipeline));
            own != [] && own[0] == OwnDiagnosis(c, site)
  {
    hide StageIds, Own;
    var d := OwnDiagnosis(c, site);
    StageIdsMember(c, Site(Diagnosis, site.at));
  }

  lemma FirstProposal(c: Campaign, site: Site)
    requires site.kind == CandidateFit && Valid(c, site)
    ensures var id := IdAt(c, site);
            var own := Own(StageIds(c, Proposal), Selector(id.replicate, id.arm, id.pipeline));
            own != [] && own[0] == OwnProposal(c, site)
  {
    hide StageIds, Own;
    var p := OwnProposal(c, site);
    StageIdsMember(c, Site(Proposal, [site.at[0], site.at[1], site.at[4]]));
  }

  lemma FirstNomination(c: Campaign, site: Site)
    requires (site.kind == Gate || site.kind == GateDecision) && Valid(c, site)
    ensures var id := IdAt(c, site);
            var own := Own(StageIds(c, Nomination), Selector(id.replicate, id.arm, None));
            own != [] && own[0] == OwnNomination(c, site)
  {
    hide StageIds, Own;
    var n := OwnNomination(c, site);
    StageIdsMember(c, Site(Nomination, [site.at[0], site.at[|site.at| - 1]]));
  }

  method BuildDiagnoses(c: Campaign, parents: seq<Draft>) returns (diagnoses: seq<Draft>)
    requires parents == StageDrafts(c, ParentFit)
    ensures diagnoses == StageDrafts(c, Diagnosis)
  {
    hide Progress, Emitted, StageIds, SampleCount, StageDrafts;
    StageDraftIds(c, ParentFit);
    var allParents := Ids(parents);
    diagnoses := [];
    Start(c, Diagnosis);
    for r := 0 to |c.replicates|
      invariant Progress(c, Diagnosis, [r], diagnoses)
    {
      Enter(c, Diagnosis, [r], [r, 0], diagnoses);
      for p := 0 to c.pipelines
        invariant Progress(c, Diagnosis, [r, p], diagnoses)
      {
        Enter(c, Diagnosis, [r, p], [r, p, 0], diagnoses);
        for a := 0 to |ADAPTIVE_ARMS|
          invariant Progress(c, Diagnosis, [r, p, a], diagnoses)
        {
          Emit(c, Diagnosis, [r, p, a], [r, p, a + 1], diagnoses);
          var arm := ADAPTIVE_ARMS[a];
          var ownParents := Own(allParents, Selector(c.replicates[r].id, arm, None));
          diagnoses := diagnoses + [
            Draft(
              NodeId(c.replicates[r].id, arm, Diagnosis, None, None, None, Some(p), None, None),
              c.replicates[r].outerSeed, 2, DiagnosisPipeline(p), FeedbackOf(arm), Some(DiagnosisController(p)),
              allParents, ownParents, true, false)];
        }
        Leave(c, Diagnosis, [r, p, |ADAPTIVE_ARMS|], [r, p + 1], diagnoses);
      }
      Leave(c, Diagnosis, [r, c.pipelines], [r + 1], diagnoses);
    }
    Finish(c, Diagnosis, [|c.replicates|], diagnoses);
  }

  method BuildProposals(c: Campaign, diagnoses: seq<Draft>) returns (proposals: seq<Draft>)
    requires diagnoses == StageDrafts(c, Diagnosis)
    ensures proposals == StageDrafts(c, Proposal)
  {
    hide Progress, Emitted, StageIds, SampleCount, StageDrafts, Own;
    StageDraftIds(c, Diagnosis);
    var allDiagnoses := Ids(diagnoses);
    proposals := [];
    Start(c, Proposal);
    for r := 0 to |c.replicates|
      invariant Progress(c, Proposal, [r], proposals)
    {
      Enter(c, Proposal, [r], [r, 0], proposals);
      for p := 0 to c.pipelines
        invariant Progress(c, Proposal, [r, p], proposals)
      {
        Enter(c, Proposal, [r, p], [r, p, 0], proposals);
        for a := 0 to |ADAPTIVE_ARMS|
          invariant Progress(c, Proposal, [r, p, a], proposals)
        {
          Emit(c, Proposal, [r, p, a], [r, p, a + 1], proposals);
          FirstDiagnosis(c, Site(Proposal, [r, p, a]));
          var arm := ADAPTIVE_ARMS[a];
          var ownDiagnosis := Own(allDiagnoses, Selector(c.replicates[r].id, arm, Some(p)))[0];
          proposals := proposals + [
            Draft(
              NodeId(c.replicates[r].id, arm, Proposal, None, None, None, Some(p), Some(p), None),
              c.replicates[r].outerSeed, 3, TypedProposal(p), FeedbackOf(arm), Some(ProposalController(p)),
              allDiagnoses, [ownDiagnosis], true, true)];
        }
        Leave(c, Proposal, [r, p, |ADAPTIVE_ARMS|], [r, p + 1], proposals);
      }
      Leave(c, Proposal, [r, c.pipelines], [r + 1], proposals);
    }
    Finish(c, Proposal, [|c.replicates|], proposals);
  }

  method BuildCandidates(c: Campaign, proposals: seq<Draft>) returns (candidates: seq<Draft>)
    requires proposals == StageDrafts(c, Proposal)
    ensures candidates == StageDrafts(c, CandidateFit)
  {
    hide Progress, Emitted, StageIds, SampleCount, StageDrafts, Own;
    StageDraftIds(c, Proposal);
    var allProposals := Ids(proposals);
    candidates := [];
    Start(c, CandidateFit);
    for r := 0 to |c.replicates|
      invariant Progress(c, CandidateFit, [r], candidates)
    {
      Enter(c, CandidateFit, [r], [r, 0], candidates);
      for p := 0 to c.pipelines
        invariant Progress(c, CandidateFit, [r, p], candidates)
      {
        Enter(c, CandidateFit, [r, p], [r, p, 0], candidates);
        for t := 0 to |c.fit|
          invariant Progress(c, CandidateFit, [r, p, t], candidates)
        {
          Enter(c, CandidateFit, [r, p, t], [r, p, t, 0], candidates);
          for k := 0 to c.fitRollouts
            invariant Progress(c, CandidateFit, [r, p, t, k], candidates)
          {
            Enter(c, CandidateFit, [r, p, t, k], [r, p, t, k, 0], candidates);
            for a := 0 to |ADAPTIVE_ARMS|
              invariant Progress(c, CandidateFit, [r, p, t, k, a], candidates)
            {
              candidates := EmitCandidate(c, allProposals, candidates, r, p, t, k, a);
            }
            Leave(c, CandidateFit, [r, p, t, k, |ADAPTIVE_ARMS|], [r, p, t, k + 1], candidates);
          }
          Leave(c, CandidateFit, [r, p, t, c.fitRollouts], [r, p, t + 1], candidates);
        }
        Leave(c, CandidateFit, [r, p, |c.fit|], [r, p + 1], candidates);
      }
      Leave(c, CandidateFit, [r, c.pipelines], [r + 1], candidates);
    }
    Finish(c, CandidateFit, [|c.replicates|], candidates);
  }

  /** The innermost step of `BuildCandidates`. */
  method EmitCandidate(
    c: Campaign, allProposals: seq<NodeId>, candidates: seq<Draft>, r: nat, p: nat, t: nat, k: nat, a: nat)
    returns (next: seq<Draft>)
    requires allProposals == StageIds(c, Proposal)
    requires Progress(c, CandidateFit, [r, p, t, k, a], candidates)
    requires r < |c.replicates| && p < c.pipelines && t < |c.fit| && k < c.fitRollouts && a < |ADAPTIVE_ARMS|
    ensures Progress(c, CandidateFit, [r, p, t, k, a + 1], next)
  {
    hide Progress, Emitted, StageIds, SampleCount, Own;
    Emit(c, CandidateFit, [r, p, t, k, a], [r, p, t, k, a + 1], candidates);
    FirstProposal(c, Site(CandidateFit, [r, p, t, k, a]));
    var arm := ADAPTIVE_ARMS[a];
    var ownProposal := Own(allProposals, Selector(c.replicates[r].id, arm, Some(p)))[0];
    next := candidates + [
      Draft(
        NodeId(c.replicates[r].id, arm, CandidateFit, Some(c.fit[t]), Some(k), None, Some(p), Some(p), None),
        c.replicates[r].outerSeed, 4, CandidateOrParent(p), NoFeedback, Some(FitEvaluation(c.fit[t], k)),
        allProposals, [ownProposal], false, true)];
  }

  method BuildNominations(c: Campaign, parents: seq<Draft>, proposals: seq<Draft>, candidates: seq<Draft>)
    returns (nominations: seq<Draft>)
    requires parents == StageDrafts(c, ParentFit) && proposals == StageDrafts(c, Proposal)
    requires candidates == StageDrafts(c, CandidateFit)
    ensures nominations == StageDrafts(c, Nomination)
  {
    hide Progress, Emitted, StageIds, SampleCount, StageDrafts, Own, Unique;
    StageDraftIds(c, ParentFit);
    StageDraftIds(c, Proposal);
    StageDraftIds(c, CandidateFit);
    nominations := [];
    Start(c, Nomination);
    for r := 0 to |c.replicates|
      invariant Progress(c, Nomination, [r], nominations)
    {
      Enter(c, Nomination, [r], [r, 0], nominations);
      for a := 0 to |ADAPTIVE_ARMS|
        invariant Progress(c, Nomination, [r, a], nominations)
      {
        Emit(c, Nomination, [r, a], [r, a + 1], nominations);
        var arm := ADAPTIVE_ARMS[a];
        var mine := Selector(c.replicates[r].id, arm, None);
        var ownParents, ownProposals := Own(Ids(parents), mine), Own(Ids(proposals), mine);
        var ownEvidence := ownParents + ownProposals + Own(Ids(candidates), mine);
        nominations := nominations + [
          Draft(
            NodeId(c.replicates[r].id, arm, Nomination, None, None, None, None, None, None),
            c.replicates[r].outerSeed, 5, NominationRule, NoFeedback, None,
            Unique(Ids(candidates) + ownParents + ownProposals), ownEvidence, false, false)];
      }
      Leave(c, Nomination, [r, |ADAPTIVE_ARMS|], [r + 1], nominations);
    }
    Finish(c, Nomination, [|c.replicates|], nominations);
  }

  method BuildGates(c: Campaign, nominations: seq<Draft>) returns (gates: seq<Draft>)
    requires nominations == StageDrafts(c, Nomination)
    ensures gates == StageDrafts(c, Gate)
  {
    hide Progress, Emitted, StageIds, SampleCount, StageDrafts, Own;
    StageDraftIds(c, Nomination);
    var allNominations := Ids(nominations);
    gates := [];
    Start(c, Gate);
    for r := 0 to |c.replicates|
      invariant Progress(c, Gate, [r], gates)
    {
      Enter(c, Gate, [r], [r, 0], gates);
      for t := 0 to |c.gate|
        invariant Progress(c, Gate, [r, t], gates)
      {
        Enter(c, Gate, [r, t], [r, t, 0], gates);
        for k := 0 to c.gateRollouts
          invariant Progress(c, Gate, [r, t, k], gates)
        {
          Enter(c, Gate, [r, t, k], [r, t, k, 0], gates);
          for v := 0 to |GATE_VARIANTS|
            invariant Progress(c, Gate, [r, t, k, v], gates)
          {
            Enter(c, Gate, [r, t, k, v], [r, t, k, v, 0], gates);
            for a := 0 to |ADAPTIVE_ARMS|
              invariant Progress(c, Gate, [r, t, k, v, a], gates)
            {
              gates := EmitGate(c, allNominations, gates, r, t, k, v, a);
            }
            Leave(c, Gate, [r, t, k, v, |ADAPTIVE_ARMS|], [r, t, k, v + 1], gates);
          }
          Leave(c, Gate, [r, t, k, |GATE_VARIANTS|], [r, t, k + 1], gates);
        }
        Leave(c, Gate, [r, t, c.gateRollouts], [r, t + 1], gates);
      }
      Leave(c, Gate, [r, |c.gate|], [r + 1], gates);
    }
    Finish(c, Gate, [|c.replicates|], gates);
  }

  /** The innermost step of `BuildGates`. */
  method EmitGate(
    c: Campaign, allNominations: seq<NodeId>, gates: seq<Draft>, r: nat, t: nat, k: nat, v: nat, a: nat)
    returns (next: seq<Draft>)
    requires allNominations == StageIds(c, Nomination)
    requires Progress(c, Gate, [r, t, k, v, a], gates)
    requires r < |c.replicates| && t < |c.gate| && k < c.gateRollouts && v < |GATE_VARIANTS| && a < |ADAPTIVE_ARMS|
    ensures Progress(c, Gate, [r, t, k, v, a + 1], next)
  {
    hide Progress, Emitted, StageIds, SampleCount, Own;
    Emit(c, Gate, [r, t, k, v, a], [r, t, k, v, a + 1], gates);
    FirstNomination(c, Site(Gate, [r, t, k, v, a]));
    var arm, variant := ADAPTIVE_ARMS[a], GATE_VARIANTS[v];
    var ownNomination := Own(allNominations, Selector(c.replicates[r].id, arm, None))[0];
    next := gates + [
      Draft(
        NodeId(c.replicates[r].id, arm, Gate, Some(c.gate[t]), Some(k), None, None, None, Some(variant)),
        c.replicates[r].outerSeed, 6, GateHarness(variant), NoFeedback, Some(GateEvaluation(c.gate[t], k)),
        allNominations, [ownNomination], false, false)];
  }

  method BuildDecisions(c: Campaign, nominations: seq<Draft>, gates: seq<Draft>) returns (decisions: seq<Draft>)
    requires nominations == StageDrafts(c, Nomination) && gates == StageDrafts(c, Gate)
    ensures decisions == StageDrafts(c, GateDecision)
  {
    hide Progress, Emitted, StageIds, SampleCount, StageDrafts, Own;
    StageDraftIds(c, Nomination);
    StageDraftIds(c, Gate);
    decisions := [];
    Start(c, GateDecision);
    for r := 0 to |c.replicates|
      invariant Progress(c, GateDecision, [r], decisions)
    {
      Enter(c, GateDecision, [r], [r, 0], decisions);
      for a := 0 to |ADAPTIVE_ARMS|
        invariant Progress(c, GateDecision, [r, a], decisions)
      {
        Emit(c, GateDecision, [r, a], [r, a + 1], decisions);
        FirstNomination(c, Site(GateDecision, [r, a]));
        var arm := ADAPTIVE_ARMS[a];
        var mine := Selector(c.replicates[r].id, arm, None);
        var ownNomination := Own(Ids(nominations), mine)[0];
        decisions := decisions + [
          Draft(
            NodeId(c.replicates[r].id, arm, GateDecision, None, None, None, None, None, None),
            c.replicates[r].outerSeed, 7, PromotionRule, NoFeedback, None,
            Ids(gates) + [ownNomination], [ownNomination] + Own(Ids(gates), mine), false, false)];
      }
      Leave(c, GateDecision, [r, |ADAPTIVE_ARMS|], [r + 1], decisions);
    }
    Finish(c, GateDecision, [|c.replicates|], decisions);
  }

  // ---------------------------------------------------------------- evaluations

  ghost predicate Evaluated(c: Campaign, sites: seq<Site>, drafts: seq<Draft>) {
    AllValid(c, sites) && drafts == DraftsOf(c, sites)
  }

  /** The evaluation sites emitted when the HOLDOUT loops of replicate `r` reach `v`. */
  function HoldoutPart(c: Campaign, r: nat, v: Coord): seq<Site>
    requires r <= |c.replicates| && |v| <= 2
  {
    EvaluationSites(c, r) + Tag(Holdout, Prepend(r, Before([|c.holdout|, |HOLDOUT_ARMS|], v)))
  }

  /** The evaluation sites emitted when the PURE@B loops of replicate `r` reach sample `s` of task `t`. */
  function SamplePart(c: Campaign, r: nat, t: nat, s: nat): seq<Site>
    requires r <= |c.replicates| && t <= |c.holdout|
  {
    EvaluationSites(c, r) + HoldoutSites(c, r) + SampleSites(c, r, t) + SampleRow(r, t, s)
  }

  lemma HoldoutSteps(c: Campaign, r: nat, t: nat, a: nat)
    requires r <= |c.replicates|
    ensures HoldoutPart(c, r, [t, 0]) == HoldoutPart(c, r, [t])
    ensures HoldoutPart(c, r, [t, |HOLDOUT_ARMS|]) == HoldoutPart(c, r, [t + 1])
    ensures HoldoutPart(c, r, [t, a + 1]) == HoldoutPart(c, r, [t, a]) + [Site(Holdout, [r, t, a])]
  {
    hide Before, EvaluationSites;
    var dims := [|c.holdout|, |HOLDOUT_ARMS|];
    Deepen(dims, [t]);
    assert [t] + [0] == [t, 0];
    Carry(dims, [], t);
    assert [] + [t] + [dims[1]] == [t, dims[1]] && [] + [t + 1] == [t + 1];
    Step(dims, [t], a);
    assert [t] + [a] == [t, a] && [t] + [a + 1] == [t, a + 1];
    assert [r] + [t, a] == [r, t, a];
  }

  lemma HoldoutEnds(c: Campaign, r: nat)
    requires r <= |c.replicates|
    ensures HoldoutPart(c, r, [0]) == EvaluationSites(c, r)
    ensures HoldoutPart(c, r, [|c.holdout|]) == EvaluationSites(c, r) + HoldoutSites(c, r)
  {
    hide EvaluationSites;
    var dims := [|c.holdout|, |HOLDOUT_ARMS|];
    Deepen(dims, []);
    assert [] + [0] == [0];
    Complete(dims);
  }

  lemma SampleSteps(c: Campaign, r: nat, t: nat, s: nat)
    requires r < |c.replicates| && t <= |c.holdout|
    ensures SamplePart(c, r, t, s + 1) == SamplePart(c, r, t, s) + [Site(PureAtBSample, [r, t, s])]
    ensures SamplePart(c, r, 0, 0) == EvaluationSites(c, r) + HoldoutSites(c, r)
    ensures t < |c.holdout| ==> SamplePart(c, r, t, SampleCount(c, c.holdout[t])) == SamplePart(c, r, t + 1, 0)
    ensures SamplePart(c, r, |c.holdout|, 0) == EvaluationSites(c, r + 1)
  {
    hide HoldoutSites, SampleCount;
  }

  lemma EvaluateOne(c: Campaign, sites: seq<Site>, site: Site, drafts: seq<Draft>)
    requires Evaluated(c, sites, drafts) && Valid(c, site)
    ensures Evaluated(c, sites + [site], drafts + [DraftAt(c, site)])
  {
    hide Valid, DraftAt;
    DraftsAppend(c, sites, site);
  }

  lemma NothingEvaluated(c: Campaign)
    ensures Evaluated(c, EvaluationSites(c, 0), [])
  {
  }

  method BuildEvaluations(c: Campaign, decisions: seq<Draft>) returns (evaluations: seq<Draft>)
    requires decisions == StageDrafts(c, GateDecision)
    ensures Evaluated(c, EvaluationSites(c, |c.replicates|), evaluations)
  {
    hide Evaluated, HoldoutPart, SamplePart, StageIds, SampleCount, StageDrafts, Own, EvaluationSites;
    StageDraftIds(c, GateDecision);
    evaluations := [];
    NothingEvaluated(c);
    for r := 0 to |c.replicates|
      invariant Evaluated(c, EvaluationSites(c, r), evaluations)
    {
      HoldoutEnds(c, r);
      for t := 0 to |c.holdout|
        invariant Evaluated(c, HoldoutPart(c, r, [t]), evaluations)
      {
        HoldoutSteps(c, r, t, 0);
        for a := 0 to |HOLDOUT_ARMS|
          invariant Evaluated(c, HoldoutPart(c, r, [t, a]), evaluations)
        {
          evaluations := EmitHoldout(c, Ids(decisions), evaluations, r, t, a);
        }
      }
      SampleSteps(c, r, 0, 0);
      for t := 0 to |c.holdout|
        invariant Evaluated(c, SamplePart(c, r, t, 0), evaluations)
      {
        SampleSteps(c, r, t, 0);
        for s := 0 to SampleCount(c, c.holdout[t])
          invariant Evaluated(c, SamplePart(c, r, t, s), evaluations)
        {
          evaluations := EmitSample(c, Ids(decisions), evaluations, r, t, s);
        }
      }
    }
  }

  /** The innermost step of the HOLDOUT loops. */
  method EmitHoldout(c: Campaign, allDecisions: seq<NodeId>, evaluations: seq<Draft>, r: nat, t: nat, a: nat)
    returns (next: seq<Draft>)
    requires allDecisions == StageIds(c, GateDecision)
    requires r < |c.replicates| && t < |c.holdout| && a < |HOLDOUT_ARMS|
    requires Evaluated(c, HoldoutPart(c, r, [t, a]), evaluations)
    ensures Evaluated(c, HoldoutPart(c, r, [t, a + 1]), next)
  {
    hide Evaluated, HoldoutPart, StageIds, SampleCount, Own;
    HoldoutSteps(c, r, t, a);
    EvaluateOne(c, HoldoutPart(c, r, [t, a]), Site(Holdout, [r, t, a]), evaluations);
    var arm := HOLDOUT_ARMS[a];
    var harness := if arm == Pure then Bare else if arm == Static then StaticFrozen else SelectedOrParent;
    var ownDecision := Own(allDecisions, Selector(c.replicates[r].id, arm, None));
    next := evaluations + [
      Draft(
        NodeId(c.replicates[r].id, arm, Holdout, Some(c.holdout[t]), Some(0), None, None, None, None),
        c.replicates[r].outerSeed, 8, harness, NoFeedback, Some(HoldoutEvaluation(c.holdout[t])),
        allDecisions, ownDecision, false, false)];
  }

  /** The innermost step of the PURE@B loops. */
  method EmitSample(c: Campaign, allDecisions: seq<NodeId>, evaluations: seq<Draft>, r: nat, t: nat, s: nat)
    returns (next: seq<Draft>)
    requires allDecisions == StageIds(c, GateDecision)
    requires r < |c.replicates| && t < |c.holdout| && s < SampleCount(c, c.holdout[t])
    requires Evaluated(c, SamplePart(c, r, t, s), evaluations)
    ensures Evaluated(c, SamplePart(c, r, t, s + 1), next)
  {
    hide Evaluated, SamplePart, StageIds, SampleCount, Own;
    SampleSteps(c, r, t, s);
    EvaluateOne(c, SamplePart(c, r, t, s), Site(PureAtBSample, [r, t, s]), evaluations);
    next := evaluations + [
      Draft(
        NodeId(c.replicates[r].id, PureAtB, PureAtBSample, Some(c.holdout[t]), None, Some(s), None, None, None),
        c.replicates[r].outerSeed, 8, BareSample(s), NoFeedback, Some(PureAtBEvaluation(c.holdout[t], s)),
        allDecisions, [], false, false)];
  }

  // ---------------------------------------------------------------- all stages together

  lemma StageEvaluated(c: Campaign, kind: Kind)
    requires kind != PureAtBSample
    ensures Evaluated(c, StageSites(c, kind), StageDrafts(c, kind))
  {
    hide Valid, Before, DraftAt;
    Complete(Dims(c, kind));
    CountersValid(c, kind, [Dims(c, kind)[0]]);
  }

  lemma EvaluatedJoin(c: Campaign, a: seq<Site>, b: seq<Site>, da: seq<Draft>, db: seq<Draft>)
    requires Evaluated(c, a, da) && Evaluated(c, b, db)
    ensures Evaluated(c, a + b, da + db)
  {
    hide Valid, DraftAt;
  }

  /** `_build_drafts`: the loops emit exactly the plan. */
  method BuildDrafts(c: Campaign) returns (drafts: seq<Draft>)
    ensures drafts == Drafts(c)
  {
    hide Evaluated, StageDrafts, StageSites, EvaluationSites;
    var parents := BuildParents(c);
    var diagnoses := BuildDiagnoses(c, parents);
    var proposals := BuildProposals(c, diagnoses);
    var candidates := BuildCandidates(c, proposals);
    var nominations := BuildNominations(c, parents, proposals, candidates);
    var gates := BuildGates(c, nominations);
    var decisions := BuildDecisions(c, nominations, gates);
    var evaluations := BuildEvaluations(c, decisions);
    drafts := parents + diagnoses + proposals + candidates + nominations + gates + decisions + evaluations;
    AllStages(c, evaluations);
    EvaluatedPlan(c, drafts);
  }

  lemma EvaluatedPlan(c: Campaign, drafts: seq<Draft>)
    requires Evaluated(c, Sites(c), drafts)
    ensures drafts == Drafts(c)
  {
    hide Sites, DraftsOf;
  }

  lemma AllStages(c: Campaign, evaluations: seq<Draft>)
    requires Evaluated(c, EvaluationSites(c, |c.replicates|), evaluations)
    ensures Evaluated(
              c, Sites(c),
              StageDrafts(c, ParentFit) + StageDrafts(c, Diagnosis) + StageDrafts(c, Proposal)
              + StageDrafts(c, CandidateFit) + StageDrafts(c, Nomination) + StageDrafts(c, Gate)
              + StageDrafts(c, GateDecision) + evaluations)
  {
    hide Evaluated, StageDrafts, StageSites, EvaluationSites;
    var sites, drafts := StageSites(c, ParentFit), StageDrafts(c, ParentFit);
    StageEvaluated(c, ParentFit);
    StageEvaluated(c, Diagnosis);
    EvaluatedJoin(c, sites, StageSites(c, Diagnosis), drafts, StageDrafts(c, Diagnosis));
    sites, drafts := sites + StageSites(c, Diagnosis), drafts + StageDrafts(c, Diagnosis);
    StageEvaluated(c, Proposal);
    EvaluatedJoin(c, sites, StageSites(c, Proposal), drafts, StageDrafts(c, Proposal));
    sites, drafts := sites + StageSites(c, Proposal), drafts + StageDrafts(c, Proposal);
    StageEvaluated(c, CandidateFit);
    EvaluatedJoin(c, sites, StageSites(c, CandidateFit), drafts, StageDrafts(c, CandidateFit));
    sites, drafts := sites + StageSites(c, CandidateFit), drafts + StageDrafts(c, CandidateFit);
    StageEvaluated(c, Nomination);
    EvaluatedJoin(c, sites, StageSites(c, Nomination), drafts, StageDrafts(c, Nomination));
    sites, drafts := sites + StageSites(c, Nomination), drafts + StageDrafts(c, Nomination);
    StageEvaluated(c, Gate);
    EvaluatedJoin(c, sites, StageSites(c, Gate), drafts, StageDrafts(c, Gate));
    sites, drafts := sites + StageSites(c, Gate), drafts + StageDrafts(c, Gate);
    StageEvaluated(c, GateDecision);
    EvaluatedJoin(c, sites, StageSites(c, GateDecision), drafts, StageDrafts(c, GateDecision));
    sites, drafts := sites + StageSites(c, GateDecision), drafts + StageDrafts(c, GateDecision);
    EvaluatedJoin(c, sites, EvaluationSites(c, |c.replicates|), drafts, evaluations);
  }
}
