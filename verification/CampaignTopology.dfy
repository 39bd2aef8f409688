/** Every replicate of a plan has the same topology: only names and seeds differ. */
module CampaignTopology {
  import opened Prelude
  import opened RowMajor
  import opened CampaignContracts
  import opened CampaignPlan
  import opened CampaignFlow
  import opened CampaignSlots
  import opened CampaignBuild
  import opened CampaignCounts
  import opened CampaignClose

  // ---------------------------------------------------------------- the projection

  const OWN: int := 0
  const OTHER: int := 1

  /** A node identity as seen from replicate `own`. */
  function Seen(own: int, id: NodeId): NodeId {
    id.(replicate := if id.replicate == own then OWN else OTHER)
  }

  function SeenAll(own: int, ids: seq<NodeId>): (seen: seq<NodeId>)
    ensures |seen| == |ids| && forall i :: 0 <= i < |ids| ==> seen[i] == Seen(own, ids[i])
  {
    seq(|ids|, i requires 0 <= i < |ids| => Seen(own, ids[i]))
  }

  /** What a draft looks like without its replicate and seeds; references are compared sorted. */
  datatype Shape = Shape(
    id: NodeId, stage: nat, harness: Harness, feedback: Feedback, call: bool,
    dependsOn: multiset<NodeId>, evidence: multiset<NodeId>, graderFeedback: bool, typedEdit: bool)

  function ShapeOf(own: int, d: Draft): Shape {
    Shape(
      Seen(own, d.id), d.stage, d.harness, d.feedback, d.seed.Some?,
      multiset(SeenAll(own, d.dependsOn)), multiset(SeenAll(own, d.evidence)), d.graderFeedback, d.typedEdit)
  }

  /** A shape with its slots inside the replicate. */
  datatype Topology = Topology(shape: Shape, nodeSlot: nat, callSlot: Option<nat>, armSlot: Option<nat>)

  /** The nodes of one replicate, projected, in plan order. */
  function TopologyIn(own: int, nodes: seq<Node>): seq<Topology> {
    if nodes == [] then []
    else
      var last := nodes[|nodes| - 1];
      var before := TopologyIn(own, nodes[..|nodes| - 1]);
      if last.draft.id.replicate != own then before
      else
        before + [Topology(ShapeOf(own, last.draft), last.replicateNodeSlot, last.replicateCallSlot, last.armSlot)]
  }

  // ---------------------------------------------------------------- slots follow from shapes

  function ShapesIn(own: int, drafts: seq<Draft>): seq<Shape> {
    if drafts == [] then []
    else
      var last := drafts[|drafts| - 1];
      var before := ShapesIn(own, drafts[..|drafts| - 1]);
      if last.id.replicate == own then before + [ShapeOf(own, last)] else before
  }

  function CallShapes(shapes: seq<Shape>, arm: Option<Arm>): nat {
    if shapes == [] then 0
    else
      var last := shapes[|shapes| - 1];
      CallShapes(shapes[..|shapes| - 1], arm) + if last.call && (arm.None? || arm.value == last.id.arm) then 1 else 0
  }

  /** The slots that shapes get from the shapes before them. */
  function Numbering(shapes: seq<Shape>): seq<Topology> {
    if shapes == [] then []
    else
      var before, last := shapes[..|shapes| - 1], shapes[|shapes| - 1];
      Numbering(before)
      + [if last.call then
           Topology(last, |before|, Some(CallShapes(before, None)), Some(CallShapes(before, Some(last.id.arm))))
         else Topology(last, |before|, None, None)]
  }

  lemma {:induction false} ShapeCounts(own: int, drafts: seq<Draft>, arm: Arm)
    ensures Count(drafts, OfReplicate(own)) == |ShapesIn(own, drafts)|
    ensures Count(drafts, CallsOfReplicate(own)) == CallShapes(ShapesIn(own, drafts), None)
    ensures Count(drafts, CallsOfArm(own, arm)) == CallShapes(ShapesIn(own, drafts), Some(arm))
    decreases |drafts|
  {
    hide CallShapes, SeenAll;
    CallsOfNone();
    if drafts != [] {
      var before, last := drafts[..|drafts| - 1], drafts[|drafts| - 1];
      ShapeCounts(own, before, arm);
      if last.id.replicate == own {
        CallsGrow(ShapesIn(own, before), ShapeOf(own, last), None);
        CallsGrow(ShapesIn(own, before), ShapeOf(own, last), Some(arm));
      }
    }
  }

  lemma CallsOfNone()
    ensures CallShapes([], None) == 0 && forall arm :: CallShapes([], Some(arm)) == 0
  {
  }

  lemma CallsGrow(shapes: seq<Shape>, shape: Shape, arm: Option<Arm>)
    ensures CallShapes(shapes + [shape], arm)
         == CallShapes(shapes, arm) + if shape.call && (arm.None? || arm.value == shape.id.arm) then 1 else 0
  {
    assert (shapes + [shape])[..|shapes|] == shapes;
  }

  lemma NumberingGrows(shapes: seq<Shape>, last: Shape)
    ensures Numbering(shapes + [last])
         == Numbering(shapes)
            + [if last.call then
                 Topology(last, |shapes|, Some(CallShapes(shapes, None)), Some(CallShapes(shapes, Some(last.id.arm))))
               else Topology(last, |shapes|, None, None)]
  {
    assert (shapes + [last])[..|shapes|] == shapes;
  }

  lemma {:induction false} SlotsFollow(
    drafts: seq<Draft>, nodes: seq<Node>, seedOf: (int, SeedCoordinate) -> int, own: int, n: nat)
    requires Numbered(drafts, nodes, seedOf) && n <= |nodes|
    ensures TopologyIn(own, nodes[..n]) == Numbering(ShapesIn(own, drafts[..n]))
    decreases n
  {
    if n > 0 {
      SlotsFollow(drafts, nodes, seedOf, own, n - 1);
      assert nodes[..n][..n - 1] == nodes[..n - 1] && drafts[..n][..n - 1] == drafts[..n - 1];
      var d, node := drafts[n - 1], nodes[n - 1];
      hide Numbering, ShapeOf;
      assert nodes[..n][n - 1] == node && drafts[..n][n - 1] == d;
      assert NumberedAt(drafts, n - 1, node, seedOf);
      assert node.draft == d;
      if d.id.replicate == own {
        OwnSlots(drafts, node, seedOf, n - 1);
        NumberingGrows(ShapesIn(own, drafts[..n - 1]), ShapeOf(own, d));
      }
    }
  }

  lemma OwnSlots(drafts: seq<Draft>, node: Node, seedOf: (int, SeedCoordinate) -> int, i: nat)
    requires i < |drafts| && NumberedAt(drafts, i, node, seedOf)
    ensures var d := drafts[i];
            var before := ShapesIn(d.id.replicate, drafts[..i]);
            && node.draft == d && node.replicateNodeSlot == |before|
            && node.replicateCallSlot == (if d.seed.Some? then Some(CallShapes(before, None)) else None)
            && node.armSlot == (if d.seed.Some? then Some(CallShapes(before, Some(d.id.arm))) else None)
  {
    var r, a := drafts[i].id.replicate, drafts[i].id.arm;
    ShapeCounts(r, drafts[..i], a);
    assert SlotIn(OfReplicate(r), node) == ExpectedSlot(drafts, i, OfReplicate(r));
    assert SlotIn(CallsOfReplicate(r), node) == ExpectedSlot(drafts, i, CallsOfReplicate(r));
    assert SlotIn(CallsOfArm(r, a), node) == ExpectedSlot(drafts, i, CallsOfArm(r, a));
  }

  // ---------------------------------------------------------------- moving a site to another replicate

  function Moved(site: Site, q: nat): Site {
    if site.at == [] then site else site.(at := site.at[0 := q])
  }

  function Replicated(id: NodeId, r: int): NodeId {
    id.(replicate := r)
  }

  lemma IdMoves(c: Campaign, site: Site, q: nat)
    requires Valid(c, site) && q < |c.replicates|
    ensures site.at != [] && site.at[0] < |c.replicates|
    ensures Valid(c, Moved(site, q)) && ArmAt(c, Moved(site, q)) == ArmAt(c, site)
    ensures IdAt(c, site).replicate == c.replicates[site.at[0]].id
    ensures IdAt(c, Moved(site, q)) == Replicated(IdAt(c, site), c.replicates[q].id)
  {
    assert |site.at| > 0 && site.at[0] < Dims(c, site.kind)[0];
  }

  function IdsAt(c: Campaign, sites: seq<Site>): (ids: seq<NodeId>)
    requires AllValid(c, sites)
    ensures |ids| == |sites|
    ensures forall i :: 0 <= i < |sites| ==> Valid(c, sites[i]) && ids[i] == IdAt(c, sites[i])
  {
    assert forall i :: 0 <= i < |sites| ==> sites[i] in sites;
    seq(|sites|, i requires 0 <= i < |sites| => IdAt(c, sites[i]))
  }

  /** One replicate's sites of a stage are another's, moved. */
  lemma BlockMoves(c: Campaign, kind: Kind, p: nat, q: nat)
    requires kind != PureAtBSample && p < |c.replicates| && q < |c.replicates|
    ensures AllMoved(SitesOfReplicate(c, kind, p), SitesOfReplicate(c, kind, q), p, q)
    ensures AllValid(c, SitesOfReplicate(c, kind, p))
  {
    hide Product, Rows;
    var rest := Product(Dims(c, kind)[1..]);
    var from, into := SitesOfReplicate(c, kind, p), SitesOfReplicate(c, kind, q);
    forall i | 0 <= i < |rest|
      ensures from[i].at != [] && from[i].at[0] == p && into[i] == Moved(from[i], q)
    {
      assert ([p] + rest[i])[0 := q] == [q] + rest[i];
    }
    OneMoreReplicate(c, kind, p);
    SitesBelowValid(c, kind, p + 1);
  }

  ghost predicate AllMoved(from: seq<Site>, into: seq<Site>, p: nat, q: nat) {
    && |from| == |into|
    && forall i :: 0 <= i < |from| ==> from[i].at != [] && from[i].at[0] == p && into[i] == Moved(from[i], q)
  }

  // ---------------------------------------------------------------- references to a whole stage

  function Marked(ids: seq<NodeId>, mark: int): (marked: seq<NodeId>)
    ensures |marked| == |ids| && forall i :: 0 <= i < |ids| ==> marked[i] == Replicated(ids[i], mark)
  {
    seq(|ids|, i requires 0 <= i < |ids| => Replicated(ids[i], mark))
  }

  /** Any replicate's part of a stage, as its own or as another's. */
  function Block(c: Campaign, kind: Kind, mark: int): seq<NodeId>
    requires kind != PureAtBSample && c.replicates != []
  {
    BlockMoves(c, kind, 0, 0);
    Marked(IdsAt(c, SitesOfReplicate(c, kind, 0)), mark)
  }

  lemma BlockSeen(c: Campaign, kind: Kind, p: nat, k: nat)
    requires c.Distinct() && kind != PureAtBSample && p < |c.replicates| && k < |c.replicates|
    ensures AllValid(c, SitesOfReplicate(c, kind, k))
    ensures SeenAll(c.replicates[p].id, IdsAt(c, SitesOfReplicate(c, kind, k)))
         == Block(c, kind, if k == p then OWN else OTHER)
  {
    hide SitesOfReplicate, Valid, IdAt;
    BlockMoves(c, kind, 0, k);
    BlockMoves(c, kind, k, k);
    var from, into := SitesOfReplicate(c, kind, 0), SitesOfReplicate(c, kind, k);
    forall i | 0 <= i < |into|
      ensures Seen(c.replicates[p].id, IdAt(c, into[i]))
           == Replicated(IdAt(c, from[i]), if k == p then OWN else OTHER)
    {
      IdMoves(c, from[i], k);
      assert c.replicates[k].id == c.replicates[p].id <==> k == p;
    }
  }

  function SeenBag(c: Campaign, kind: Kind, p: nat, k: nat): multiset<NodeId>
    requires kind != PureAtBSample && c.replicates != []
  {
    if k == 0 then multiset{}
    else SeenBag(c, kind, p, k - 1) + multiset(Block(c, kind, if k - 1 == p then OWN else OTHER))
  }

  lemma SeenJoin(own: int, a: seq<NodeId>, b: seq<NodeId>)
    ensures SeenAll(own, a + b) == SeenAll(own, a) + SeenAll(own, b)
  {
  }

  lemma IdsJoin(c: Campaign, a: seq<Site>, b: seq<Site>)
    requires AllValid(c, a) && AllValid(c, b)
    ensures AllValid(c, a + b) && IdsAt(c, a + b) == IdsAt(c, a) + IdsAt(c, b)
  {
    hide Valid, IdAt;
  }

  lemma {:induction false} StageBag(c: Campaign, kind: Kind, p: nat, k: nat)
    requires c.Distinct() && kind != PureAtBSample && p < |c.replicates| && k <= |c.replicates|
    ensures AllValid(c, SitesBelow(c, kind, k))
    ensures multiset(SeenAll(c.replicates[p].id, IdsAt(c, SitesBelow(c, kind, k)))) == SeenBag(c, kind, p, k)
    decreases k
  {
    hide Valid, IdAt, SitesBelow, SitesOfReplicate, Block, SeenAll, IdsAt;
    SitesBelowValid(c, kind, k);
    OneMoreReplicate(c, kind, 0);
    if k == 0 {
      assert IdsAt(c, []) == [];
      assert SeenAll(c.replicates[p].id, []) == [];
    } else {
      StageBag(c, kind, p, k - 1);
      BlockSeen(c, kind, p, k - 1);
      OneMoreReplicate(c, kind, k - 1);
      IdsJoin(c, SitesBelow(c, kind, k - 1), SitesOfReplicate(c, kind, k - 1));
      SeenJoin(
        c.replicates[p].id, IdsAt(c, SitesBelow(c, kind, k - 1)), IdsAt(c, SitesOfReplicate(c, kind, k - 1)));
    }
  }

  /** Whatever replicate looks, a stage holds one own block and as many others'. */
  lemma {:induction false} SameBag(c: Campaign, kind: Kind, p: nat, k: nat)
    requires kind != PureAtBSample && c.replicates != []
    ensures var own, other := multiset(Block(c, kind, OWN)), multiset(Block(c, kind, OTHER));
            if p < k then SeenBag(c, kind, p, k) + other == SeenBag(c, kind, k, k) + own
            else SeenBag(c, kind, p, k) == SeenBag(c, kind, k, k)
    decreases k
  {
    hide Block;
    if k > 0 {
      SameBag(c, kind, p, k - 1);
      SameBag(c, kind, k, k - 1);
    }
  }

  lemma StageIdsBelow(c: Campaign, kind: Kind)
    requires kind != PureAtBSample
    ensures AllValid(c, SitesBelow(c, kind, |c.replicates|))
    ensures StageIds(c, kind) == IdsAt(c, SitesBelow(c, kind, |c.replicates|))
  {
    SitesBelowValid(c, kind, |c.replicates|);
    assert Product(Dims(c, kind)) == Rows(Dims(c, kind), |c.replicates|);
  }

  /** A reference to every node of a stage looks the same from every replicate. */
  lemma StageLooksAlike(c: Campaign, kind: Kind, p: nat, q: nat)
    requires c.Distinct() && kind != PureAtBSample && p < |c.replicates| && q < |c.replicates|
    ensures multiset(SeenAll(c.replicates[p].id, StageIds(c, kind)))
         == multiset(SeenAll(c.replicates[q].id, StageIds(c, kind)))
  {
    hide SitesBelow, SitesOfReplicate, Block, SeenAll, IdsAt, StageIds;
    StageIdsBelow(c, kind);
    var n := |c.replicates|;
    StageBag(c, kind, p, n);
    StageBag(c, kind, q, n);
    SameBag(c, kind, p, n);
    SameBag(c, kind, q, n);
    Cancel(SeenBag(c, kind, p, n), SeenBag(c, kind, q, n), multiset(Block(c, kind, OTHER)));
  }

  lemma Cancel(a: multiset<NodeId>, b: multiset<NodeId>, x: multiset<NodeId>)
    requires a + x == b + x
    ensures a == b
  {
    assert forall e :: (a + x)[e] == a[e] + x[e] && (b + x)[e] == b[e] + x[e];
  }

  // ---------------------------------------------------------------- references to one's own nodes

  lemma {:induction false} OwnJoin(a: seq<NodeId>, b: seq<NodeId>, s: Selector)
    ensures Own(a + b, s) == Own(a, s) + Own(b, s)
    decreases |b|
  {
    if b == [] {
      assert a + b == a;
    } else {
      assert (a + b)[..|a + b| - 1] == a + b[..|b| - 1];
      OwnJoin(a, b[..|b| - 1], s);
    }
  }

  lemma {:induction false} NoneOwn(ids: seq<NodeId>, s: Selector)
    requires forall i :: 0 <= i < |ids| ==> ids[i].replicate != s.replicate
    ensures Own(ids, s) == []
    decreases |ids|
  {
    if ids != [] {
      NoneOwn(ids[..|ids| - 1], s);
    }
  }

  lemma {:induction false} OwnBelow(c: Campaign, kind: Kind, p: nat, k: nat, s: Selector)
    requires c.Distinct() && kind != PureAtBSample && p < |c.replicates| && k <= |c.replicates|
    requires s.replicate == c.replicates[p].id
    ensures AllValid(c, SitesBelow(c, kind, k)) && AllValid(c, SitesOfReplicate(c, kind, p))
    ensures Own(IdsAt(c, SitesBelow(c, kind, k)), s)
         == if p < k then Own(IdsAt(c, SitesOfReplicate(c, kind, p)), s) else []
    decreases k
  {
    hide Valid, IdAt, SitesBelow, SitesOfReplicate, Own;
    SitesBelowValid(c, kind, k);
    OneMoreReplicate(c, kind, 0);
    BlockMoves(c, kind, p, p);
    if k == 0 {
      NoneOwn(IdsAt(c, SitesBelow(c, kind, 0)), s);
    } else {
      OwnBelow(c, kind, p, k - 1, s);
      OwnOfBlock(c, kind, p, k - 1, s);
      OneMoreReplicate(c, kind, k - 1);
      IdsJoin(c, SitesBelow(c, kind, k - 1), SitesOfReplicate(c, kind, k - 1));
      OwnJoin(IdsAt(c, SitesBelow(c, kind, k - 1)), IdsAt(c, SitesOfReplicate(c, kind, k - 1)), s);
    }
  }

  lemma OwnOfBlock(c: Campaign, kind: Kind, p: nat, k: nat, s: Selector)
    requires c.Distinct() && kind != PureAtBSample && p < |c.replicates| && k < |c.replicates|
    requires s.replicate == c.replicates[p].id
    ensures AllValid(c, SitesOfReplicate(c, kind, k))
    ensures k != p ==> Own(IdsAt(c, SitesOfReplicate(c, kind, k)), s) == []
  {
    hide Valid, IdAt, SitesOfReplicate, Own;
    BlockMoves(c, kind, k, k);
    var block := SitesOfReplicate(c, kind, k);
    forall i | 0 <= i < |block|
      ensures IdsAt(c, block)[i].replicate == c.replicates[k].id
    {
      IdMoves(c, block[i], k);
    }
    if k != p {
      NoneOwn(IdsAt(c, block), s);
    }
  }

  lemma {:induction false} OwnMoves(
    from: seq<NodeId>, into: seq<NodeId>, r: int, r': int, arm: Arm, pipeline: Option<nat>)
    requires |from| == |into|
    requires forall i :: 0 <= i < |from| ==> from[i].replicate == r && into[i] == Replicated(from[i], r')
    ensures SeenAll(r, Own(from, Selector(r, arm, pipeline))) == SeenAll(r', Own(into, Selector(r', arm, pipeline)))
    decreases |from|
  {
    if from != [] {
      var n := |from| - 1;
      OwnMoves(from[..n], into[..n], r, r', arm, pipeline);
      var s, s' := Selector(r, arm, pipeline), Selector(r', arm, pipeline);
      assert Selects(s, from[n]) <==> Selects(s', into[n]);
      if Selects(s, from[n]) {
        SeenJoin(r, Own(from[..n], s), [from[n]]);
        SeenJoin(r', Own(into[..n], s'), [into[n]]);
        assert SeenAll(r, [from[n]]) == SeenAll(r', [into[n]]);
      }
    }
  }

  /** What a replicate selects among its own nodes of a stage looks the same from every replicate. */
  lemma OwnLooksAlike(c: Campaign, kind: Kind, p: nat, q: nat, arm: Arm, pipeline: Option<nat>)
    requires c.Distinct() && kind != PureAtBSample && p < |c.replicates| && q < |c.replicates|
    ensures var r, r' := c.replicates[p].id, c.replicates[q].id;
            SeenAll(r, Own(StageIds(c, kind), Selector(r, arm, pipeline)))
            == SeenAll(r', Own(StageIds(c, kind), Selector(r', arm, pipeline)))
  {
    hide Valid, IdAt, SitesBelow, SitesOfReplicate, StageIds, Own;
    var r, r' := c.replicates[p].id, c.replicates[q].id;
    StageIdsBelow(c, kind);
    OwnBelow(c, kind, p, |c.replicates|, Selector(r, arm, pipeline));
    OwnBelow(c, kind, q, |c.replicates|, Selector(r', arm, pipeline));
    BlockMoves(c, kind, p, q);
    var from, into := SitesOfReplicate(c, kind, p), SitesOfReplicate(c, kind, q);
    forall i | 0 <= i < |from|
      ensures IdsAt(c, from)[i].replicate == r && IdsAt(c, into)[i] == Replicated(IdsAt(c, from)[i], r')
    {
      IdMoves(c, from[i], q);
    }
    OwnMoves(IdsAt(c, from), IdsAt(c, into), r, r', arm, pipeline);
  }

  // ---------------------------------------------------------------- one node, seen from two replicates

  /** The first of one's own nodes looks the same from every replicate. */
  lemma HeadLooksAlike(c: Campaign, kind: Kind, p: nat, q: nat, arm: Arm, pipeline: Option<nat>)
    requires c.Distinct() && kind != PureAtBSample && p < |c.replicates| && q < |c.replicates|
    ensures var r, r' := c.replicates[p].id, c.replicates[q].id;
            var own, own' := Own(StageIds(c, kind), Selector(r, arm, pipeline)),
                             Own(StageIds(c, kind), Selector(r', arm, pipeline));
            |own| == |own'| && (own != [] ==> Seen(r, own[0]) == Seen(r', own'[0]))
  {
    hide Own, StageIds;
    var r, r' := c.replicates[p].id, c.replicates[q].id;
    OwnLooksAlike(c, kind, p, q, arm, pipeline);
    var own, own' := Own(StageIds(c, kind), Selector(r, arm, pipeline)),
                     Own(StageIds(c, kind), Selector(r', arm, pipeline));
    assert |SeenAll(r, own)| == |SeenAll(r', own')|;
    if own != [] {
      assert SeenAll(r, own)[0] == SeenAll(r', own')[0];
    }
  }

  lemma OwnDiagnosisAlike(c: Campaign, site: Site, q: nat)
    requires c.Distinct() && site.kind == Proposal && Valid(c, site) && q < |c.replicates|
    ensures Moved(site, q).kind == Proposal && Valid(c, Moved(site, q)) && site.at != [] && site.at[0] < |c.replicates|
    ensures Seen(c.replicates[site.at[0]].id, OwnDiagnosis(c, site))
         == Seen(c.replicates[q].id, OwnDiagnosis(c, Moved(site, q)))
  {
    hide Own, StageIds, Valid, OwnDiagnosis, IdAt;
    IdMoves(c, site, q);
    FirstDiagnosis(c, site);
    FirstDiagnosis(c, Moved(site, q));
    HeadLooksAlike(c, Diagnosis, site.at[0], q, IdAt(c, site).arm, IdAt(c, site).pipeline);
  }

  lemma OwnProposalAlike(c: Campaign, site: Site, q: nat)
    requires c.Distinct() && site.kind == CandidateFit && Valid(c, site) && q < |c.replicates|
    ensures Moved(site, q).kind == CandidateFit && Valid(c, Moved(site, q))
    ensures site.at != [] && site.at[0] < |c.replicates|
    ensures Seen(c.replicates[site.at[0]].id, OwnProposal(c, site))
         == Seen(c.replicates[q].id, OwnProposal(c, Moved(site, q)))
  {
    hide Own, StageIds, Valid, OwnProposal, IdAt;
    IdMoves(c, site, q);
    FirstProposal(c, site);
    FirstProposal(c, Moved(site, q));
    HeadLooksAlike(c, Proposal, site.at[0], q, IdAt(c, site).arm, IdAt(c, site).pipeline);
  }

  lemma OwnNominationAlike(c: Campaign, site: Site, q: nat)
    requires c.Distinct() && (site.kind == Gate || site.kind == GateDecision) && Valid(c, site)
    requires q < |c.replicates|
    ensures Moved(site, q).kind == site.kind && Valid(c, Moved(site, q))
    ensures site.at != [] && site.at[0] < |c.replicates|
    ensures Seen(c.replicates[site.at[0]].id, OwnNomination(c, site))
         == Seen(c.replicates[q].id, OwnNomination(c, Moved(site, q)))
  {
    hide Own, StageIds, Valid, OwnNomination, IdAt;
    IdMoves(c, site, q);
    FirstNomination(c, site);
    FirstNomination(c, Moved(site, q));
    HeadLooksAlike(c, Nomination, site.at[0], q, IdAt(c, site).arm, None);
  }

  /** Nomination dependencies repeat no node, so dropping repetitions changes nothing. */
  lemma NothingRepeats(c: Campaign, r: int, arm: Arm)
    requires c.Distinct()
    ensures var own := Selector(r, arm, None);
            var all := StageIds(c, CandidateFit) + Own(StageIds(c, ParentFit), own) + Own(StageIds(c, Proposal), own);
            Unique(all) == all
  {
    hide StageIds;
    var own := Selector(r, arm, None);
    var fits, parents, proposals :=
      StageIds(c, CandidateFit), Own(StageIds(c, ParentFit), own), Own(StageIds(c, Proposal), own);
    hide Own;
    StageIdsDistinct(c, CandidateFit);
    StageIdsDistinct(c, ParentFit);
    StageIdsDistinct(c, Proposal);
    OwnDistinct(StageIds(c, ParentFit), own);
    OwnDistinct(StageIds(c, Proposal), own);
    ConcatenatedKinds(fits, parents);
    assert forall x: NodeId :: x in fits + parents ==> x.kind != Proposal;
    ConcatenatedKinds(fits + parents, proposals);
    UniqueOfDistinct(fits + parents + proposals);
  }

  lemma {:induction false} UniqueOfDistinct(ids: seq<NodeId>)
    requires NoDuplicates(ids)
    ensures Unique(ids) == ids
    decreases |ids|
  {
    if ids != [] {
      UniqueOfDistinct(ids[..|ids| - 1]);
    }
  }

  /** A site's references, seen from its replicate, are the moved site's, seen from its new one. */
  ghost predicate Alike(r: int, ids: seq<NodeId>, r': int, ids': seq<NodeId>) {
    multiset(SeenAll(r, ids)) == multiset(SeenAll(r', ids'))
  }

  lemma AlikeJoin(r: int, a: seq<NodeId>, b: seq<NodeId>, r': int, a': seq<NodeId>, b': seq<NodeId>)
    requires Alike(r, a, r', a') && Alike(r, b, r', b')
    ensures Alike(r, a + b, r', a' + b')
  {
    SeenJoin(r, a, b);
    SeenJoin(r', a', b');
  }

  lemma AlikeOne(r: int, id: NodeId, r': int, id': NodeId)
    requires Seen(r, id) == Seen(r', id')
    ensures Alike(r, [id], r', [id'])
  {
    assert SeenAll(r, [id]) == SeenAll(r', [id']);
  }

  lemma DependenciesAlike(c: Campaign, site: Site, q: nat)
    requires c.Distinct() && Valid(c, site) && q < |c.replicates|
    ensures Valid(c, Moved(site, q)) && site.at != [] && site.at[0] < |c.replicates|
    ensures Alike(
              c.replicates[site.at[0]].id, DependsOn(c, site), c.replicates[q].id, DependsOn(c, Moved(site, q)))
  {
    hide StageIds, Own, Unique, Valid, IdAt, SeenAll, OwnNomination;
    IdMoves(c, site, q);
    var p, moved, arm := site.at[0], Moved(site, q), IdAt(c, site).arm;
    var r, r' := c.replicates[p].id, c.replicates[q].id;
    match site.kind {
      case ParentFit => assert SeenAll(r, []) == SeenAll(r', []);
      case Diagnosis => StageLooksAlike(c, ParentFit, p, q);
      case Proposal => StageLooksAlike(c, Diagnosis, p, q);
      case CandidateFit => StageLooksAlike(c, Proposal, p, q);
      case Nomination =>
        NothingRepeats(c, r, arm);
        NothingRepeats(c, r', arm);
        StageLooksAlike(c, CandidateFit, p, q);
        OwnLooksAlike(c, ParentFit, p, q, arm, None);
        OwnLooksAlike(c, Proposal, p, q, arm, None);
        var s, s' := Selector(r, arm, None), Selector(r', arm, None);
        var all := StageIds(c, CandidateFit);
        var parents, parents' := Own(StageIds(c, ParentFit), s), Own(StageIds(c, ParentFit), s');
        AlikeJoin(r, all, parents, r', all, parents');
        AlikeJoin(
          r, all + parents, Own(StageIds(c, Proposal), s), r', all + parents', Own(StageIds(c, Proposal), s'));
      case Gate => StageLooksAlike(c, Nomination, p, q);
      case GateDecision =>
        StageLooksAlike(c, Gate, p, q);
        OwnNominationAlike(c, site, q);
        AlikeOne(r, OwnNomination(c, site), r', OwnNomination(c, moved));
        AlikeJoin(
          r, StageIds(c, Gate), [OwnNomination(c, site)], r', StageIds(c, Gate), [OwnNomination(c, moved)]);
      case Holdout => StageLooksAlike(c, GateDecision, p, q);
      case PureAtBSample => StageLooksAlike(c, GateDecision, p, q);
    }
  }

  lemma EvidenceAlike(c: Campaign, site: Site, q: nat)
    requires c.Distinct() && Valid(c, site) && q < |c.replicates|
    ensures Valid(c, Moved(site, q)) && site.at != [] && site.at[0] < |c.replicates|
    ensures Alike(c.replicates[site.at[0]].id, Evidence(c, site), c.replicates[q].id, Evidence(c, Moved(site, q)))
  {
    hide StageIds, Own, Valid, IdAt, SeenAll, OwnNomination, OwnDiagnosis, OwnProposal;
    IdMoves(c, site, q);
    var p, moved, arm := site.at[0], Moved(site, q), IdAt(c, site).arm;
    var r, r' := c.replicates[p].id, c.replicates[q].id;
    var s, s' := Selector(r, arm, None), Selector(r', arm, None);
    match site.kind {
      case ParentFit => assert SeenAll(r, []) == SeenAll(r', []);
      case Diagnosis => OwnLooksAlike(c, ParentFit, p, q, arm, None);
      case Proposal =>
        OwnDiagnosisAlike(c, site, q);
        AlikeOne(r, OwnDiagnosis(c, site), r', OwnDiagnosis(c, moved));
      case CandidateFit =>
        OwnProposalAlike(c, site, q);
        AlikeOne(r, OwnProposal(c, site), r', OwnProposal(c, moved));
      case Nomination =>
        OwnLooksAlike(c, ParentFit, p, q, arm, None);
        OwnLooksAlike(c, Proposal, p, q, arm, None);
        OwnLooksAlike(c, CandidateFit, p, q, arm, None);
        var a, b, d := Own(StageIds(c, ParentFit), s), Own(StageIds(c, Proposal), s), Own(StageIds(c, CandidateFit), s);
        var a', b', d' :=
          Own(StageIds(c, ParentFit), s'), Own(StageIds(c, Proposal), s'), Own(StageIds(c, CandidateFit), s');
        AlikeJoin(r, a, b, r', a', b');
        AlikeJoin(r, a + b, d, r', a' + b', d');
      case Gate =>
        OwnNominationAlike(c, site, q);
        AlikeOne(r, OwnNomination(c, site), r', OwnNomination(c, moved));
      case GateDecision =>
        OwnNominationAlike(c, site, q);
        AlikeOne(r, OwnNomination(c, site), r', OwnNomination(c, moved));
        OwnLooksAlike(c, Gate, p, q, arm, None);
        AlikeJoin(
          r, [OwnNomination(c, site)], Own(StageIds(c, Gate), s),
          r', [OwnNomination(c, moved)], Own(StageIds(c, Gate), s'));
      case Holdout => OwnLooksAlike(c, GateDecision, p, q, arm, None);
      case PureAtBSample => assert SeenAll(r, []) == SeenAll(r', []);
    }
  }

  /** A node and its counterpart in another replicate have the same shape. */
  lemma ShapeMoves(c: Campaign, site: Site, q: nat)
    requires c.Distinct() && Valid(c, site) && q < |c.replicates|
    ensures Valid(c, Moved(site, q)) && site.at != [] && site.at[0] < |c.replicates|
    ensures ShapeOf(c.replicates[site.at[0]].id, DraftAt(c, site))
         == ShapeOf(c.replicates[q].id, DraftAt(c, Moved(site, q)))
  {
    hide StageIds, SeenAll, DependsOn, Evidence;
    DependenciesAlike(c, site, q);
    EvidenceAlike(c, site, q);
    IdMoves(c, site, q);
    hide Valid, IdAt;
    RestMoves(c, site, q);
  }

  lemma RestMoves(c: Campaign, site: Site, q: nat)
    requires Valid(c, site) && q < |c.replicates|
    ensures Valid(c, Moved(site, q))
    ensures HarnessAt(c, Moved(site, q)) == HarnessAt(c, site) && SeedAt(c, Moved(site, q)) == SeedAt(c, site)
  {
    IdMoves(c, site, q);
  }

  // ---------------------------------------------------------------- the whole plan

  lemma {:induction false} ShapesJoin(own: int, a: seq<Draft>, b: seq<Draft>)
    ensures ShapesIn(own, a + b) == ShapesIn(own, a) + ShapesIn(own, b)
    decreases |b|
  {
    hide ShapeOf;
    if b == [] {
      assert a + b == a;
    } else {
      assert (a + b)[..|a + b| - 1] == a + b[..|b| - 1];
      ShapesJoin(own, a, b[..|b| - 1]);
    }
  }

  function ShapesAt(c: Campaign, p: nat, sites: seq<Site>): seq<Shape>
    requires AllValid(c, sites) && p < |c.replicates|
  {
    ShapesIn(c.replicates[p].id, DraftsOf(c, sites))
  }

  lemma ShapesAtJoin(c: Campaign, p: nat, a: seq<Site>, b: seq<Site>)
    requires AllValid(c, a) && AllValid(c, b) && p < |c.replicates|
    ensures AllValid(c, a + b) && ShapesAt(c, p, a + b) == ShapesAt(c, p, a) + ShapesAt(c, p, b)
  {
    hide Valid, DraftAt;
    assert DraftsOf(c, a + b) == DraftsOf(c, a) + DraftsOf(c, b);
    ShapesJoin(c.replicates[p].id, DraftsOf(c, a), DraftsOf(c, b));
  }

  /** Sites of another replicate contribute nothing; moved sites contribute the same. */
  lemma {:induction false} ShapesMove(c: Campaign, from: seq<Site>, into: seq<Site>, p: nat, q: nat)
    requires c.Distinct() && p < |c.replicates| && q < |c.replicates|
    requires AllValid(c, from) && AllMoved(from, into, p, q)
    ensures AllValid(c, into) && ShapesAt(c, p, from) == ShapesAt(c, q, into)
    ensures p != q ==> ShapesAt(c, q, from) == []
    decreases |from|
  {
    hide Valid, DraftAt, ShapeOf;
    forall s | s in into ensures Valid(c, s) {
      var i :| 0 <= i < |into| && into[i] == s;
      assert from[i] in from;
      IdMoves(c, from[i], q);
    }
    if from != [] {
      var n := |from| - 1;
      assert from[n] in from && (forall s :: s in from[..n] ==> s in from);
      ShapesMove(c, from[..n], into[..n], p, q);
      assert DraftsOf(c, from)[..n] == DraftsOf(c, from[..n]) && DraftsOf(c, into)[..n] == DraftsOf(c, into[..n]);
      ShapeMoves(c, from[n], q);
      DraftReplicate(c, from[n]);
      DraftReplicate(c, into[n]);
      assert into[n].at[0] == q;
      assert c.replicates[p].id == c.replicates[q].id <==> p == q;
    }
  }

  lemma DraftReplicate(c: Campaign, site: Site)
    requires Valid(c, site)
    ensures site.at != [] && site.at[0] < |c.replicates|
    ensures DraftAt(c, site).id.replicate == c.replicates[site.at[0]].id
  {
    assert |c.replicates| > 0 by { assert |site.at| > 0 && site.at[0] < Dims(c, site.kind)[0]; }
    IdMoves(c, site, 0);
  }

  lemma {:induction false} ShapesBelow(c: Campaign, kind: Kind, p: nat, k: nat)
    requires c.Distinct() && kind != PureAtBSample && p < |c.replicates| && k <= |c.replicates|
    ensures AllValid(c, SitesBelow(c, kind, k)) && AllValid(c, SitesOfReplicate(c, kind, p))
    ensures ShapesAt(c, p, SitesBelow(c, kind, k))
         == if p < k then ShapesAt(c, p, SitesOfReplicate(c, kind, p)) else []
    decreases k
  {
    hide Valid, SitesBelow, SitesOfReplicate, ShapesAt;
    SitesBelowValid(c, kind, k);
    OneMoreReplicate(c, kind, 0);
    BlockMoves(c, kind, p, p);
    if k == 0 {
      NoShapes(c, p);
    } else {
      ShapesBelow(c, kind, p, k - 1);
      BlockMoves(c, kind, k - 1, p);
      ShapesMove(c, SitesOfReplicate(c, kind, k - 1), SitesOfReplicate(c, kind, p), k - 1, p);
      OneMoreReplicate(c, kind, k - 1);
      ShapesAtJoin(c, p, SitesBelow(c, kind, k - 1), SitesOfReplicate(c, kind, k - 1));
    }
  }

  lemma NoShapes(c: Campaign, p: nat)
    requires p < |c.replicates|
    ensures AllValid(c, []) && ShapesAt(c, p, []) == []
  {
  }

  /** A stage looks the same from every replicate. */
  lemma StageShapesAlike(c: Campaign, kind: Kind, p: nat, q: nat)
    requires c.Distinct() && kind != PureAtBSample && p < |c.replicates| && q < |c.replicates|
    ensures AllValid(c, StageSites(c, kind))
    ensures ShapesAt(c, p, StageSites(c, kind)) == ShapesAt(c, q, StageSites(c, kind))
  {
    hide Valid, ShapesAt, SitesOfReplicate;
    var n := |c.replicates|;
    assert StageSites(c, kind) == SitesBelow(c, kind, n) by {
      assert Product(Dims(c, kind)) == Rows(Dims(c, kind), n);
    }
    ShapesBelow(c, kind, p, n);
    ShapesBelow(c, kind, q, n);
    BlockMoves(c, kind, p, q);
    ShapesMove(c, SitesOfReplicate(c, kind, p), SitesOfReplicate(c, kind, q), p, q);
  }

  /** The last stage's sites of one replicate. */
  function LateSites(c: Campaign, r: nat): seq<Site> {
    HoldoutSites(c, r) + SampleSites(c, r, |c.holdout|)
  }

  lemma {:induction false} SamplesMove(c: Campaign, p: nat, q: nat, t: nat)
    requires t <= |c.holdout|
    ensures AllMoved(SampleSites(c, p, t), SampleSites(c, q, t), p, q)
    decreases t
  {
    if t > 0 {
      SamplesMove(c, p, q, t - 1);
      var n := SampleCount(c, c.holdout[t - 1]);
      var from, into := SampleRow(p, t - 1, n), SampleRow(q, t - 1, n);
      forall i | 0 <= i < n
        ensures into[i] == Moved(from[i], q)
      {
        assert from[i].at[0 := q] == into[i].at;
      }
      assert AllMoved(from, into, p, q);
    }
  }

  lemma LateSitesMove(c: Campaign, p: nat, q: nat)
    requires p < |c.replicates| && q < |c.replicates|
    ensures AllMoved(LateSites(c, p), LateSites(c, q), p, q) && AllValid(c, LateSites(c, p))
  {
    BlockMoves(c, Holdout, p, q);
    assert Dims(c, Holdout)[1..] == [|c.holdout|, |HOLDOUT_ARMS|];
    assert HoldoutSites(c, p) == SitesOfReplicate(c, Holdout, p);
    assert HoldoutSites(c, q) == SitesOfReplicate(c, Holdout, q);
    SamplesMove(c, p, q, |c.holdout|);
    forall s | s in SampleSites(c, p, |c.holdout|) ensures Valid(c, s) {
      SampleSitesMembers(c, p, |c.holdout|, s);
    }
  }

  lemma {:induction false} LateShapes(c: Campaign, p: nat, k: nat)
    requires c.Distinct() && p < |c.replicates| && k <= |c.replicates|
    ensures AllValid(c, EvaluationSites(c, k)) && AllValid(c, LateSites(c, p))
    ensures ShapesAt(c, p, EvaluationSites(c, k)) == if p < k then ShapesAt(c, p, LateSites(c, p)) else []
    decreases k
  {
    hide Valid, ShapesAt, LateSites;
    LateSitesMove(c, p, p);
    if k == 0 {
      NoShapes(c, p);
    } else {
      LateShapes(c, p, k - 1);
      LateSitesMove(c, k - 1, p);
      ShapesMove(c, LateSites(c, k - 1), LateSites(c, p), k - 1, p);
      ShapesAtJoin(c, p, EvaluationSites(c, k - 1), LateSites(c, k - 1));
      EvaluationGrows(c, k);
    }
  }

  lemma EvaluationGrows(c: Campaign, k: nat)
    requires 0 < k <= |c.replicates|
    ensures EvaluationSites(c, k) == EvaluationSites(c, k - 1) + LateSites(c, k - 1)
  {
  }

  lemma LateShapesAlike(c: Campaign, p: nat, q: nat)
    requires c.Distinct() && p < |c.replicates| && q < |c.replicates|
    ensures AllValid(c, EvaluationSites(c, |c.replicates|))
    ensures ShapesAt(c, p, EvaluationSites(c, |c.replicates|)) == ShapesAt(c, q, EvaluationSites(c, |c.replicates|))
  {
    hide Valid, ShapesAt, LateSites;
    LateShapes(c, p, |c.replicates|);
    LateShapes(c, q, |c.replicates|);
    LateSitesMove(c, p, q);
    ShapesMove(c, LateSites(c, p), LateSites(c, q), p, q);
  }

  lemma ShapesAlikeJoin(c: Campaign, p: nat, q: nat, a: seq<Site>, b: seq<Site>)
    requires p < |c.replicates| && q < |c.replicates| && AllValid(c, a) && AllValid(c, b)
    requires ShapesAt(c, p, a) == ShapesAt(c, q, a) && ShapesAt(c, p, b) == ShapesAt(c, q, b)
    ensures AllValid(c, a + b) && ShapesAt(c, p, a + b) == ShapesAt(c, q, a + b)
  {
    hide Valid, ShapesAt;
    ShapesAtJoin(c, p, a, b);
    ShapesAtJoin(c, q, a, b);
  }

  lemma AlikeWithStage(c: Campaign, p: nat, q: nat, before: seq<Site>, kind: Kind)
    requires c.Distinct() && kind != PureAtBSample && p < |c.replicates| && q < |c.replicates|
    requires AllValid(c, before) && ShapesAt(c, p, before) == ShapesAt(c, q, before)
    ensures AllValid(c, before + StageSites(c, kind))
    ensures ShapesAt(c, p, before + StageSites(c, kind)) == ShapesAt(c, q, before + StageSites(c, kind))
  {
    hide Valid, ShapesAt, StageSites;
    StageShapesAlike(c, kind, p, q);
    ShapesAlikeJoin(c, p, q, before, StageSites(c, kind));
  }

  lemma PlanShapesAlike(c: Campaign, p: nat, q: nat)
    requires c.Distinct() && p < |c.replicates| && q < |c.replicates|
    ensures ShapesIn(c.replicates[p].id, Drafts(c)) == ShapesIn(c.replicates[q].id, Drafts(c))
  {
    hide Valid, StageSites, EvaluationSites, ShapesIn, DraftsOf;
    var sites := StageSites(c, ParentFit);
    StageShapesAlike(c, ParentFit, p, q);
    AlikeWithStage(c, p, q, sites, Diagnosis);
    sites := sites + StageSites(c, Diagnosis);
    AlikeWithStage(c, p, q, sites, Proposal);
    sites := sites + StageSites(c, Proposal);
    AlikeWithStage(c, p, q, sites, CandidateFit);
    sites := sites + StageSites(c, CandidateFit);
    AlikeWithStage(c, p, q, sites, Nomination);
    sites := sites + StageSites(c, Nomination);
    AlikeWithStage(c, p, q, sites, Gate);
    sites := sites + StageSites(c, Gate);
    AlikeWithStage(c, p, q, sites, GateDecision);
    sites := sites + StageSites(c, GateDecision);
    LateShapesAlike(c, p, q);
    ShapesAlikeJoin(c, p, q, sites, EvaluationSites(c, |c.replicates|));
    assert sites + EvaluationSites(c, |c.replicates|) == Sites(c);
  }

  /** All replicates of a numbered plan have one topology, slots included. */
  lemma ReplicatesShareTopology(
    c: Campaign, nodes: seq<Node>, seedOf: (int, SeedCoordinate) -> int, p: nat, q: nat)
    requires c.Distinct() && p < |c.replicates| && q < |c.replicates|
    requires Numbered(Drafts(c), nodes, seedOf)
    ensures TopologyIn(c.replicates[p].id, nodes) == TopologyIn(c.replicates[q].id, nodes)
  {
    hide Drafts, TopologyIn, ShapesIn, Numbering;
    assert nodes[..|nodes|] == nodes && Drafts(c)[..|nodes|] == Drafts(c);
    SlotsFollow(Drafts(c), nodes, seedOf, c.replicates[p].id, |nodes|);
    SlotsFollow(Drafts(c), nodes, seedOf, c.replicates[q].id, |nodes|);
    PlanShapesAlike(c, p, q);
  }
}
