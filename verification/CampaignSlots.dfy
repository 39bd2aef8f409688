/**
 Slot numbering of the final nodes. Counters in dictionaries advance along the drafts; the
 slots of every group of nodes, read along the plan, are exactly the numbers from zero up.
 */
module CampaignSlots {
  import opened Prelude
  import opened RowMajor
  import opened CampaignContracts
  import opened CampaignPlan
  import opened CampaignFlow

  /** The five families of nodes that are numbered separately. */
  datatype Group =
    | AllNodes
    | Calls
    | OfReplicate(replicate: int)
    | CallsOfReplicate(replicate: int)
    | CallsOfArm(replicate: int, arm: Arm)

  predicate In(g: Group, d: Draft) {
    match g
    case AllNodes => true
    case Calls => d.seed.Some?
    case OfReplicate(r) => d.id.replicate == r
    case CallsOfReplicate(r) => d.id.replicate == r && d.seed.Some?
    case CallsOfArm(r, a) => d.id.replicate == r && d.id.arm == a && d.seed.Some?
  }

  function SlotIn(g: Group, n: Node): Option<nat> {
    match g
    case AllNodes => Some(n.nodeSlot)
    case Calls => n.campaignCallSlot
    case OfReplicate(_) => Some(n.replicateNodeSlot)
    case CallsOfReplicate(_) => n.replicateCallSlot
    case CallsOfArm(_, _) => n.armSlot
  }

  function Count(drafts: seq<Draft>, g: Group): (n: nat)
    ensures n <= |drafts|
  {
    if drafts == [] then 0
    else Count(drafts[..|drafts| - 1], g) + if In(g, drafts[|drafts| - 1]) then 1 else 0
  }

  /** Final nodes keep their drafts and number each group's members by how many came before. */
  ghost predicate Numbered(drafts: seq<Draft>, nodes: seq<Node>, seedOf: (int, SeedCoordinate) -> int) {
    |nodes| == |drafts| && forall i :: 0 <= i < |nodes| ==> NumberedAt(drafts, i, nodes[i], seedOf)
  }

  ghost predicate NumberedAt(drafts: seq<Draft>, i: nat, node: Node, seedOf: (int, SeedCoordinate) -> int)
    requires i < |drafts|
  {
    && node.draft == drafts[i]
    && (forall g :: SlotIn(g, node) == ExpectedSlot(drafts, i, g))
    && node.providerSeed
       == if drafts[i].seed.Some? then Some(seedOf(drafts[i].outerSeed, drafts[i].seed.value)) else None
  }

  /** The slot in a group: the number of earlier members, for nodes that are numbered in it. */
  function ExpectedSlot(drafts: seq<Draft>, i: nat, g: Group): Option<nat>
    requires i < |drafts|
  {
    var d := drafts[i];
    match g
    case AllNodes => Some(Count(drafts[..i], AllNodes))
    case Calls => if d.seed.Some? then Some(Count(drafts[..i], Calls)) else None
    case OfReplicate(_) => Some(Count(drafts[..i], OfReplicate(d.id.replicate)))
    case CallsOfReplicate(_) =>
      if d.seed.Some? then Some(Count(drafts[..i], CallsOfReplicate(d.id.replicate))) else None
    case CallsOfArm(_, _) =>
      if d.seed.Some? then Some(Count(drafts[..i], CallsOfArm(d.id.replicate, d.id.arm))) else None
  }

  function At<K>(counters: map<K, nat>, key: K): nat {
    if key in counters then counters[key] else 0
  }

  /** The counters agree with the counts over the drafts handled so far. */
  ghost predicate Counted(
    done: seq<Draft>, calls: nat, nodeSlots: map<int, nat>, callSlots: map<int, nat>, armSlots: map<(int, Arm), nat>)
  {
    && calls == Count(done, Calls)
    && (forall r :: At(nodeSlots, r) == Count(done, OfReplicate(r)))
    && (forall r :: At(callSlots, r) == Count(done, CallsOfReplicate(r)))
    && (forall r, a :: At(armSlots, (r, a)) == Count(done, CallsOfArm(r, a)))
  }

  lemma CountSnoc(done: seq<Draft>, d: Draft, g: Group)
    ensures Count(done + [d], g) == Count(done, g) + if In(g, d) then 1 else 0
  {
    assert (done + [d])[..|done|] == done;
  }

  lemma CountAll(drafts: seq<Draft>)
    ensures Count(drafts, AllNodes) == |drafts|
  {
  }

  lemma StepCounters(
    done: seq<Draft>, d: Draft,
    calls: nat, nodeSlots: map<int, nat>, callSlots: map<int, nat>, armSlots: map<(int, Arm), nat>)
    requires Counted(done, calls, nodeSlots, callSlots, armSlots)
    ensures var r, key := d.id.replicate, (d.id.replicate, d.id.arm);
            var nodeSlots' := nodeSlots[r := At(nodeSlots, r) + 1];
            if d.seed.Some? then
              Counted(
                done + [d], calls + 1, nodeSlots', callSlots[r := At(callSlots, r) + 1],
                armSlots[key := At(armSlots, key) + 1])
            else Counted(done + [d], calls, nodeSlots', callSlots, armSlots)
  {
    hide Count;
    CountSnoc(done, d, Calls);
    forall r
      ensures Count(done + [d], OfReplicate(r)) == Count(done, OfReplicate(r)) + if d.id.replicate == r then 1 else 0
    {
      CountSnoc(done, d, OfReplicate(r));
    }
    forall r
      ensures Count(done + [d], CallsOfReplicate(r))
           == Count(done, CallsOfReplicate(r)) + if d.id.replicate == r && d.seed.Some? then 1 else 0
    {
      CountSnoc(done, d, CallsOfReplicate(r));
    }
    forall r, a
      ensures Count(done + [d], CallsOfArm(r, a))
           == Count(done, CallsOfArm(r, a))
              + if d.id.replicate == r && d.id.arm == a && d.seed.Some? then 1 else 0
    {
      CountSnoc(done, d, CallsOfArm(r, a));
    }
  }

  /** `_finalize_nodes`: one pass over the drafts with running counters. */
  method FinalizeNodes(drafts: seq<Draft>, seedOf: (int, SeedCoordinate) -> int) returns (nodes: seq<Node>)
    ensures Numbered(drafts, nodes, seedOf)
  {
    var calls: nat := 0;
    var nodeSlots: map<int, nat> := map[];
    var callSlots: map<int, nat> := map[];
    var armSlots: map<(int, Arm), nat> := map[];
    nodes := [];
    for i := 0 to |drafts|
      invariant Counted(drafts[..i], calls, nodeSlots, callSlots, armSlots)
      invariant |nodes| == i
      invariant forall k :: 0 <= k < i ==> NumberedAt(drafts, k, nodes[k], seedOf)
    {
      hide Counted, Count, NumberedAt;
      var d := drafts[i];
      var r := d.id.replicate;
      var nodeSlot := At(nodeSlots, r);
      StepCounters(drafts[..i], d, calls, nodeSlots, callSlots, armSlots);
      NodeNumbered(drafts, i, calls, nodeSlots, callSlots, armSlots, seedOf);
      assert drafts[..i + 1] == drafts[..i] + [d];
      var node;
      if d.seed.Some? {
        var key := (r, d.id.arm);
        node := Node(
          i, Some(calls), nodeSlot, Some(At(callSlots, r)), Some(At(armSlots, key)),
          Some(seedOf(d.outerSeed, d.seed.value)), d);
        calls := calls + 1;
        callSlots := callSlots[r := At(callSlots, r) + 1];
        armSlots := armSlots[key := At(armSlots, key) + 1];
      } else {
        node := Node(i, None, nodeSlot, None, None, None, d);
      }
      nodeSlots := nodeSlots[r := nodeSlot + 1];
      nodes := nodes + [node];
    }
  }

  lemma NodeNumbered(
    drafts: seq<Draft>, i: nat,
    calls: nat, nodeSlots: map<int, nat>, callSlots: map<int, nat>, armSlots: map<(int, Arm), nat>,
    seedOf: (int, SeedCoordinate) -> int)
    requires i < |drafts| && Counted(drafts[..i], calls, nodeSlots, callSlots, armSlots)
    ensures var d := drafts[i];
            var nodeSlot := At(nodeSlots, d.id.replicate);
            NumberedAt(
              drafts, i,
              if d.seed.Some? then
                Node(
                  i, Some(calls), nodeSlot, Some(At(callSlots, d.id.replicate)),
                  Some(At(armSlots, (d.id.replicate, d.id.arm))), Some(seedOf(d.outerSeed, d.seed.value)), d)
              else Node(i, None, nodeSlot, None, None, None, d),
              seedOf)
  {
    hide Count;
    CountAll(drafts[..i]);
  }

  // ---------------------------------------------------------------- contiguity

  /** The slots of one group's members, in node order. */
  function SlotsOf(nodes: seq<Node>, g: Group): seq<Option<nat>> {
    if nodes == [] then []
    else
      var last := nodes[|nodes| - 1];
      SlotsOf(nodes[..|nodes| - 1], g) + if In(g, last.draft) then [SlotIn(g, last)] else []
  }

  function Range(n: nat): (r: seq<Option<nat>>)
    ensures |r| == n && forall i :: 0 <= i < n ==> r[i] == Some(i)
  {
    seq(n, i requires 0 <= i => Some(i))
  }

  lemma MemberSlot(
    drafts: seq<Draft>, nodes: seq<Node>, seedOf: (int, SeedCoordinate) -> int, g: Group, i: nat)
    requires Numbered(drafts, nodes, seedOf) && i < |nodes|
    ensures nodes[i].draft == drafts[i]
    ensures In(g, drafts[i]) ==> SlotIn(g, nodes[i]) == Some(Count(drafts[..i], g))
  {
    hide Count;
    assert NumberedAt(drafts, i, nodes[i], seedOf);
    assert SlotIn(g, nodes[i]) == ExpectedSlot(drafts, i, g);
  }

  /** In every group the slots of the members are 0, 1, 2 and so on, in order. */
  lemma {:induction false} SlotsAreContiguous(
    drafts: seq<Draft>, nodes: seq<Node>, seedOf: (int, SeedCoordinate) -> int, g: Group, n: nat)
    requires Numbered(drafts, nodes, seedOf) && n <= |nodes|
    ensures SlotsOf(nodes[..n], g) == Range(Count(drafts[..n], g))
    decreases n
  {
    assert |nodes| == |drafts|;
    hide Numbered, In, SlotIn;
    if n > 0 {
      SlotsAreContiguous(drafts, nodes, seedOf, g, n - 1);
      MemberSlot(drafts, nodes, seedOf, g, n - 1);
      assert nodes[..n] == nodes[..n - 1] + [nodes[n - 1]] && drafts[..n] == drafts[..n - 1] + [drafts[n - 1]];
      OneMoreSlot(drafts[..n - 1], nodes[..n - 1], drafts[n - 1], nodes[n - 1], g);
    }
  }

  lemma OneMoreSlot(drafts: seq<Draft>, nodes: seq<Node>, d: Draft, n: Node, g: Group)
    requires SlotsOf(nodes, g) == Range(Count(drafts, g))
    requires n.draft == d && (In(g, d) ==> SlotIn(g, n) == Some(Count(drafts, g)))
    ensures SlotsOf(nodes + [n], g) == Range(Count(drafts + [d], g))
  {
    hide In, SlotIn, SlotsOf, Count;
    SlotsSnoc(nodes, n, g);
    CountSnoc(drafts, d, g);
  }

  lemma SlotsSnoc(done: seq<Node>, n: Node, g: Group)
    ensures SlotsOf(done + [n], g) == SlotsOf(done, g) + if In(g, n.draft) then [SlotIn(g, n)] else []
  {
    assert (done + [n])[..|done|] == done;
  }
}
