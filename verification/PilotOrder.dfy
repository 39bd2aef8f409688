/** Where each call of each arm stands in the global order, and back; filtering by arm lists them in order. */
module PilotOrder {
  import opened Prelude
  import opened PilotContracts
  import opened PilotPlan

  function HoldoutBase(r: Roster): nat {
    4 * |r.fit| + 4 + 8 * |r.gate|
  }

  function Total(r: Roster): nat {
    HoldoutBase(r) + 4 * |r.holdout| + SamplesBefore(|r.holdout|)
  }

  function ArmSize(r: Roster, arm: Arm): nat {
    match arm
    case PURE => |r.holdout|
    case STATIC => |r.holdout|
    case SCORE => AdaptiveSize(r)
    case FULL => AdaptiveSize(r)
    case PURE_AT_B => SamplesBefore(|r.holdout|)
  }

  function ArmList(a: Arms, arm: Arm): seq<CallSlot> {
    match arm
    case PURE => a.pure
    case STATIC => a.static_
    case SCORE => a.score
    case FULL => a.full
    case PURE_AT_B => a.pureAtB
  }

  /** The global slot of call `s` of an arm; for adaptive arms, FULL follows SCORE stage by stage. */
  function Position(r: Roster, arm: Arm, s: nat): nat {
    var f, g, h := |r.fit|, 4 * |r.gate|, |r.holdout|;
    match arm
    case PURE => HoldoutBase(r) + s
    case STATIC => HoldoutBase(r) + h + s
    case PURE_AT_B => HoldoutBase(r) + 4 * h + s
    case _ =>
      var second := arm == FULL;
      if s < f then (if second then f else 0) + s
      else if s == f then 2 * f + (if second then 1 else 0)
      else if s == f + 1 then 2 * f + 2 + (if second then 1 else 0)
      else if s < GateStart(r) then 2 * f + 4 + (if second then f else 0) + (s - (f + 2))
      else if s < HoldoutStart(r) then 4 * f + 4 + (if second then g else 0) + (s - GateStart(r))
      else HoldoutBase(r) + (if second then 3 else 2) * h + (s - HoldoutStart(r))
  }

  /** The arm and arm slot at a global slot. */
  function CellAt(r: Roster, i: nat): (Arm, nat) {
    var f, g, h := |r.fit|, 4 * |r.gate|, |r.holdout|;
    if i < f then (SCORE, i)
    else if i < 2 * f then (FULL, i - f)
    else if i == 2 * f then (SCORE, f)
    else if i == 2 * f + 1 then (FULL, f)
    else if i == 2 * f + 2 then (SCORE, f + 1)
    else if i == 2 * f + 3 then (FULL, f + 1)
    else if i < 3 * f + 4 then (SCORE, f + 2 + (i - (2 * f + 4)))
    else if i < 4 * f + 4 then (FULL, f + 2 + (i - (3 * f + 4)))
    else if i < 4 * f + 4 + g then (SCORE, GateStart(r) + (i - (4 * f + 4)))
    else if i < HoldoutBase(r) then (FULL, GateStart(r) + (i - (4 * f + 4 + g)))
    else if i < HoldoutBase(r) + h then (PURE, i - HoldoutBase(r))
    else if i < HoldoutBase(r) + 2 * h then (STATIC, i - (HoldoutBase(r) + h))
    else if i < HoldoutBase(r) + 3 * h then (SCORE, HoldoutStart(r) + (i - (HoldoutBase(r) + 2 * h)))
    else if i < HoldoutBase(r) + 4 * h then (FULL, HoldoutStart(r) + (i - (HoldoutBase(r) + 3 * h)))
    else (PURE_AT_B, i - (HoldoutBase(r) + 4 * h))
  }

  lemma PositionRoundTrip(r: Roster, arm: Arm, s: nat)
    requires s < ArmSize(r, arm)
    ensures Position(r, arm, s) < Total(r) && CellAt(r, Position(r, arm, s)) == (arm, s)
  {
  }

  lemma CellRoundTrip(r: Roster, i: nat)
    requires i < Total(r)
    ensures var (arm, s) := CellAt(r, i); s < ArmSize(r, arm) && Position(r, arm, s) == i
  {
  }

  /** Calls of one arm keep their order. */
  lemma PositionIncreases(r: Roster, arm: Arm, s: nat, t: nat)
    requires s < t < ArmSize(r, arm)
    ensures Position(r, arm, s) < Position(r, arm, t)
  {
  }

  /** The search order up to the proposals, its candidate stage and its GATE stage. */
  function SearchHead(r: Roster, score: seq<CallSlot>, full: seq<CallSlot>): (head: seq<CallSlot>)
    requires |score| == |full| == AdaptiveSize(r)
    ensures |head| == 2 * |r.fit| + 4
  {
    var f := DiagnosisSlot(r);
    score[..f] + full[..f] + [score[f], full[f], score[f + 1], full[f + 1]]
  }

  function SearchStage(score: seq<CallSlot>, full: seq<CallSlot>, lo: nat, hi: nat): (stage: seq<CallSlot>)
    requires lo <= hi <= |score| == |full|
    ensures |stage| == 2 * (hi - lo)
    ensures forall k :: 0 <= k < |stage| ==>
              stage[k] == if k < hi - lo then score[lo + k] else full[lo + (k - (hi - lo))]
  {
    score[lo..hi] + full[lo..hi]
  }

  lemma SearchParts(r: Roster, score: seq<CallSlot>, full: seq<CallSlot>)
    requires |score| == |full| == AdaptiveSize(r)
    ensures SearchOrder(r, score, full)
         == SearchHead(r, score, full) + SearchStage(score, full, CandidateStart(r), GateStart(r))
            + SearchStage(score, full, GateStart(r), HoldoutStart(r))
  {
    var c, g, h := CandidateStart(r), GateStart(r), HoldoutStart(r);
    var head := SearchHead(r, score, full);
    assert SearchOrder(r, score, full) == head + score[c..g] + full[c..g] + score[g..h] + full[g..h];
    assert head + score[c..g] + full[c..g] == head + (score[c..g] + full[c..g]);
    Regroup(head + (score[c..g] + full[c..g]), score[g..h], full[g..h]);
  }

  lemma Regroup(a: seq<CallSlot>, b: seq<CallSlot>, c: seq<CallSlot>)
    ensures a + b + c == a + (b + c)
  {
  }

  lemma SearchHeadAt(r: Roster, score: seq<CallSlot>, full: seq<CallSlot>, i: nat)
    requires |score| == |full| == AdaptiveSize(r) && i < 2 * |r.fit| + 4
    ensures var (arm, s) := CellAt(r, i);
            && (arm == SCORE || arm == FULL) && s < AdaptiveSize(r)
            && SearchHead(r, score, full)[i] == if arm == SCORE then score[s] else full[s]
  {
  }

  /** Where the two later stages of the search order stand. */
  lemma StageCells(r: Roster, i: nat)
    requires 2 * |r.fit| + 4 <= i < HoldoutBase(r)
    ensures var f, g := |r.fit|, 4 * |r.gate|;
            CellAt(r, i)
            == if i < 4 * f + 4 then
                 var k := i - (2 * f + 4);
                 if k < f then (SCORE, CandidateStart(r) + k) else (FULL, CandidateStart(r) + k - f)
               else
                 var k := i - (4 * f + 4);
                 if k < g then (SCORE, GateStart(r) + k) else (FULL, GateStart(r) + k - g)
  {
  }

  lemma SearchAt(r: Roster, score: seq<CallSlot>, full: seq<CallSlot>, i: nat)
    requires |score| == |full| == AdaptiveSize(r)
    requires i < HoldoutBase(r)
    ensures |SearchOrder(r, score, full)| == HoldoutBase(r)
    ensures var (arm, s) := CellAt(r, i);
            && (arm == SCORE || arm == FULL) && s < AdaptiveSize(r)
            && SearchOrder(r, score, full)[i] == if arm == SCORE then score[s] else full[s]
  {
    hide SearchOrder, SearchHead, SearchStage, CellAt;
    SearchParts(r, score, full);
    if i < 2 * |r.fit| + 4 {
      SearchHeadAt(r, score, full, i);
    } else {
      StageCells(r, i);
    }
  }

  lemma HoldoutPartAt(r: Roster, a: Arms, i: nat)
    requires Sized(r, a) && HoldoutBase(r) <= i < Total(r)
    ensures |HoldoutOrder(r, a)| == Total(r) - HoldoutBase(r)
    ensures var (arm, s) := CellAt(r, i);
            && s < ArmSize(r, arm) == |ArmList(a, arm)|
            && HoldoutOrder(r, a)[i - HoldoutBase(r)] == ArmList(a, arm)[s]
  {
    var h := |r.holdout|;
    var score, full := a.score[HoldoutStart(r)..], a.full[HoldoutStart(r)..];
    var p1 := a.pure + a.static_;
    var p2 := p1 + score;
    var p3 := p2 + full;
    var k := i - HoldoutBase(r);
    assert HoldoutOrder(r, a) == p3 + a.pureAtB;
    if k < 2 * h {
      assert HoldoutOrder(r, a)[k] == p1[k];
    } else if k < 3 * h {
      assert HoldoutOrder(r, a)[k] == p2[k];
    } else if k < 4 * h {
      assert HoldoutOrder(r, a)[k] == p3[k];
    }
  }

  lemma SearchSize(r: Roster, score: seq<CallSlot>, full: seq<CallSlot>)
    requires |score| == |full| == AdaptiveSize(r)
    ensures |SearchOrder(r, score, full)| == HoldoutBase(r)
  {
  }

  /** The global order holds, at every slot, the arm call that belongs there. */
  lemma TopologicalAt(r: Roster, a: Arms, i: nat)
    requires Sized(r, a) && i < Total(r)
    ensures |Topological(r, a)| == Total(r)
    ensures var (arm, s) := CellAt(r, i);
            s < ArmSize(r, arm) == |ArmList(a, arm)| && Topological(r, a)[i] == ArmList(a, arm)[s]
  {
    hide SearchOrder, HoldoutOrder, CellAt;
    SearchSize(r, a.score, a.full);
    CellRoundTrip(r, i);
    HoldoutSize(r, a);
    if i < HoldoutBase(r) {
      SearchAt(r, a.score, a.full, i);
    } else {
      HoldoutPartAt(r, a, i);
    }
  }

  lemma HoldoutSize(r: Roster, a: Arms)
    requires Sized(r, a)
    ensures |HoldoutOrder(r, a)| == Total(r) - HoldoutBase(r)
  {
  }

  // ---------------------------------------------------------------- one arm's calls

  function ArmCalls(calls: seq<CallSlot>, arm: Arm): seq<CallSlot> {
    if calls == [] then []
    else
      var last := calls[|calls| - 1];
      ArmCalls(calls[..|calls| - 1], arm) + if last.arm == arm then [last] else []
  }

  /** `positions` lists, in order, exactly the places below `n` where `arm` has a call. */
  ghost predicate Lists(calls: seq<CallSlot>, arm: Arm, positions: seq<nat>, n: nat)
    requires n <= |calls|
  {
    && (forall k :: 0 <= k < |positions| ==> positions[k] < n && calls[positions[k]].arm == arm)
    && (forall j, k :: 0 <= j < k < |positions| ==> positions[j] < positions[k])
    && (forall i :: 0 <= i < n && calls[i].arm == arm ==> i in positions)
  }

  lemma LastListed(calls: seq<CallSlot>, arm: Arm, positions: seq<nat>, n: nat)
    requires 0 < n <= |calls| && Lists(calls, arm, positions, n) && calls[n - 1].arm == arm
    ensures positions != [] && positions[|positions| - 1] == n - 1
    ensures Lists(calls, arm, positions[..|positions| - 1], n - 1)
  {
    assert n - 1 in positions;
    var m := |positions|;
    var k :| 0 <= k < m && positions[k] == n - 1;
    assert positions[m - 1] < n;
    assert !(k < m - 1);
    var fewer := positions[..m - 1];
    forall i | 0 <= i < n - 1 && calls[i].arm == arm
      ensures i in fewer
    {
      var q :| 0 <= q < m && positions[q] == i;
      assert fewer[q] == i;
    }
    assert forall q :: 0 <= q < m - 1 ==> positions[q] < positions[m - 1];
  }

  lemma NotListed(calls: seq<CallSlot>, arm: Arm, positions: seq<nat>, n: nat)
    requires 0 < n <= |calls| && Lists(calls, arm, positions, n) && calls[n - 1].arm != arm
    ensures Lists(calls, arm, positions, n - 1)
  {
    assert forall k :: 0 <= k < |positions| ==> positions[k] != n - 1;
  }

  lemma NoneListed(calls: seq<CallSlot>, arm: Arm, positions: seq<nat>)
    requires Lists(calls, arm, positions, 0)
    ensures positions == []
  {
    EmptyOrFirst(positions);
  }

  lemma EmptyOrFirst(s: seq<nat>)
    ensures s == [] || s[0] in s
  {
  }

  lemma {:induction false} FilterByPositions(calls: seq<CallSlot>, arm: Arm, positions: seq<nat>, n: nat)
    requires n <= |calls| && Lists(calls, arm, positions, n)
    ensures |ArmCalls(calls[..n], arm)| == |positions|
    ensures forall k :: 0 <= k < |positions| ==>
              positions[k] < |calls| && ArmCalls(calls[..n], arm)[k] == calls[positions[k]]
    decreases n
  {
    assert forall k :: 0 <= k < |positions| ==> positions[k] < n;
    hide Lists;
    if n == 0 {
      NoneListed(calls, arm, positions);
    } else {
      assert calls[..n][..n - 1] == calls[..n - 1];
      if calls[n - 1].arm == arm {
        LastListed(calls, arm, positions, n);
        FilterByPositions(calls, arm, positions[..|positions| - 1], n - 1);
      } else {
        NotListed(calls, arm, positions, n);
        FilterByPositions(calls, arm, positions, n - 1);
      }
    }
  }
}
