/** What the semantic audit accepts, rule by rule, on pairs of items alone. */
module AuditMeaning {
  import opened Prelude
  import opened SemanticAudit

  predicate Joins(labels: Labelling, p: Pair) {
    p.left < |labels| && p.right < |labels| && labels[p.left] == labels[p.right]
  }

  /** The two reviews judge this pair of items differently. */
  predicate Differ(n: nat, e: Evidence, p: Pair) {
    p.left < p.right < n && Joins(e.first.labels, p) != Joins(e.second.labels, p)
  }

  predicate Comes(p: Pair, q: Pair) {
    p.left < q.left || (p.left == q.left && p.right < q.right)
  }

  ghost predicate InOrder(pairs: seq<Pair>) {
    forall i, j :: 0 <= i < j < |pairs| ==> Comes(pairs[i], pairs[j])
  }

  datatype Rule = Binding | Reviewers | Presence | Adjudicator | Listing | Outcome | Boundaries

  /** The order in which the rules are looked at. */
  const RULES: seq<Rule> := [Binding, Reviewers, Presence, Adjudicator, Listing, Outcome, Boundaries]

  function StageOf(rule: Rule): FailureStage {
    match rule
    case Binding => EvidenceBinding
    case Reviewers => ReviewIndependence
    case Presence => DisagreementArbitration
    case Adjudicator => ReviewIndependence
    case Listing => DisagreementArbitration
    case Outcome => DisagreementArbitration
    case Boundaries => FamilyBoundary
  }

  ghost predicate Obeys(rule: Rule, manifestMatches: bool, boundary: seq<int>, e: Evidence) {
    var n, a := |boundary|, e.adjudication;
    match rule
    case Binding =>
      && manifestMatches && |e.first.labels| == n && |e.second.labels| == n
      && (a.Some? ==> |a.value.final| == n)
    case Reviewers =>
      && e.first.fingerprint != e.second.fingerprint && e.first.principal != e.second.principal
      && e.first.independenceKey != e.second.independenceKey
    case Presence => a.Some? <==> exists p :: Differ(n, e, p)
    case Adjudicator =>
      a.Some? ==>
        && a.value.reviews == (e.first.fingerprint, e.second.fingerprint)
        && a.value.principal != e.first.principal && a.value.principal != e.second.principal
        && a.value.independenceKey != e.first.independenceKey && a.value.independenceKey != e.second.independenceKey
    case Listing =>
      a.Some? ==>
        && InOrder(DecidedPairs(a.value.decisions))
        && forall p :: p in DecidedPairs(a.value.decisions) <==> Differ(n, e, p)
    case Outcome =>
      a.Some? ==>
        && (forall d :: d in a.value.decisions ==> Joins(a.value.final, d.pair) == d.same)
        && (forall p: Pair :: p.left < p.right < n && !Differ(n, e, p) ==>
              Joins(a.value.final, p) == Joins(e.first.labels, p))
    case Boundaries =>
      var final := if a.Some? then a.value.final else e.first.labels;
      forall p: Pair :: p.left < p.right < n && Joins(final, p) ==> boundary[p.left] == boundary[p.right]
  }

  /** Rule `k` is the first one that does not hold. */
  ghost predicate FirstBroken(k: nat, manifestMatches: bool, boundary: seq<int>, e: Evidence) {
    && k < |RULES| && !Obeys(RULES[k], manifestMatches, boundary, e)
    && forall i :: 0 <= i < k ==> Obeys(RULES[i], manifestMatches, boundary, e)
  }

  // ---------------------------------------------------------------- the list of disagreements

  lemma {:induction false} PairsUpToInOrder(n: nat, rows: nat)
    requires rows <= n
    ensures InOrder(PairsUpTo(n, rows))
    decreases rows
  {
    if rows > 0 {
      PairsUpToInOrder(n, rows - 1);
      var before, row := PairsUpTo(n, rows - 1), Row(n, rows - 1);
      forall i, j | 0 <= i < j < |before + row|
        ensures Comes((before + row)[i], (before + row)[j])
      {
        if i < |before| <= j {
          PairsUpToMembers(n, rows - 1, before[i]);
          assert before[i] in before;
        }
      }
    }
  }

  lemma {:induction false} DisagreementsInOrder(pairs: seq<Pair>, a: Labelling, b: Labelling)
    requires |a| == |b| && InRange(pairs, |a|) && InOrder(pairs)
    ensures InOrder(Disagreements(pairs, a, b))
    decreases |pairs|
  {
    if pairs != [] {
      var shorter, last := pairs[..|pairs| - 1], pairs[|pairs| - 1];
      assert forall p :: p in shorter ==> p in pairs;
      DisagreementsInOrder(shorter, a, b);
      var before := Disagreements(shorter, a, b);
      forall i | 0 <= i < |before|
        ensures Comes(before[i], last)
      {
        assert before[i] in before;
        assert before[i] in shorter;
      }
    }
  }

  /** A list in order is determined by its members. */
  lemma {:induction false} OrderDetermines(a: seq<Pair>, b: seq<Pair>)
    requires InOrder(a) && InOrder(b) && forall p :: p in a <==> p in b
    ensures a == b
    decreases |a|
  {
    EmptyOrInhabited(a);
    EmptyOrInhabited(b);
    if a != [] && b != [] {
      var s, t := a[..|a| - 1], b[..|b| - 1];
      var x, y := a[|a| - 1], b[|b| - 1];
      assert x in a && y in b;
      assert x == y;
      assert a == s + [x] && b == t + [y];
      forall p
        ensures p in s <==> p in t
      {
        assert p in a <==> p in s || p == x;
        assert p in b <==> p in t || p == y;
      }
      OrderDetermines(s, t);
    }
  }

  lemma DisagreementsAre(n: nat, e: Evidence)
    requires e.Covers(n)
    ensures var ds := Disagreements(UniversePairs(n), e.first.labels, e.second.labels);
            && InOrder(ds) && NoDuplicates(ds) && (forall p :: p in ds <==> Differ(n, e, p))
            && (ds == [] <==> !exists p :: Differ(n, e, p))
  {
    var pairs := UniversePairs(n);
    PairsUpToInOrder(n, n);
    DisagreementsInOrder(pairs, e.first.labels, e.second.labels);
    var ds := Disagreements(pairs, e.first.labels, e.second.labels);
    forall p
      ensures p in ds <==> Differ(n, e, p)
    {
      PairsMembers(n, p);
    }
    if ds != [] {
      assert ds[0] in ds;
    }
  }

  // ---------------------------------------------------------------- the rules of the verifier

  lemma ListingExactly(boundary: seq<int>, e: Evidence)
    requires e.Covers(|boundary|) && e.adjudication.Some?
    ensures DecidedPairs(e.adjudication.value.decisions)
            == Disagreements(UniversePairs(|boundary|), e.first.labels, e.second.labels)
       <==> Obeys(Listing, true, boundary, e)
  {
    hide Disagreements, Pairs, Differ, InOrder;
    var decided := DecidedPairs(e.adjudication.value.decisions);
    DisagreementsAre(|boundary|, e);
    if Obeys(Listing, true, boundary, e) {
      OrderDetermines(decided, Disagreements(UniversePairs(|boundary|), e.first.labels, e.second.labels));
    }
  }

  /** The decisions are those on the disagreements, each once. */
  ghost predicate Lists(boundary: seq<int>, e: Evidence) {
    && e.Covers(|boundary|) && e.adjudication.Some?
    && DecidedPairs(e.adjudication.value.decisions)
       == Disagreements(UniversePairs(|boundary|), e.first.labels, e.second.labels)
  }

  /** The lookup of the decisions reads each decision, and no other pair. */
  lemma LookupReads(boundary: seq<int>, e: Evidence)
    requires Lists(boundary, e)
    ensures var a := e.adjudication.value;
            && (forall k :: 0 <= k < |a.decisions| ==>
                  var d := a.decisions[k];
                  d.pair in DecisionMap(a.decisions) && DecisionMap(a.decisions)[d.pair] == d.same)
            && (forall p :: p in DecisionMap(a.decisions) <==> Differ(|boundary|, e, p))
  {
    hide Disagreements, Pairs, DecisionMap, InOrder, Differ;
    var a := e.adjudication.value;
    DisagreementsAre(|boundary|, e);
    forall k | 0 <= k < |a.decisions|
      ensures var d := a.decisions[k];
              d.pair in DecisionMap(a.decisions) && DecisionMap(a.decisions)[d.pair] == d.same
    {
      DecisionMapReads(a.decisions, k);
    }
  }

  lemma FollowedObeys(boundary: seq<int>, e: Evidence)
    requires Lists(boundary, e)
    requires var a := e.adjudication.value;
             FollowsDecisions(UniversePairs(|boundary|), DecisionMap(a.decisions), e.first.labels, a.final)
    ensures Obeys(Outcome, true, boundary, e)
  {
    hide Disagreements, Pairs, DecisionMap, InOrder;
    var n, a := |boundary|, e.adjudication.value;
    LookupReads(boundary, e);
    forall p: Pair | p.left < p.right < n && !Differ(n, e, p)
      ensures Joins(a.final, p) == Joins(e.first.labels, p)
    {
      PairsMembers(n, p);
    }
    forall d | d in a.decisions
      ensures Joins(a.final, d.pair) == d.same
    {
      var k :| 0 <= k < |a.decisions| && a.decisions[k] == d;
      PairsMembers(n, d.pair);
    }
  }

  lemma ObeyedFollows(boundary: seq<int>, e: Evidence)
    requires Lists(boundary, e) && Obeys(Outcome, true, boundary, e)
    ensures var a := e.adjudication.value;
            FollowsDecisions(UniversePairs(|boundary|), DecisionMap(a.decisions), e.first.labels, a.final)
  {
    hide Disagreements, Pairs, DecisionMap, InOrder;
    var n, a := |boundary|, e.adjudication.value;
    var decisions := DecisionMap(a.decisions);
    LookupReads(boundary, e);
    forall p | p in UniversePairs(n)
      ensures Same(a.final, p) == if p in decisions then decisions[p] else Same(e.first.labels, p)
    {
      PairsMembers(n, p);
      if p in decisions {
        var k :| 0 <= k < |a.decisions| && DecidedPairs(a.decisions)[k] == p;
        assert a.decisions[k] in a.decisions;
      }
    }
  }

  lemma BoundariesExactly(boundary: seq<int>, e: Evidence)
    requires e.Covers(|boundary|)
    ensures |FinalLabels(e)| == |boundary|
    ensures RespectsBoundaries(UniversePairs(|boundary|), boundary, FinalLabels(e))
       <==> Obeys(Boundaries, true, boundary, e)
  {
    hide Pairs;
    var n, final := |boundary|, FinalLabels(e);
    forall p: Pair
      ensures p in UniversePairs(n) <==> p.left < p.right < n
    {
      PairsMembers(n, p);
    }
    forall p: Pair | p.left < p.right < n
      ensures Joins(final, p) == Same(final, p)
    {
    }
    if Obeys(Boundaries, true, boundary, e) {
      forall p | p in UniversePairs(n) && Same(final, p)
        ensures boundary[p.left] == boundary[p.right]
      {
        assert Joins(final, p);
      }
    }
  }

  /** The rule at which the verifier stops, or the number of rules. */
  ghost function Stop(manifestMatches: bool, boundary: seq<int>, e: Evidence): nat {
    if !Obeys(Binding, manifestMatches, boundary, e) then 0
    else if !Obeys(Reviewers, manifestMatches, boundary, e) then 1
    else if !Obeys(Presence, manifestMatches, boundary, e) then 2
    else if !Obeys(Adjudicator, manifestMatches, boundary, e) then 3
    else if !Obeys(Listing, manifestMatches, boundary, e) then 4
    else if !Obeys(Outcome, manifestMatches, boundary, e) then 5
    else if !Obeys(Boundaries, manifestMatches, boundary, e) then 6
    else 7
  }

  lemma StopIsFirst(manifestMatches: bool, boundary: seq<int>, e: Evidence)
    ensures Stop(manifestMatches, boundary, e) <= 7
    ensures Stop(manifestMatches, boundary, e) < 7
       ==> FirstBroken(Stop(manifestMatches, boundary, e), manifestMatches, boundary, e)
    ensures Stop(manifestMatches, boundary, e) == 7 <==> forall rule :: Obeys(rule, manifestMatches, boundary, e)
  {
    hide Obeys;
    if Stop(manifestMatches, boundary, e) == 7 {
      forall rule
        ensures Obeys(rule, manifestMatches, boundary, e)
      {
        assert rule.Binding? || rule.Reviewers? || rule.Presence? || rule.Adjudicator? || rule.Listing?
          || rule.Outcome? || rule.Boundaries?;
      }
    }
  }

  lemma StopsThere(manifestMatches: bool, boundary: seq<int>, e: Evidence)
    ensures var k, r := Stop(manifestMatches, boundary, e), Verify(manifestMatches, boundary, e);
            if k < |RULES| then r == Err(StageOf(RULES[k]))
            else r == Ok(if e.adjudication.Some? then
                           Verification(|e.adjudication.value.decisions|, |e.adjudication.value.decisions|)
                         else Verification(0, 0))
  {
    hide Disagreements, Pairs, DecisionMap, InOrder, FollowsDecisions, RespectsBoundaries;
    if e.Covers(|boundary|) {
      DisagreementsAre(|boundary|, e);
      BoundariesExactly(boundary, e);
      if e.adjudication.Some? {
        ListingExactly(boundary, e);
        if Obeys(Listing, true, boundary, e) {
          if Obeys(Outcome, true, boundary, e) {
            ObeyedFollows(boundary, e);
          } else if FollowsDecisions(
              UniversePairs(|boundary|), DecisionMap(e.adjudication.value.decisions), e.first.labels,
              e.adjudication.value.final) {
            FollowedObeys(boundary, e);
          }
        }
      }
    }
  }

  /**
   The audit is accepted exactly when every rule holds, with one decision per disagreement, and
   otherwise fails in the stage of the first rule that does not.
   */
  lemma VerifiesExactly(manifestMatches: bool, boundary: seq<int>, e: Evidence)
    ensures Verify(manifestMatches, boundary, e).Ok? <==> forall rule :: Obeys(rule, manifestMatches, boundary, e)
    ensures Verify(manifestMatches, boundary, e).Ok? ==>
              var decided := if e.adjudication.Some? then |e.adjudication.value.decisions| else 0;
              Verify(manifestMatches, boundary, e).value == Verification(decided, decided)
    ensures Verify(manifestMatches, boundary, e).Err? ==>
              exists k: nat :: FirstBroken(k, manifestMatches, boundary, e)
                          && Verify(manifestMatches, boundary, e).error == StageOf(RULES[k])
  {
    hide Obeys, Verify;
    StopIsFirst(manifestMatches, boundary, e);
    StopsThere(manifestMatches, boundary, e);
  }
}
