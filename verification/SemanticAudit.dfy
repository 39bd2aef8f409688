/** Two independent reviews and the arbitration of their disagreements. */
module SemanticAudit {
  import opened Prelude

  /** Items stand in universe order; a labelling gives each its reviewer-local family label. */
  type Labelling = seq<int>

  datatype Pair = Pair(left: nat, right: nat)

  datatype Review = Review(fingerprint: int, principal: int, independenceKey: int, labels: Labelling)

  datatype Decision = Decision(pair: Pair, same: bool)

  datatype Adjudication = Adjudication(
    reviews: (int, int), principal: int, independenceKey: int, decisions: seq<Decision>, final: Labelling)

  datatype Evidence = Evidence(first: Review, second: Review, adjudication: Option<Adjudication>) {
    /** Every labelling covers the universe exactly. */
    predicate Covers(n: nat) {
      && |first.labels| == n && |second.labels| == n
      && (adjudication.Some? ==> |adjudication.value.final| == n)
    }
  }

  datatype FailureStage = EvidenceBinding | ReviewIndependence | DisagreementArbitration | FamilyBoundary

  datatype Verification = Verification(disagreements: nat, adjudicated: nat)

  // ---------------------------------------------------------------- pairs and relations

  /** `combinations(items, 2)`: rows by left item, each row in ascending right item. */
  function PairsUpTo(n: nat, rows: nat): seq<Pair>
    requires rows <= n
  {
    if rows == 0 then []
    else PairsUpTo(n, rows - 1) + Row(n, rows - 1)
  }

  /** The pairs of one left item. */
  function Row(n: nat, left: nat): (row: seq<Pair>)
    requires left < n
    ensures |row| == n - left - 1 && forall k :: 0 <= k < |row| ==> row[k] == Pair(left, left + 1 + k)
  {
    seq(n - left - 1, k requires 0 <= k < n - left - 1 => Pair(left, left + 1 + k))
  }

  function Pairs(n: nat): seq<Pair> {
    PairsUpTo(n, n)
  }

  lemma {:induction false} PairsUpToMembers(n: nat, rows: nat, p: Pair)
    requires rows <= n
    ensures p in PairsUpTo(n, rows) <==> p.left < rows && p.left < p.right < n
    decreases rows
  {
    if rows > 0 {
      PairsUpToMembers(n, rows - 1, p);
      if p.left == rows - 1 && rows <= p.right < n {
        assert Row(n, rows - 1)[p.right - rows] == p;
      }
    }
  }

  lemma {:induction false} PairsUpToDistinct(n: nat, rows: nat)
    requires rows <= n
    ensures NoDuplicates(PairsUpTo(n, rows))
    decreases rows
  {
    if rows > 0 {
      PairsUpToDistinct(n, rows - 1);
      var before, row := PairsUpTo(n, rows - 1), Row(n, rows - 1);
      forall i, j | 0 <= i < j < |before + row|
        ensures (before + row)[i] != (before + row)[j]
      {
        if i < |before| <= j {
          PairsUpToMembers(n, rows - 1, before[i]);
          assert before[i] in before;
        }
      }
    }
  }

  /** The pairs are exactly the ordered pairs of items. */
  lemma PairsMembers(n: nat, p: Pair)
    ensures p in Pairs(n) <==> p.left < p.right < n
  {
    PairsUpToMembers(n, n, p);
  }

  lemma PairsDistinct(n: nat)
    ensures NoDuplicates(Pairs(n))
  {
    PairsUpToDistinct(n, n);
  }

  predicate Same(labels: Labelling, p: Pair)
    requires p.left < |labels| && p.right < |labels|
  {
    labels[p.left] == labels[p.right]
  }

  predicate InRange(pairs: seq<Pair>, n: nat) {
    forall p :: p in pairs ==> p.left < n && p.right < n
  }

  /** The pairs, in order, on which two labellings differ. */
  function Disagreements(pairs: seq<Pair>, a: Labelling, b: Labelling): (r: seq<Pair>)
    requires |a| == |b| && InRange(pairs, |a|)
    ensures forall p :: p in r <==> p in pairs && Same(a, p) != Same(b, p)
  {
    if pairs == [] then []
    else
      var last := pairs[|pairs| - 1];
      assert forall p :: p in pairs[..|pairs| - 1] ==> p in pairs;
      assert last in pairs;
      assert forall p :: p in pairs ==> p in pairs[..|pairs| - 1] || p == last;
      Disagreements(pairs[..|pairs| - 1], a, b) + if Same(a, last) != Same(b, last) then [last] else []
  }

  function DecidedPairs(decisions: seq<Decision>): (r: seq<Pair>)
    ensures |r| == |decisions| && forall i :: 0 <= i < |r| ==> r[i] == decisions[i].pair
  {
    seq(|decisions|, i requires 0 <= i < |decisions| => decisions[i].pair)
  }

  /** The decisions as a lookup; a later decision on one pair would replace an earlier one. */
  function DecisionMap(decisions: seq<Decision>): (m: map<Pair, bool>)
    ensures forall p :: p in m <==> p in DecidedPairs(decisions)
  {
    if decisions == [] then map[]
    else
      var last := decisions[|decisions| - 1];
      var shorter := DecidedPairs(decisions[..|decisions| - 1]);
      assert DecidedPairs(decisions) == shorter + [last.pair];
      DecisionMap(decisions[..|decisions| - 1])[last.pair := last.same]
  }

  // ---------------------------------------------------------------- the verifier

  function UniversePairs(n: nat): (pairs: seq<Pair>)
    ensures pairs == Pairs(n) && InRange(pairs, n)
  {
    assert forall p :: p in Pairs(n) ==> p.left < n && p.right < n by {
      forall p | p in Pairs(n)
        ensures p.left < n && p.right < n
      {
        PairsMembers(n, p);
      }
    }
    Pairs(n)
  }

  /** Every pair follows its decision if it was arbitrated, and the first review if not. */
  predicate FollowsDecisions(pairs: seq<Pair>, decisions: map<Pair, bool>, first: Labelling, final: Labelling)
    requires |first| == |final| && InRange(pairs, |first|)
  {
    forall p :: p in pairs ==> Same(final, p) == if p in decisions then decisions[p] else Same(first, p)
  }

  predicate RespectsBoundaries(pairs: seq<Pair>, boundary: seq<int>, labels: Labelling)
    requires |labels| == |boundary| && InRange(pairs, |labels|)
  {
    forall p :: p in pairs && Same(labels, p) ==> boundary[p.left] == boundary[p.right]
  }

  predicate Independent(a: Adjudication, first: Review, second: Review) {
    && a.reviews == (first.fingerprint, second.fingerprint)
    && a.principal != first.principal && a.principal != second.principal
    && a.independenceKey != first.independenceKey && a.independenceKey != second.independenceKey
  }

  /** `verify_bfcl_v4_semantic_family_audit`, stage by stage. */
  function Verify(manifestMatches: bool, boundary: seq<int>, evidence: Evidence): Result<Verification, FailureStage>
  {
    var n := |boundary|;
    var first, second := evidence.first, evidence.second;
    if !manifestMatches || !evidence.Covers(n) then Err(EvidenceBinding)
    else if first.fingerprint == second.fingerprint || first.principal == second.principal
            || first.independenceKey == second.independenceKey then Err(ReviewIndependence)
    else
      var pairs := UniversePairs(n);
      var disagreements := Disagreements(pairs, first.labels, second.labels);
      if (disagreements != []) != evidence.adjudication.Some? then Err(DisagreementArbitration)
      else if evidence.adjudication.None? then
        if RespectsBoundaries(pairs, boundary, first.labels) then Ok(Verification(0, 0)) else Err(FamilyBoundary)
      else
        var a := evidence.adjudication.value;
        if !Independent(a, first, second) then Err(ReviewIndependence)
        else if DecidedPairs(a.decisions) != disagreements then Err(DisagreementArbitration)
        else if !FollowsDecisions(pairs, DecisionMap(a.decisions), first.labels, a.final) then
          Err(DisagreementArbitration)
        else if !RespectsBoundaries(pairs, boundary, a.final) then Err(FamilyBoundary)
        else Ok(Verification(|disagreements|, |disagreements|))
  }

  /** The labelling an accepted audit stands on. */
  function FinalLabels(evidence: Evidence): Labelling {
    if evidence.adjudication.None? then evidence.first.labels else evidence.adjudication.value.final
  }

  // ---------------------------------------------------------------- what acceptance means

  /** `f` joins what both reviews join, separates what both separate, and never crosses a boundary. */
  ghost predicate Admissible(boundary: seq<int>, a: Labelling, b: Labelling, f: Labelling)
    requires |a| == |b| == |f| == |boundary|
  {
    forall i, j :: 0 <= i < |f| && 0 <= j < |f| ==>
      && (a[i] == a[j] && b[i] == b[j] ==> f[i] == f[j])
      && (a[i] != a[j] && b[i] != b[j] ==> f[i] != f[j])
      && (f[i] == f[j] ==> boundary[i] == boundary[j])
  }

  /** The same, over the ordered pairs the verifier looks at. */
  ghost predicate AdmissiblePairs(boundary: seq<int>, a: Labelling, b: Labelling, f: Labelling)
    requires |a| == |b| == |f| == |boundary|
  {
    forall p: Pair :: p.left < p.right < |f| ==>
      && (Same(a, p) && Same(b, p) ==> Same(f, p))
      && (!Same(a, p) && !Same(b, p) ==> !Same(f, p))
      && (Same(f, p) ==> boundary[p.left] == boundary[p.right])
  }

  lemma PairsSuffice(boundary: seq<int>, a: Labelling, b: Labelling, f: Labelling)
    requires |a| == |b| == |f| == |boundary|
    ensures AdmissiblePairs(boundary, a, b, f) <==> Admissible(boundary, a, b, f)
  {
    if AdmissiblePairs(boundary, a, b, f) {
      forall i, j | 0 <= i < |f| && 0 <= j < |f|
        ensures && (a[i] == a[j] && b[i] == b[j] ==> f[i] == f[j])
                && (a[i] != a[j] && b[i] != b[j] ==> f[i] != f[j])
                && (f[i] == f[j] ==> boundary[i] == boundary[j])
      {
        if i < j {
          assert Same(f, Pair(i, j)) == (f[i] == f[j]);
        } else if j < i {
          assert Same(f, Pair(j, i)) == (f[i] == f[j]);
        }
      }
    }
  }

  /** Soundness: the final relation of an accepted audit is admissible. */
  lemma AcceptedIsAdmissible(manifestMatches: bool, boundary: seq<int>, evidence: Evidence)
    requires Verify(manifestMatches, boundary, evidence).Ok?
    ensures evidence.Covers(|boundary|)
    ensures Admissible(boundary, evidence.first.labels, evidence.second.labels, FinalLabels(evidence))
  {
    var n := |boundary|;
    var a, b, f := evidence.first.labels, evidence.second.labels, FinalLabels(evidence);
    var pairs := UniversePairs(n);
    var disagreements := Disagreements(pairs, a, b);
    forall p: Pair | p.left < p.right < n
      ensures && (Same(a, p) && Same(b, p) ==> Same(f, p))
              && (!Same(a, p) && !Same(b, p) ==> !Same(f, p))
              && (Same(f, p) ==> boundary[p.left] == boundary[p.right])
    {
      PairsMembers(n, p);
      assert p in pairs;
      if Same(a, p) == Same(b, p) {
        assert p !in disagreements;
      }
    }
    PairsSuffice(boundary, a, b, f);
  }

  /** The decisions that turn the disagreements of two reviews into `f`. */
  function DecisionsFor(disagreements: seq<Pair>, f: Labelling): (decisions: seq<Decision>)
    requires InRange(disagreements, |f|)
    ensures DecidedPairs(decisions) == disagreements
    ensures forall i :: 0 <= i < |decisions| ==>
              disagreements[i] in disagreements && decisions[i].same == Same(f, disagreements[i])
  {
    seq(|disagreements|, i requires 0 <= i < |disagreements| =>
      assert disagreements[i] in disagreements; Decision(disagreements[i], Same(f, disagreements[i])))
  }

  lemma {:induction false} DisagreementsDistinct(pairs: seq<Pair>, a: Labelling, b: Labelling)
    requires |a| == |b| && InRange(pairs, |a|) && NoDuplicates(pairs)
    ensures NoDuplicates(Disagreements(pairs, a, b))
    decreases |pairs|
  {
    if pairs != [] {
      var shorter, last := pairs[..|pairs| - 1], pairs[|pairs| - 1];
      assert forall p :: p in shorter ==> p in pairs;
      DisagreementsDistinct(shorter, a, b);
      assert last !in shorter;
      assert last !in Disagreements(shorter, a, b);
    }
  }

  /** With distinct pairs, the lookup returns each decision itself. */
  lemma {:induction false} DecisionMapReads(decisions: seq<Decision>, k: nat)
    requires k < |decisions| && NoDuplicates(DecidedPairs(decisions))
    ensures decisions[k].pair in DecisionMap(decisions)
    ensures DecisionMap(decisions)[decisions[k].pair] == decisions[k].same
    decreases |decisions|
  {
    var shorter, last := decisions[..|decisions| - 1], decisions[|decisions| - 1];
    assert DecidedPairs(decisions) == DecidedPairs(shorter) + [last.pair];
    if k < |shorter| {
      assert DecidedPairs(decisions)[k] != DecidedPairs(decisions)[|shorter|];
      assert NoDuplicates(DecidedPairs(shorter)) by {
        var all := DecidedPairs(decisions);
        assert forall i :: 0 <= i < |shorter| ==> DecidedPairs(shorter)[i] == all[i];
      }
      DecisionMapReads(shorter, k);
    }
  }

  lemma DecisionsForDecide(disagreements: seq<Pair>, f: Labelling, p: Pair)
    requires InRange(disagreements, |f|) && NoDuplicates(disagreements) && p in disagreements
    ensures p in DecisionMap(DecisionsFor(disagreements, f))
    ensures DecisionMap(DecisionsFor(disagreements, f))[p] == Same(f, p)
  {
    var k :| 0 <= k < |disagreements| && disagreements[k] == p;
    DecisionMapReads(DecisionsFor(disagreements, f), k);
  }

  /** The adjudication that resolves two reviews into `f`. */
  function AdjudicationFor(
    n: nat, first: Review, second: Review, principal: int, key: int, f: Labelling): Adjudication
    requires |first.labels| == |second.labels| == |f| == n
  {
    var disagreements := Disagreements(UniversePairs(n), first.labels, second.labels);
    assert InRange(disagreements, n);
    Adjudication((first.fingerprint, second.fingerprint), principal, key, DecisionsFor(disagreements, f), f)
  }

  ghost predicate Distinct(first: Review, second: Review) {
    && first.fingerprint != second.fingerprint
    && first.principal != second.principal
    && first.independenceKey != second.independenceKey
  }

  ghost predicate Outsider(principal: int, key: int, first: Review, second: Review) {
    && principal != first.principal && principal != second.principal
    && key != first.independenceKey && key != second.independenceKey
  }

  /** An admissible outcome passes the relation checks of its own adjudication. */
  lemma AdmissibleFollows(boundary: seq<int>, first: Review, second: Review, f: Labelling)
    requires |first.labels| == |second.labels| == |f| == |boundary|
    requires Admissible(boundary, first.labels, second.labels, f)
    ensures var pairs := UniversePairs(|boundary|);
            var disagreements := Disagreements(pairs, first.labels, second.labels);
            && InRange(disagreements, |f|)
            && FollowsDecisions(pairs, DecisionMap(DecisionsFor(disagreements, f)), first.labels, f)
            && RespectsBoundaries(pairs, boundary, f)
  {
    hide Disagreements, DecisionMap, DecisionsFor, Pairs, Verify;
    var n := |boundary|;
    var a, b := first.labels, second.labels;
    var pairs := UniversePairs(n);
    var disagreements := Disagreements(pairs, a, b);
    PairsDistinct(n);
    DisagreementsDistinct(pairs, a, b);
    PairsSuffice(boundary, a, b, f);
    var decisions := DecisionMap(DecisionsFor(disagreements, f));
    forall p | p in pairs
      ensures Same(f, p) == if p in decisions then decisions[p] else Same(a, p)
      ensures Same(f, p) ==> boundary[p.left] == boundary[p.right]
    {
      PairsMembers(n, p);
      if p in disagreements {
        DecisionsForDecide(disagreements, f, p);
      } else {
        assert p !in DecidedPairs(DecisionsFor(disagreements, f));
      }
    }
  }

  /** Completeness: every admissible outcome of two disagreeing reviews can be reached by some adjudication. */
  lemma AdmissibleIsReachable(
    boundary: seq<int>, first: Review, second: Review, principal: int, key: int, f: Labelling)
    requires |first.labels| == |second.labels| == |f| == |boundary|
    requires Distinct(first, second) && Outsider(principal, key, first, second)
    requires exists p: Pair :: p.left < p.right < |boundary| && Same(first.labels, p) != Same(second.labels, p)
    requires Admissible(boundary, first.labels, second.labels, f)
    ensures Verify(
              true, boundary,
              Evidence(first, second, Some(AdjudicationFor(|boundary|, first, second, principal, key, f)))).Ok?
  {
    hide Disagreements, DecisionMap, DecisionsFor, Pairs, FollowsDecisions, RespectsBoundaries, Admissible;
    var n := |boundary|;
    var disagreements := Disagreements(UniversePairs(n), first.labels, second.labels);
    var differing: Pair :|
      differing.left < differing.right < n && Same(first.labels, differing) != Same(second.labels, differing);
    PairsMembers(n, differing);
    assert differing in disagreements;
    AdmissibleFollows(boundary, first, second, f);
  }

  /** With an independent adjudicator, the reachable outcomes are exactly the admissible ones. */
  lemma ReachableExactly(
    boundary: seq<int>, first: Review, second: Review, principal: int, key: int, f: Labelling)
    requires |first.labels| == |second.labels| == |f| == |boundary|
    requires Distinct(first, second) && Outsider(principal, key, first, second)
    requires exists p: Pair :: p.left < p.right < |boundary| && Same(first.labels, p) != Same(second.labels, p)
    ensures (exists decisions: seq<Decision> ::
               Verify(
                 true, boundary,
                 Evidence(
                   first, second,
                   Some(Adjudication(
                     (first.fingerprint, second.fingerprint), principal, key, decisions, f)))).Ok?)
       <==> Admissible(boundary, first.labels, second.labels, f)
  {
    if Admissible(boundary, first.labels, second.labels, f) {
      AdmissibleIsReachable(boundary, first, second, principal, key, f);
      var decisions := AdjudicationFor(|boundary|, first, second, principal, key, f).decisions;
      assert Verify(
          true, boundary,
          Evidence(
            first, second,
            Some(Adjudication((first.fingerprint, second.fingerprint), principal, key, decisions, f)))).Ok?;
    }
    forall decisions: seq<Decision> | Verify(
        true, boundary,
        Evidence(
          first, second,
          Some(Adjudication((first.fingerprint, second.fingerprint), principal, key, decisions, f)))).Ok?
      ensures Admissible(boundary, first.labels, second.labels, f)
    {
      AcceptedIsAdmissible(
        true, boundary,
        Evidence(
          first, second,
          Some(Adjudication((first.fingerprint, second.fingerprint), principal, key, decisions, f))));
    }
  }

  /** An accepted adjudication decides each disagreement exactly once, and the outcome obeys every decision. */
  lemma DecisionsBind(manifestMatches: bool, boundary: seq<int>, evidence: Evidence)
    requires Verify(manifestMatches, boundary, evidence).Ok? && evidence.adjudication.Some?
    ensures var a := evidence.adjudication.value;
            && NoDuplicates(DecidedPairs(a.decisions))
            && (forall p: Pair :: p in DecidedPairs(a.decisions) <==>
                  p.left < p.right < |boundary| && Same(evidence.first.labels, p) != Same(evidence.second.labels, p))
            && (forall d :: d in a.decisions ==>
                  d.pair.left < d.pair.right < |boundary| && Same(a.final, d.pair) == d.same)
  {
    hide Disagreements, DecisionMap, DecisionsFor, Pairs;
    var n := |boundary|;
    var a := evidence.adjudication.value;
    var pairs := UniversePairs(n);
    PairsDistinct(n);
    DisagreementsDistinct(pairs, evidence.first.labels, evidence.second.labels);
    forall p: Pair
      ensures p in pairs <==> p.left < p.right < n
    {
      PairsMembers(n, p);
    }
    forall d | d in a.decisions
      ensures d.pair.left < d.pair.right < n && Same(a.final, d.pair) == d.same
    {
      var k :| 0 <= k < |a.decisions| && a.decisions[k] == d;
      DecisionMapReads(a.decisions, k);
      assert DecidedPairs(a.decisions)[k] == d.pair;
      assert d.pair in pairs;
    }
  }

  /** When the reviews agree, it does not matter which of them becomes the final relation. */
  lemma AgreementIsSymmetric(boundary: seq<int>, first: Review, second: Review)
    requires |first.labels| == |second.labels| == |boundary|
    requires forall p: Pair :: p.left < p.right < |boundary| ==> Same(first.labels, p) == Same(second.labels, p)
    ensures Verify(true, boundary, Evidence(first, second, None))
         == Verify(true, boundary, Evidence(second, first, None))
  {
    var n := |boundary|;
    var pairs := UniversePairs(n);
    var a, b := first.labels, second.labels;
    forall p | p in pairs
      ensures Same(a, p) == Same(b, p)
    {
      PairsMembers(n, p);
    }
    NoDisagreement(pairs, a, b);
    NoDisagreement(pairs, b, a);
    assert RespectsBoundaries(pairs, boundary, a) <==> RespectsBoundaries(pairs, boundary, b);
  }

  lemma NoDisagreement(pairs: seq<Pair>, a: Labelling, b: Labelling)
    requires |a| == |b| && InRange(pairs, |a|)
    requires forall p :: p in pairs ==> Same(a, p) == Same(b, p)
    ensures Disagreements(pairs, a, b) == []
  {
    EmptyOrInhabited(Disagreements(pairs, a, b));
  }

  lemma EmptyOrInhabited(s: seq<Pair>)
    ensures s == [] || exists p :: p in s
  {
    if s != [] {
      assert s[0] in s;
    }
  }

  /** An accepted audit reports every disagreement as adjudicated, and none without an adjudication. */
  lemma NoDisagreementLeft(manifestMatches: bool, boundary: seq<int>, evidence: Evidence)
    requires Verify(manifestMatches, boundary, evidence).Ok?
    ensures var v := Verify(manifestMatches, boundary, evidence).value;
            && v.adjudicated == v.disagreements
            && (v.disagreements == 0 <==> evidence.adjudication.None?)
            && (v.disagreements == 0 <==>
                forall p: Pair :: p.left < p.right < |boundary| ==>
                  Same(evidence.first.labels, p) == Same(evidence.second.labels, p))
  {
    var n := |boundary|;
    var a, b := evidence.first.labels, evidence.second.labels;
    var disagreements := Disagreements(UniversePairs(n), a, b);
    if disagreements == [] {
      forall p: Pair | p.left < p.right < n
        ensures Same(a, p) == Same(b, p)
      {
        PairsMembers(n, p);
        assert p !in disagreements;
      }
    } else {
      var p := disagreements[0];
      assert p in disagreements;
      PairsMembers(n, p);
    }
  }
}
