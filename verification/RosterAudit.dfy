/** Auditing a roster for near-duplicates and for families shared across boundaries. */
module RosterAudit {
  import opened Prelude
  import opened FamilyGraph
  import opened RosterSelection

  // ---------------------------------------------------------------- lexical comparison

  function Window(tokens: seq<string>, i: nat): seq<string>
    requires i + 3 <= |tokens|
  {
    tokens[i..i + 3]
  }

  /** Windows of three tokens; a shorter text is one window. */
  function Shingles(tokens: seq<string>): (s: set<seq<string>>)
    ensures s != {}
  {
    if |tokens| < 3 then {tokens}
    else
      var windows := set i | 0 <= i < |tokens| - 2 :: Window(tokens, i);
      assert Window(tokens, 0) in windows;
      windows
  }

  datatype Comparison = Comparison(intersection: nat, union: nat, minimum: nat, flagged: bool)

  /** `_lexical_comparison`: Jaccard at least 67/100 and containment at least 4/5. */
  function Compare(left: seq<string>, right: seq<string>): Comparison {
    var a, b := Shingles(left), Shingles(right);
    var i, u, m := |a * b|, |a + b|, if |a| < |b| then |a| else |b|;
    Comparison(i, u, m, 100 * i >= 67 * u && 5 * i >= 4 * m)
  }

  /** The containment threshold never decides: the Jaccard threshold implies it. */
  lemma JaccardDecides(left: seq<string>, right: seq<string>)
    ensures var c := Compare(left, right); c.flagged <==> 100 * c.intersection >= 67 * c.union
  {
    var a, b := Shingles(left), Shingles(right);
    assert |a + b| + |a * b| == |a| + |b|;
  }

  /** A pair is flagged whichever side comes first, an equal pair always is, and a flagged pair shares a window. */
  lemma CompareSymmetric(left: seq<string>, right: seq<string>)
    ensures Compare(left, right) == Compare(right, left)
    ensures left == right ==> Compare(left, right).flagged
    ensures Compare(left, right).flagged ==> exists w :: w in Shingles(left) && w in Shingles(right)
  {
    var a, b := Shingles(left), Shingles(right);
    assert a * b == b * a && a + b == b + a;
    if left == right {
      assert a * b == a && a + b == a;
    }
    if Compare(left, right).flagged {
      assert a + b != {};
      assert a * b != {};
      var w :| w in a * b;
    }
  }

  /** Three tokens in a row, or the whole of a text that has no three. */
  predicate IsShingle(tokens: seq<string>, w: seq<string>) {
    if |tokens| < 3 then w == tokens
    else exists i: nat :: i + 2 < |tokens| && StandsAt(tokens, i, w)
  }

  predicate StandsAt(tokens: seq<string>, i: nat, w: seq<string>)
    requires i + 2 < |tokens|
  {
    w == [tokens[i], tokens[i + 1], tokens[i + 2]]
  }

  ghost predicate HoldsShingles(tokens: seq<string>, a: set<seq<string>>) {
    forall w :: w in a <==> IsShingle(tokens, w)
  }

  lemma ShinglesExactly(tokens: seq<string>)
    ensures HoldsShingles(tokens, Shingles(tokens))
  {
    forall w
      ensures w in Shingles(tokens) <==> IsShingle(tokens, w)
    {
      if |tokens| >= 3 {
        if w in Shingles(tokens) {
          var i: nat :| i < |tokens| - 2 && w == Window(tokens, i);
          assert StandsAt(tokens, i, w);
        }
        if IsShingle(tokens, w) {
          var i: nat :| i + 2 < |tokens| && StandsAt(tokens, i, w);
          assert w == Window(tokens, i);
        }
      }
    }
  }

  /** A comparison counts the distinct shingles both texts have, either text has, and the text with fewer has. */
  lemma CompareExactly(left: seq<string>, right: seq<string>, a: set<seq<string>>, b: set<seq<string>>)
    requires HoldsShingles(left, a) && HoldsShingles(right, b)
    ensures var c := Compare(left, right);
            && c.intersection == |a * b| && c.union == |a + b| && c.minimum <= |a| && c.minimum <= |b|
            && (c.minimum == |a| || c.minimum == |b|)
            && (c.flagged <==> 100 * |a * b| >= 67 * |a + b|)
  {
    ShinglesExactly(left);
    ShinglesExactly(right);
    assert a == Shingles(left) && b == Shingles(right);
    JaccardDecides(left, right);
  }

  // ---------------------------------------------------------------- lexical audit

  /** A pair of the roster that stands in different splits and is too similar. */
  predicate CrossFlagged(selected: seq<Selected>, i: nat, j: nat)
    requires i < |selected| && j < |selected|
  {
    selected[i].split != selected[j].split
    && Compare(selected[i].candidate.template, selected[j].candidate.template).flagged
  }

  predicate OldFlagged(selected: seq<Selected>, v1: seq<Candidate>, i: nat, k: nat)
    requires i < |selected| && k < |v1|
  {
    Compare(selected[i].candidate.template, v1[k].template).flagged
  }

  /** The pairs of roster positions in different splits that a row-by-row walk has passed at `(i, j)`. */
  ghost function CrossPairs(selected: seq<Selected>, i: nat, j: nat): set<(nat, nat)> {
    set a: nat, b: nat | a < b < |selected| && Passed(a, b, i, j) && selected[a].split != selected[b].split :: (a, b)
  }

  predicate Passed(a: nat, b: nat, i: nat, j: nat) {
    a < i || (a == i && b < j)
  }

  ghost function CrossFlags(selected: seq<Selected>, i: nat, j: nat): set<(nat, nat)> {
    set a: nat, b: nat | a < b < |selected| && Passed(a, b, i, j) && CrossFlagged(selected, a, b) :: (a, b)
  }

  ghost function OldFlags(selected: seq<Selected>, v1: seq<Candidate>, i: nat, k: nat): set<(nat, nat)> {
    set a: nat, b: nat | a < |selected| && b < |v1| && Passed(a, b, i, k) && OldFlagged(selected, v1, a, b) :: (a, b)
  }

  /** Walking past one more pair, and past the end of a row. */
  lemma CrossPairStep(selected: seq<Selected>, i: nat, j: nat)
    requires i < j <= |selected|
    ensures CrossPairs(selected, i + 1, i + 2) == CrossPairs(selected, i, |selected|)
    ensures j < |selected| ==>
              |CrossPairs(selected, i, j + 1)|
              == |CrossPairs(selected, i, j)| + (if selected[i].split != selected[j].split then 1 else 0)
  {
    if j < |selected| {
      assert (i, j) !in CrossPairs(selected, i, j);
      assert CrossPairs(selected, i, j + 1)
          == CrossPairs(selected, i, j) + (if selected[i].split != selected[j].split then {(i, j)} else {});
    }
  }

  lemma CrossFlagStep(selected: seq<Selected>, i: nat, j: nat)
    requires i < j <= |selected|
    ensures CrossFlags(selected, i + 1, i + 2) == CrossFlags(selected, i, |selected|)
    ensures j < |selected| ==>
              |CrossFlags(selected, i, j + 1)|
              == |CrossFlags(selected, i, j)| + (if CrossFlagged(selected, i, j) then 1 else 0)
  {
    hide CrossFlagged;
    if j < |selected| {
      assert (i, j) !in CrossFlags(selected, i, j);
      assert CrossFlags(selected, i, j + 1)
          == CrossFlags(selected, i, j) + (if CrossFlagged(selected, i, j) then {(i, j)} else {});
    }
  }

  lemma OldStep(selected: seq<Selected>, v1: seq<Candidate>, i: nat, k: nat)
    requires i < |selected| && k <= |v1|
    ensures OldFlags(selected, v1, i + 1, 0) == OldFlags(selected, v1, i, |v1|)
    ensures k < |v1| ==>
              |OldFlags(selected, v1, i, k + 1)|
              == |OldFlags(selected, v1, i, k)| + (if OldFlagged(selected, v1, i, k) then 1 else 0)
  {
    hide Compare;
    if k < |v1| {
      assert (i, k) !in OldFlags(selected, v1, i, k);
      assert OldFlags(selected, v1, i, k + 1)
          == OldFlags(selected, v1, i, k) + (if OldFlagged(selected, v1, i, k) then {(i, k)} else {});
    }
  }

  lemma CrossEnd(selected: seq<Selected>)
    ensures CrossPairs(selected, |selected|, |selected| + 1) == CrossPairs(selected, |selected|, 0)
    ensures CrossFlags(selected, |selected|, |selected| + 1) == CrossFlags(selected, |selected|, 0)
  {
    hide Compare;
  }

  lemma WalksStart(selected: seq<Selected>, v1: seq<Candidate>)
    ensures CrossPairs(selected, 0, 1) == {} == CrossFlags(selected, 0, 1)
    ensures OldFlags(selected, v1, 0, 0) == {}
  {
  }

  /** Nothing is flagged exactly when no pair across splits and no pair with an older task is. */
  lemma NoFlags(selected: seq<Selected>, v1: seq<Candidate>)
    ensures |CrossFlags(selected, |selected|, 0)| + |OldFlags(selected, v1, |selected|, 0)| == 0 <==>
              && (forall i, j :: 0 <= i < j < |selected| ==> !CrossFlagged(selected, i, j))
              && (forall i, k :: 0 <= i < |selected| && 0 <= k < |v1| ==> !OldFlagged(selected, v1, i, k))
  {
    hide CrossFlagged, OldFlagged;
    var cross, older := CrossFlags(selected, |selected|, 0), OldFlags(selected, v1, |selected|, 0);
    assert forall i: nat, j: nat :: i < j < |selected| && CrossFlagged(selected, i, j) ==> (i, j) in cross;
    assert forall i: nat, k: nat :: i < |selected| && k < |v1| && OldFlagged(selected, v1, i, k) ==> (i, k) in older;
    assert cross == {} ==> forall i: nat, j: nat :: i < j < |selected| ==> (i, j) !in cross;
    assert older == {} ==> forall i: nat, k: nat :: i < |selected| && k < |v1| ==> (i, k) !in older;
    if cross != {} {
      var p :| p in cross;
      assert CrossFlagged(selected, p.0, p.1);
    }
    if older != {} {
      var p :| p in older;
      assert OldFlagged(selected, v1, p.0, p.1);
    }
  }

  /** `_lexical_audit`: every pair across splits, and every roster member against every older task. */
  method LexicalAudit(selected: seq<Selected>, v1: seq<Candidate>) returns (comparisons: nat, flagged: nat)
    ensures comparisons == |CrossPairs(selected, |selected|, 0)| + |selected| * |v1|
    ensures flagged == |CrossFlags(selected, |selected|, 0)| + |OldFlags(selected, v1, |selected|, 0)|
    ensures flagged == 0 <==>
              && (forall i, j :: 0 <= i < j < |selected| ==> !CrossFlagged(selected, i, j))
              && (forall i, k :: 0 <= i < |selected| && 0 <= k < |v1| ==> !OldFlagged(selected, v1, i, k))
  {
    hide Compare, CrossPairs, CrossFlags, OldFlags;
    WalksStart(selected, v1);
    comparisons, flagged := 0, 0;
    for i := 0 to |selected|
      invariant comparisons == |CrossPairs(selected, i, i + 1)|
      invariant flagged == |CrossFlags(selected, i, i + 1)|
    {
      for j := i + 1 to |selected|
        invariant comparisons == |CrossPairs(selected, i, j)|
        invariant flagged == |CrossFlags(selected, i, j)|
      {
        CrossPairStep(selected, i, j);
        CrossFlagStep(selected, i, j);
        if selected[i].split == selected[j].split {
          continue;
        }
        comparisons := comparisons + 1;
        if Compare(selected[i].candidate.template, selected[j].candidate.template).flagged {
          flagged := flagged + 1;
        }
      }
      CrossPairStep(selected, i, |selected|);
      CrossFlagStep(selected, i, |selected|);
    }
    CrossEnd(selected);
    for i := 0 to |selected|
      invariant comparisons == |CrossPairs(selected, |selected|, 0)| + i * |v1|
      invariant flagged == |CrossFlags(selected, |selected|, 0)| + |OldFlags(selected, v1, i, 0)|
    {
      for k := 0 to |v1|
        invariant comparisons == |CrossPairs(selected, |selected|, 0)| + i * |v1| + k
        invariant flagged == |CrossFlags(selected, |selected|, 0)| + |OldFlags(selected, v1, i, k)|
      {
        OldStep(selected, v1, i, k);
        comparisons := comparisons + 1;
        if Compare(selected[i].candidate.template, v1[k].template).flagged {
          flagged := flagged + 1;
        }
      }
      OldStep(selected, v1, i, |v1|);
    }
    NoFlags(selected, v1);
  }

  // ---------------------------------------------------------------- function-name audit

  lemma {:induction false} EligibleMembers(cs: seq<Candidate>, v1: set<int>, count: nat, c: Candidate)
    requires count <= |cs|
    ensures c in EligibleUpTo(cs, v1, count)
       <==> exists i :: 0 <= i < count && cs[i] == c && Alone(cs, i) && c.task !in v1
    decreases count
  {
    if count > 0 {
      EligibleMembers(cs, v1, count - 1, c);
    }
  }

  /** What the whole selection pipeline draws from the pool `cs`. */
  ghost function Drawn(cs: seq<Candidate>, v1: set<int>, layout: Layout, token: TokenOf): seq<Selected>
    requires layout.Valid() && Fills(EligibleUpTo(cs, v1, |cs|), layout)
  {
    Selection(EligibleUpTo(cs, v1, |cs|), layout, token)
  }

  /** A drawn task shares no function name and no template with any other task of the pool, and is not an older task. */
  lemma DrawnIsIsolated(
    cs: seq<Candidate>, v1: set<int>, layout: Layout, token: TokenOf, x: Selected, other: Candidate)
    requires layout.Valid() && Fills(EligibleUpTo(cs, v1, |cs|), layout)
    requires x in Drawn(cs, v1, layout, token)
    ensures x.candidate in cs && x.candidate.task !in v1
    ensures other in cs && other.task != x.candidate.task ==>
              !SharesName(x.candidate, other) && x.candidate.template != other.template
  {
    hide Selection, EligibleUpTo;
    DrawnFromPool(EligibleUpTo(cs, v1, |cs|), layout, token, x);
    EligibleMembers(cs, v1, |cs|, x.candidate);
    var i :| 0 <= i < |cs| && cs[i] == x.candidate && Alone(cs, i);
    if other in cs && other.task != x.candidate.task {
      var j :| 0 <= j < |cs| && cs[j] == other;
      assert !Related(cs, i, j);
    }
  }

  function SharedNames(a: Candidate, b: Candidate): set<string> {
    (set n | n in a.names) * (set n | n in b.names)
  }

  lemma SharedExactly(a: Candidate, b: Candidate)
    ensures |SharedNames(a, b)| == 0 <==> !SharesName(a, b)
  {
    if SharedNames(a, b) != {} {
      var n :| n in SharedNames(a, b);
      assert n in a.names && n in b.names;
    }
    if SharesName(a, b) {
      var n :| n in a.names && n in b.names;
      assert n in SharedNames(a, b);
    }
  }

  predicate SplitsShare(selected: seq<Selected>, i: nat, j: nat)
    requires i < |selected| && j < |selected|
  {
    selected[i].split != selected[j].split && SharesName(selected[i].candidate, selected[j].candidate)
  }

  predicate OldShares(selected: seq<Selected>, previous: seq<Candidate>, i: nat, k: nat)
    requires i < |selected| && k < |previous|
  {
    SharesName(selected[i].candidate, previous[k])
  }

  /** A shared name at the two positions that share it. */
  type Overlap = (nat, nat, string)

  /** The names shared across splits by the pairs that a row-by-row walk has passed at `(i, j)`. */
  ghost function CrossOverlaps(selected: seq<Selected>, i: nat, j: nat): set<Overlap> {
    set a: nat, b: nat, n | a < b < |selected| && Passed(a, b, i, j) && selected[a].split != selected[b].split
                            && n in SharedNames(selected[a].candidate, selected[b].candidate) :: (a, b, n)
  }

  ghost function OldOverlaps(selected: seq<Selected>, v1: seq<Candidate>, i: nat, k: nat): set<Overlap> {
    set a: nat, b: nat, n | a < |selected| && b < |v1| && Passed(a, b, i, k)
                            && n in SharedNames(selected[a].candidate, v1[b]) :: (a, b, n)
  }

  ghost function At(a: nat, b: nat, names: set<string>): set<Overlap> {
    set n | n in names :: (a, b, n)
  }

  lemma {:induction false} AtSize(a: nat, b: nat, names: set<string>)
    ensures |At(a, b, names)| == |names|
    decreases |names|
  {
    if names != {} {
      var n :| n in names;
      AtSize(a, b, names - {n});
      assert At(a, b, names) == At(a, b, names - {n}) + {(a, b, n)};
    }
  }

  lemma CrossNamesStep(selected: seq<Selected>, i: nat, j: nat)
    requires i < j <= |selected|
    ensures CrossOverlaps(selected, i + 1, i + 2) == CrossOverlaps(selected, i, |selected|)
    ensures j < |selected| && selected[i].split == selected[j].split ==>
              CrossOverlaps(selected, i, j + 1) == CrossOverlaps(selected, i, j)
    ensures j < |selected| && selected[i].split != selected[j].split ==>
              |CrossOverlaps(selected, i, j + 1)|
              == |CrossOverlaps(selected, i, j)| + |SharedNames(selected[i].candidate, selected[j].candidate)|
  {
    hide SharedNames;
    if j < |selected| && selected[i].split != selected[j].split {
      var more := At(i, j, SharedNames(selected[i].candidate, selected[j].candidate));
      AtSize(i, j, SharedNames(selected[i].candidate, selected[j].candidate));
      assert CrossOverlaps(selected, i, j + 1) == CrossOverlaps(selected, i, j) + more;
      assert CrossOverlaps(selected, i, j) !! more;
    }
  }

  lemma OldNamesStep(selected: seq<Selected>, v1: seq<Candidate>, i: nat, k: nat)
    requires i < |selected| && k <= |v1|
    ensures OldOverlaps(selected, v1, i + 1, 0) == OldOverlaps(selected, v1, i, |v1|)
    ensures k < |v1| ==>
              |OldOverlaps(selected, v1, i, k + 1)|
              == |OldOverlaps(selected, v1, i, k)| + |SharedNames(selected[i].candidate, v1[k])|
  {
    hide SharedNames;
    if k < |v1| {
      var more := At(i, k, SharedNames(selected[i].candidate, v1[k]));
      AtSize(i, k, SharedNames(selected[i].candidate, v1[k]));
      assert OldOverlaps(selected, v1, i, k + 1) == OldOverlaps(selected, v1, i, k) + more;
      assert OldOverlaps(selected, v1, i, k) !! more;
    }
  }

  lemma NameWalkEnds(selected: seq<Selected>, v1: seq<Candidate>)
    ensures CrossOverlaps(selected, 0, 1) == {} == OldOverlaps(selected, v1, 0, 0)
    ensures CrossOverlaps(selected, |selected|, |selected| + 1) == CrossOverlaps(selected, |selected|, 0)
  {
    hide SharedNames;
  }

  /** No overlap exactly when no two splits, and no selection and older task, share a name. */
  lemma NoOverlaps(selected: seq<Selected>, v1: seq<Candidate>)
    ensures |CrossOverlaps(selected, |selected|, 0)| + |OldOverlaps(selected, v1, |selected|, 0)| == 0 <==>
              && (forall i, j :: 0 <= i < j < |selected| ==> !SplitsShare(selected, i, j))
              && (forall i, k :: 0 <= i < |selected| && 0 <= k < |v1| ==> !OldShares(selected, v1, i, k))
  {
    hide SharedNames, SharesName;
    var cross, older := CrossOverlaps(selected, |selected|, 0), OldOverlaps(selected, v1, |selected|, 0);
    forall i: nat, j: nat | i < j < |selected|
      ensures SplitsShare(selected, i, j) <==> exists n :: (i, j, n) in cross
    {
      SharedExactly(selected[i].candidate, selected[j].candidate);
      var shared := SharedNames(selected[i].candidate, selected[j].candidate);
      if SplitsShare(selected, i, j) {
        var n :| n in shared;
        assert (i, j, n) in cross;
      }
    }
    forall i: nat, k: nat | i < |selected| && k < |v1|
      ensures OldShares(selected, v1, i, k) <==> exists n :: (i, k, n) in older
    {
      SharedExactly(selected[i].candidate, v1[k]);
      var shared := SharedNames(selected[i].candidate, v1[k]);
      if OldShares(selected, v1, i, k) {
        var n :| n in shared;
        assert (i, k, n) in older;
      }
    }
    if cross != {} {
      var o :| o in cross;
      assert (o.0, o.1, o.2) in cross;
      assert SplitsShare(selected, o.0, o.1);
    }
    if older != {} {
      var o :| o in older;
      assert (o.0, o.1, o.2) in older;
      assert OldShares(selected, v1, o.0, o.1);
    }
  }

  /** `_function_name_audit`: names shared across splits or with older tasks, once for every pair sharing them. */
  method NameOverlap(selected: seq<Selected>, v1: seq<Candidate>) returns (overlap: nat)
    ensures overlap == |CrossOverlaps(selected, |selected|, 0)| + |OldOverlaps(selected, v1, |selected|, 0)|
    ensures overlap == 0 <==>
              && (forall i, j :: 0 <= i < j < |selected| ==> !SplitsShare(selected, i, j))
              && (forall i, k :: 0 <= i < |selected| && 0 <= k < |v1| ==> !OldShares(selected, v1, i, k))
  {
    hide SharesName, SharedNames, CrossOverlaps, OldOverlaps;
    NameWalkEnds(selected, v1);
    overlap := 0;
    for i := 0 to |selected|
      invariant overlap == |CrossOverlaps(selected, i, i + 1)| + |OldOverlaps(selected, v1, i, 0)|
    {
      for j := i + 1 to |selected|
        invariant overlap == |CrossOverlaps(selected, i, j)| + |OldOverlaps(selected, v1, i, 0)|
      {
        CrossNamesStep(selected, i, j);
        if selected[i].split != selected[j].split {
          overlap := overlap + |SharedNames(selected[i].candidate, selected[j].candidate)|;
        }
      }
      CrossNamesStep(selected, i, |selected|);
      for k := 0 to |v1|
        invariant overlap == |CrossOverlaps(selected, i + 1, i + 2)| + |OldOverlaps(selected, v1, i, k)|
      {
        OldNamesStep(selected, v1, i, k);
        overlap := overlap + |SharedNames(selected[i].candidate, v1[k])|;
      }
      OldNamesStep(selected, v1, i, |v1|);
    }
    NoOverlaps(selected, v1);
  }

  /** The audit of anything the pipeline selects finds no name shared across splits or with an older task. */
  lemma DrawnHasNoOverlap(
    cs: seq<Candidate>, previous: seq<Candidate>, v1: set<int>, layout: Layout, token: TokenOf)
    requires layout.Valid() && Fills(EligibleUpTo(cs, v1, |cs|), layout)
    requires TasksUnique(EligibleUpTo(cs, v1, |cs|))
    requires forall c :: c in previous ==> c in cs && c.task in v1
    ensures var selected := Drawn(cs, v1, layout, token);
            && (forall i, j :: 0 <= i < j < |selected| ==> !SplitsShare(selected, i, j))
            && (forall i, k :: 0 <= i < |selected| && 0 <= k < |previous| ==> !OldShares(selected, previous, i, k))
  {
    hide Selection, EligibleUpTo, SharesName, Drawn;
    var selected := Drawn(cs, v1, layout, token);
    forall i, j | 0 <= i < j < |selected|
      ensures !SplitsShare(selected, i, j)
    {
      assert selected[i] in selected && selected[j] in selected;
      DrawnIsIsolated(cs, v1, layout, token, selected[i], selected[j].candidate);
      DrawnIsIsolated(cs, v1, layout, token, selected[j], selected[i].candidate);
      DrawnOnce(cs, v1, layout, token, selected[i], selected[j]);
    }
    forall i, k | 0 <= i < |selected| && 0 <= k < |previous|
      ensures !OldShares(selected, previous, i, k)
    {
      assert selected[i] in selected && previous[k] in previous;
      DrawnIsIsolated(cs, v1, layout, token, selected[i], previous[k]);
    }
  }

  lemma DrawnOnce(cs: seq<Candidate>, v1: set<int>, layout: Layout, token: TokenOf, x: Selected, y: Selected)
    requires layout.Valid() && Fills(EligibleUpTo(cs, v1, |cs|), layout)
    requires TasksUnique(EligibleUpTo(cs, v1, |cs|))
    requires x in Drawn(cs, v1, layout, token) && y in Drawn(cs, v1, layout, token)
    ensures x.split != y.split ==> x.candidate.task != y.candidate.task
  {
    hide Selection, EligibleUpTo;
    if x.candidate.task == y.candidate.task {
      SameTaskSameSelected(EligibleUpTo(cs, v1, |cs|), layout, token, x, y);
    }
  }

  /** Nor does any selected task fall into the family of an older one. */
  lemma DrawnFamiliesAreNew(
    cs: seq<Candidate>, components: seq<nat>, v1: set<int>, layout: Layout, token: TokenOf, x: Selected, k: nat)
    requires IsPartition(cs, components)
    requires layout.Valid() && Fills(EligibleUpTo(cs, v1, |cs|), layout)
    requires x in Drawn(cs, v1, layout, token) && k < |cs| && cs[k].task in v1
    ensures forall i :: 0 <= i < |cs| && cs[i] == x.candidate && Alone(cs, i) ==> components[i] != components[k]
    ensures exists i :: 0 <= i < |cs| && cs[i] == x.candidate && Alone(cs, i)
  {
    hide Selection, EligibleUpTo;
    DrawnFromPool(EligibleUpTo(cs, v1, |cs|), layout, token, x);
    EligibleMembers(cs, v1, |cs|, x.candidate);
    forall i | 0 <= i < |cs| && cs[i] == x.candidate && Alone(cs, i)
      ensures components[i] != components[k]
    {
      AloneIsSingleton(cs, components, i);
    }
  }
}
