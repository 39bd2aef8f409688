/** Target-free modal aggregation, in which a failed call casts one shared no-response vote. */
module ModalVote {
  import opened Prelude
  import opened Sorting

  /** A canonical response, or no response. */
  type Vote = Option<int>

  datatype Aggregate = Aggregate(samples: nat, modalCount: nat, tied: bool, selected: Vote)

  /** Tie keys: the digest of a vote, then its canonical text, which differs between votes. */
  type TieKey = Vote -> Key

  ghost predicate KeyInjective(key: TieKey) {
    forall v, w :: key(v) == key(w) ==> v == w
  }

  ghost predicate IsMode(votes: multiset<Vote>, v: Vote) {
    v in votes && forall w :: w in votes ==> votes[w] <= votes[v]
  }

  /** The result any correct aggregation must return; it only looks at how often each vote was cast. */
  ghost predicate IsAggregate(votes: multiset<Vote>, key: TieKey, a: Aggregate) {
    && a.samples == |votes|
    && (votes == multiset{} ==> a.modalCount == 0 && !a.tied && a.selected == None)
    && (votes != multiset{} ==>
          && IsMode(votes, a.selected)
          && a.modalCount == votes[a.selected]
          && (forall v :: IsMode(votes, v) ==> Leq(key(a.selected), key(v)))
          && (a.tied <==> exists v :: v != a.selected && IsMode(votes, v)))
  }

  /** The specification determines the result. */
  lemma AggregateUnique(votes: multiset<Vote>, key: TieKey, a: Aggregate, b: Aggregate)
    requires KeyInjective(key) && IsAggregate(votes, key, a) && IsAggregate(votes, key, b)
    ensures a == b
  {
    if votes != multiset{} {
      assert Leq(key(a.selected), key(b.selected)) && Leq(key(b.selected), key(a.selected));
      KeyOrder(key(a.selected), key(b.selected), key(b.selected));
      assert key(a.selected) == key(b.selected);
    }
  }

  /** Aggregating any permutation of the samples gives the same result. */
  lemma PermutationInvariant(xs: seq<Vote>, ys: seq<Vote>, key: TieKey, a: Aggregate, b: Aggregate)
    requires KeyInjective(key) && multiset(xs) == multiset(ys)
    requires IsAggregate(multiset(xs), key, a) && IsAggregate(multiset(ys), key, b)
    ensures a == b
  {
    AggregateUnique(multiset(xs), key, a, b);
  }

  // ---------------------------------------------------------------- the loops

  ghost predicate Tallied(votes: seq<Vote>, counts: map<Vote, nat>) {
    && (forall v :: v in counts <==> v in multiset(votes))
    && (forall v :: v in counts ==> counts[v] == multiset(votes)[v])
  }

  method Tally(votes: seq<Vote>) returns (counts: map<Vote, nat>)
    ensures Tallied(votes, counts)
  {
    counts := map[];
    for i := 0 to |votes|
      invariant Tallied(votes[..i], counts)
    {
      assert votes[..i + 1] == votes[..i] + [votes[i]];
      counts := counts[votes[i] := (if votes[i] in counts then counts[votes[i]] else 0) + 1];
    }
    assert votes[..|votes|] == votes;
  }

  /** `max(counts.values())` and the votes that reach it. */
  method Modes(counts: map<Vote, nat>) returns (most: nat, modes: set<Vote>)
    requires counts != map[]
    ensures modes != {} && forall v :: v in modes <==> v in counts && counts[v] == most
    ensures forall v :: v in counts ==> counts[v] <= most
  {
    var rest := counts.Keys;
    var first :| first in rest;
    most := counts[first];
    rest := rest - {first};
    while rest != {}
      invariant rest <= counts.Keys
      invariant exists v :: v in counts && counts[v] == most
      invariant forall v :: v in counts && v !in rest ==> counts[v] <= most
      decreases |rest|
    {
      var v :| v in rest;
      if counts[v] > most {
        most := counts[v];
      }
      rest := rest - {v};
    }
    modes := set v | v in counts && counts[v] == most;
  }

  /** `min(modes, key=tie_key)`. */
  method LeastByKey(modes: set<Vote>, key: TieKey) returns (lowest: Vote)
    requires modes != {}
    ensures lowest in modes && forall v :: v in modes ==> Leq(key(lowest), key(v))
  {
    hide Leq;
    var rest := modes;
    lowest :| lowest in rest;
    KeyOrder(key(lowest), key(lowest), key(lowest));
    rest := rest - {lowest};
    while rest != {}
      invariant rest <= modes && lowest in modes
      invariant forall v :: v in modes && v !in rest ==> Leq(key(lowest), key(v))
      decreases |rest|
    {
      var v :| v in rest;
      forall u | u in modes && u !in rest
        ensures Leq(key(v), key(lowest)) ==> Leq(key(v), key(u))
      {
        KeyOrder(key(v), key(lowest), key(u));
      }
      KeyOrder(key(lowest), key(v), key(v));
      KeyOrder(key(v), key(v), key(v));
      if !Leq(key(lowest), key(v)) {
        lowest := v;
      }
      rest := rest - {v};
    }
  }

  /** `aggregate_bfcl_v4_public_development_v2_pure_at_b`. */
  method AggregateVotes(votes: seq<Vote>, key: TieKey) returns (a: Aggregate)
    ensures IsAggregate(multiset(votes), key, a)
  {
    if votes == [] {
      return Aggregate(0, 0, false, None);
    }
    var counts := Tally(votes);
    assert votes[0] in multiset(votes) && votes[0] in counts;
    var most, modes := Modes(counts);
    var selected := LeastByKey(modes, key);
    forall v
      ensures IsMode(multiset(votes), v) <==> v in modes
    {
      assert v in modes ==> v in multiset(votes) && multiset(votes)[v] == most;
      if IsMode(multiset(votes), v) {
        assert multiset(votes)[selected] <= multiset(votes)[v];
      }
    }
    TieIffTwo(modes, selected);
    return Aggregate(|votes|, most, |modes| > 1, selected);
  }

  lemma TieIffTwo(modes: set<Vote>, selected: Vote)
    requires selected in modes
    ensures |modes| > 1 <==> exists v :: v != selected && v in modes
  {
    var rest := modes - {selected};
    assert modes == rest + {selected};
    if rest != {} {
      var v :| v in rest;
    }
  }
}
