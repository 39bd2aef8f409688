/** Exactly who is drawn into a roster, and in which order. */
module RosterMeaning {
  import opened Prelude
  import opened Sorting
  import opened FamilyGraph
  import opened RosterSelection

  /** Of two candidates of one category: the smaller token first, and the smaller task at equal tokens. */
  predicate RanksBefore(token: TokenOf, a: Candidate, b: Candidate) {
    var s, t := token(a.category, a.task), token(b.category, b.task);
    s < t || (s == t && a.task < b.task)
  }

  ghost function Ahead(pool: seq<Candidate>, token: TokenOf, c: Candidate): set<Candidate> {
    set x | x in pool && x.category == c.category && RanksBefore(token, x, c)
  }

  /** How many candidates of its category rank before a candidate. */
  ghost function RankOf(pool: seq<Candidate>, token: TokenOf, c: Candidate): nat {
    |Ahead(pool, token, c)|
  }

  lemma KeyRanks(token: TokenOf, a: Candidate, b: Candidate)
    ensures Less(RankKey(token)(a), RankKey(token)(b)) <==> RanksBefore(token, a, b)
  {
  }

  lemma {:induction false} FirstOnes(xs: seq<Candidate>, q: nat)
    requires q <= |xs| && forall i, j :: 0 <= i < j < |xs| ==> xs[i] != xs[j]
    ensures |set i | 0 <= i < q :: xs[i]| == q
    decreases q
  {
    var upTo := set i | 0 <= i < q :: xs[i];
    if q > 0 {
      FirstOnes(xs, q - 1);
      var before := set i | 0 <= i < q - 1 :: xs[i];
      assert upTo == before + {xs[q - 1]};
      assert xs[q - 1] !in before;
    } else {
      assert upTo == {};
    }
  }

  /** A candidate's place in the ranking is the number of candidates ahead of it. */
  lemma PlaceIsRank(pool: seq<Candidate>, c: int, token: TokenOf, q: nat)
    requires TasksUnique(pool) && q < |Ranked(pool, c, token)|
    ensures RankOf(pool, token, Ranked(pool, c, token)[q]) == q
  {
    hide Ranked, TasksUnique, RankKey, RanksBefore;
    var ranked := Ranked(pool, c, token);
    var x := ranked[q];
    RankedMembers(pool, c, token);
    forall i, j | 0 <= i < j < |ranked|
      ensures RanksBefore(token, ranked[i], ranked[j]) && ranked[i] != ranked[j]
    {
      RankedStrictly(pool, c, token, i, j);
      KeyRanks(token, ranked[i], ranked[j]);
    }
    FirstOnes(ranked, q);
    var firsts := set i | 0 <= i < q :: ranked[i];
    assert ranked[q] in ranked;
    forall y
      ensures y in Ahead(pool, token, x) <==> y in firsts
    {
      if y in firsts {
        assert y in ranked;
      }
      if y in Ahead(pool, token, x) {
        assert y in ranked;
        var i :| 0 <= i < |ranked| && ranked[i] == y;
        if q <= i {
          NotBoth(token, x, y);
        }
      }
    }
    assert Ahead(pool, token, x) == firsts;
  }

  lemma NotBoth(token: TokenOf, a: Candidate, b: Candidate)
    requires RanksBefore(token, b, a)
    ensures a != b && !RanksBefore(token, a, b)
  {
  }

  /** The selections an accepted pool yields: in each category, by rank, each split its quota. */
  ghost predicate IsDrawn(pool: seq<Candidate>, layout: Layout, token: TokenOf, x: Selected) {
    var c := x.candidate.category;
    && x.candidate in pool && c in layout.categories && x.token == token(c, x.candidate.task)
    && x.split < |layout.quotas|
    && layout.Offset(x.split, c) <= RankOf(pool, token, x.candidate) < layout.Offset(x.split + 1, c)
  }

  /** Exactly these are selected. */
  lemma DrawnExactly(pool: seq<Candidate>, layout: Layout, token: TokenOf, x: Selected)
    requires layout.Valid() && Fills(pool, layout) && TasksUnique(pool)
    ensures x in Selection(pool, layout, token) <==> IsDrawn(pool, layout, token, x)
  {
    hide Selection, Ranked, RankOf, Block, TasksUnique;
    var c := x.candidate.category;
    RankedMembers(pool, c, token);
    if x in Selection(pool, layout, token) {
      var q := DrawnRank(pool, layout, token, x);
      PlaceIsRank(pool, c, token, q);
      DrawnFromPool(pool, layout, token, x);
    }
    if IsDrawn(pool, layout, token, x) {
      var q :| 0 <= q < |Ranked(pool, c, token)| && Ranked(pool, c, token)[q] == x.candidate;
      PlaceIsRank(pool, c, token, q);
      var m :| 0 <= m < |layout.categories| && layout.categories[m] == c;
      var block := Block(pool, layout, token, x.split, c);
      assert block[q - layout.Offset(x.split, c)] == x;
      BlockIsSelected(pool, layout, token, x.split, m, x);
    }
  }

  // ---------------------------------------------------------------- in which order

  /** Splits in turn, in a split the categories in turn, in a category by rank. */
  ghost predicate ListedBefore(layout: Layout, token: TokenOf, x: Selected, y: Selected) {
    || x.split < y.split
    || (x.split == y.split && CategoryBefore(layout, x.candidate.category, y.candidate.category))
    || (x.split == y.split && x.candidate.category == y.candidate.category
        && RanksBefore(token, x.candidate, y.candidate))
  }

  ghost predicate CategoryBefore(layout: Layout, c: int, d: int) {
    exists m, n :: 0 <= m < n < |layout.categories| && layout.categories[m] == c && layout.categories[n] == d
  }

  ghost predicate Ascends(layout: Layout, token: TokenOf, xs: seq<Selected>) {
    forall i, j :: 0 <= i < j < |xs| ==> ListedBefore(layout, token, xs[i], xs[j])
  }

  lemma Joined(layout: Layout, token: TokenOf, a: seq<Selected>, b: seq<Selected>)
    requires Ascends(layout, token, a) && Ascends(layout, token, b)
    requires forall x, y :: x in a && y in b ==> ListedBefore(layout, token, x, y)
    ensures Ascends(layout, token, a + b)
  {
    hide ListedBefore;
    forall i, j | 0 <= i < j < |a + b|
      ensures ListedBefore(layout, token, (a + b)[i], (a + b)[j])
    {
      if i < |a| <= j {
        assert (a + b)[i] in a && (a + b)[j] in b;
      }
    }
  }

  lemma BlockAscends(pool: seq<Candidate>, layout: Layout, token: TokenOf, s: nat, c: int)
    requires layout.Valid() && Fills(pool, layout) && TasksUnique(pool)
    requires s < |layout.quotas| && c in layout.categories
    ensures Ascends(layout, token, Block(pool, layout, token, s, c))
  {
    hide Block, Ranked, TasksUnique, RanksBefore, RankKey, Fills;
    var block, start := Block(pool, layout, token, s, c), layout.Offset(s, c);
    forall i, j | 0 <= i < j < |block|
      ensures ListedBefore(layout, token, block[i], block[j])
    {
      RankedStrictly(pool, c, token, start + i, start + j);
      KeyRanks(token, block[i].candidate, block[j].candidate);
    }
  }

  /** What a split has drawn so far comes from the categories so far. */
  lemma {:induction false} SplitCategory(
    pool: seq<Candidate>, layout: Layout, token: TokenOf, s: nat, k: nat, x: Selected) returns (m: nat)
    requires layout.Valid() && Fills(pool, layout) && s < |layout.quotas| && k <= |layout.categories|
    requires x in SplitUpTo(pool, layout, token, s, k)
    ensures x.split == s && m < k && layout.categories[m] == x.candidate.category
    decreases k
  {
    if x in SplitUpTo(pool, layout, token, s, k - 1) {
      m := SplitCategory(pool, layout, token, s, k - 1, x);
    } else {
      m := k - 1;
    }
  }

  lemma LaterCategory(layout: Layout, token: TokenOf, x: Selected, y: Selected, m: nat, n: nat)
    requires m < n < |layout.categories| && x.split == y.split
    requires layout.categories[m] == x.candidate.category && layout.categories[n] == y.candidate.category
    ensures ListedBefore(layout, token, x, y)
  {
    assert CategoryBefore(layout, x.candidate.category, y.candidate.category);
  }

  /** A split grows by one category's block, whose members are of that split and category. */
  lemma BlockJoins(
    pool: seq<Candidate>, layout: Layout, token: TokenOf, s: nat, k: nat) returns (before: seq<Selected>, block: seq<Selected>)
    requires layout.Valid() && Fills(pool, layout) && s < |layout.quotas| && 0 < k <= |layout.categories|
    ensures before == SplitUpTo(pool, layout, token, s, k - 1)
    ensures block == Block(pool, layout, token, s, layout.categories[k - 1])
    ensures SplitUpTo(pool, layout, token, s, k) == before + block
    ensures forall y :: y in block ==> y.split == s && y.candidate.category == layout.categories[k - 1]
  {
    hide Block, Fills;
    before := SplitUpTo(pool, layout, token, s, k - 1);
    block := Block(pool, layout, token, s, layout.categories[k - 1]);
  }

  lemma EmptySplit(pool: seq<Candidate>, layout: Layout, token: TokenOf, s: nat)
    requires layout.Valid() && Fills(pool, layout) && s < |layout.quotas|
    ensures SplitUpTo(pool, layout, token, s, 0) == []
  {
  }

  lemma {:induction false} SplitAscends(pool: seq<Candidate>, layout: Layout, token: TokenOf, s: nat, k: nat)
    requires layout.Valid() && Fills(pool, layout) && TasksUnique(pool)
    requires s < |layout.quotas| && k <= |layout.categories|
    ensures Ascends(layout, token, SplitUpTo(pool, layout, token, s, k))
    decreases k
  {
    hide *;
    if k == 0 {
      EmptySplit(pool, layout, token, s);
      NothingAscends(layout, token);
    } else {
      var before, block := BlockJoins(pool, layout, token, s, k);
      SplitAscends(pool, layout, token, s, k - 1);
      BlockAscends(pool, layout, token, s, layout.categories[k - 1]);
      forall x, y | x in before && y in block
        ensures ListedBefore(layout, token, x, y)
      {
        var m := SplitCategory(pool, layout, token, s, k - 1, x);
        LaterCategory(layout, token, x, y, m, k - 1);
      }
      Joined(layout, token, before, block);
    }
  }

  lemma {:induction false} UpToAscends(pool: seq<Candidate>, layout: Layout, token: TokenOf, s: nat)
    requires layout.Valid() && Fills(pool, layout) && TasksUnique(pool) && s <= |layout.quotas|
    ensures Ascends(layout, token, SelectionUpTo(pool, layout, token, s))
    decreases s
  {
    hide SplitUpTo, TasksUnique, Fills, Ascends;
    if s > 0 {
      var before := SelectionUpTo(pool, layout, token, s - 1);
      var split := SplitUpTo(pool, layout, token, s - 1, |layout.categories|);
      UpToAscends(pool, layout, token, s - 1);
      SplitAscends(pool, layout, token, s - 1, |layout.categories|);
      forall x, y | x in before && y in split
        ensures ListedBefore(layout, token, x, y)
      {
        SelectionMembers(pool, layout, token, s - 1, x);
        SplitMembers(pool, layout, token, s - 1, |layout.categories|, y);
      }
      Joined(layout, token, before, split);
    } else {
      NothingAscends(layout, token);
    }
  }

  lemma NothingAscends(layout: Layout, token: TokenOf)
    ensures Ascends(layout, token, [])
  {
  }

  /** A selection lists what it draws split by split, category by category, rank by rank. */
  lemma SelectionAscends(pool: seq<Candidate>, layout: Layout, token: TokenOf, i: nat, j: nat)
    requires layout.Valid() && Fills(pool, layout) && TasksUnique(pool)
    requires i < j < |Selection(pool, layout, token)|
    ensures ListedBefore(layout, token, Selection(pool, layout, token)[i], Selection(pool, layout, token)[j])
  {
    hide SelectionUpTo, ListedBefore, TasksUnique, Fills;
    UpToAscends(pool, layout, token, |layout.quotas|);
  }
}
