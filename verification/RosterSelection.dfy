/** Quota slicing of the ranked pool: lowest tokens to FIT, then GATE, then HOLDOUT. */
module RosterSelection {
  import opened Prelude
  import opened Sorting
  import opened FamilyGraph

  /** A selection token is a hash of category and task; only its order matters. */
  type TokenOf = (int, int) -> int

  /** Categories in order, how many of each are drawn in all, and how many each split receives. */
  datatype Layout = Layout(categories: seq<int>, totals: map<int, nat>, quotas: seq<map<int, nat>>) {
    ghost predicate Valid() {
      && NoDuplicates(categories)
      && forall c :: c in categories ==>
           && c in totals
           && (forall s :: 0 <= s < |quotas| ==> c in quotas[s])
           && Offset(|quotas|, c) == totals[c]
    }

    /** How many of category `c` the splits before `s` receive. */
    ghost function Offset(s: nat, c: int): nat
      requires s <= |quotas|
    {
      if s == 0 then 0 else Offset(s - 1, c) + if c in quotas[s - 1] then quotas[s - 1][c] else 0
    }

    lemma {:induction false} OffsetGrows(s: nat, t: nat, c: int)
      requires s <= t <= |quotas|
      ensures Offset(s, c) <= Offset(t, c)
      decreases t
    {
      if s < t {
        OffsetGrows(s, t - 1, c);
      }
    }
  }

  datatype Selected = Selected(candidate: Candidate, split: nat, token: int)

  function RankKey(token: TokenOf): Candidate -> Key {
    (c: Candidate) => Key(token(c.category, c.task), c.task)
  }

  function InCategory(pool: seq<Candidate>, category: int): (r: seq<Candidate>)
    ensures forall c :: c in r <==> c in pool && c.category == category
  {
    if pool == [] then []
    else InCategory(pool[..|pool| - 1], category)
         + if pool[|pool| - 1].category == category then [pool[|pool| - 1]] else []
  }

  function Ranked(pool: seq<Candidate>, category: int, token: TokenOf): seq<Candidate> {
    SortBy(InCategory(pool, category), RankKey(token))
  }

  /** A ranking is the category's members, all of them, once each. */
  lemma RankedMembers(pool: seq<Candidate>, c: int, token: TokenOf)
    ensures |Ranked(pool, c, token)| == |InCategory(pool, c)|
    ensures multiset(Ranked(pool, c, token)) == multiset(InCategory(pool, c))
    ensures forall x :: x in Ranked(pool, c, token) <==> x in pool && x.category == c
  {
    SortByCorrect(InCategory(pool, c), RankKey(token));
    forall x
      ensures x in Ranked(pool, c, token) <==> x in InCategory(pool, c)
    {
      assert x in Ranked(pool, c, token) <==> x in multiset(Ranked(pool, c, token));
      assert x in InCategory(pool, c) <==> x in multiset(InCategory(pool, c));
    }
  }

  // ---------------------------------------------------------------- the selection as a function

  ghost predicate Fills(pool: seq<Candidate>, layout: Layout)
    requires layout.Valid()
  {
    forall c :: c in layout.categories ==> layout.totals[c] <= |InCategory(pool, c)|
  }

  /** A category's ranking is long enough for every split. */
  lemma BlockFits(pool: seq<Candidate>, layout: Layout, token: TokenOf, s: nat, c: int)
    requires layout.Valid() && Fills(pool, layout) && s < |layout.quotas| && c in layout.categories
    ensures c in layout.quotas[s]
    ensures layout.Offset(s, c) + layout.quotas[s][c] == layout.Offset(s + 1, c) <= |Ranked(pool, c, token)|
    ensures forall i :: 0 <= i < |Ranked(pool, c, token)| ==> Ranked(pool, c, token)[i].category == c
  {
    hide Ranked, InCategory;
    RankedMembers(pool, c, token);
    layout.OffsetGrows(s + 1, |layout.quotas|, c);
    var ranked := Ranked(pool, c, token);
    assert forall i :: 0 <= i < |ranked| ==> ranked[i] in ranked;
  }

  /** The slice of the ranking that split `s` receives from category `c`. */
  ghost function Block(pool: seq<Candidate>, layout: Layout, token: TokenOf, s: nat, c: int): (block: seq<Selected>)
    requires layout.Valid() && Fills(pool, layout) && s < |layout.quotas| && c in layout.categories
    ensures |block| == layout.quotas[s][c]
    ensures layout.Offset(s, c) + |block| == layout.Offset(s + 1, c) <= |Ranked(pool, c, token)|
    ensures forall k :: 0 <= k < |block| ==>
                          var candidate := Ranked(pool, c, token)[layout.Offset(s, c) + k];
                          block[k] == Selected(candidate, s, token(c, candidate.task)) && candidate.category == c
  {
    hide Ranked, InCategory, Fills;
    BlockFits(pool, layout, token, s, c);
    var ranked := Ranked(pool, c, token);
    var start := layout.Offset(s, c);
    seq(layout.quotas[s][c], k requires 0 <= k < layout.quotas[s][c] =>
      Selected(ranked[start + k], s, token(c, ranked[start + k].task)))
  }

  ghost function SplitUpTo(pool: seq<Candidate>, layout: Layout, token: TokenOf, s: nat, k: nat): seq<Selected>
    requires layout.Valid() && Fills(pool, layout) && s < |layout.quotas| && k <= |layout.categories|
  {
    if k == 0 then []
    else SplitUpTo(pool, layout, token, s, k - 1) + Block(pool, layout, token, s, layout.categories[k - 1])
  }

  ghost function SelectionUpTo(pool: seq<Candidate>, layout: Layout, token: TokenOf, s: nat): seq<Selected>
    requires layout.Valid() && Fills(pool, layout) && s <= |layout.quotas|
  {
    if s == 0 then []
    else SelectionUpTo(pool, layout, token, s - 1)
         + SplitUpTo(pool, layout, token, s - 1, |layout.categories|)
  }

  ghost function Selection(pool: seq<Candidate>, layout: Layout, token: TokenOf): seq<Selected>
    requires layout.Valid() && Fills(pool, layout)
  {
    SelectionUpTo(pool, layout, token, |layout.quotas|)
  }

  // ---------------------------------------------------------------- the loops

  /** `_select`: rank every category, refuse a pool that cannot fill one, then slice by running offsets. */
  method Select(pool: seq<Candidate>, layout: Layout, token: TokenOf) returns (r: Result<seq<Selected>, ()>)
    requires layout.Valid()
    ensures r.Ok? <==> Fills(pool, layout)
    ensures r.Ok? ==> r.value == Selection(pool, layout, token)
  {
    hide Ranked, InCategory;
    var perCategory: map<int, seq<Candidate>> := map[];
    for k := 0 to |layout.categories|
      invariant forall m :: 0 <= m < k ==>
                  var c := layout.categories[m];
                  && layout.totals[c] <= |InCategory(pool, c)|
                  && |Ranked(pool, c, token)| == |InCategory(pool, c)|
                  && c in perCategory && perCategory[c] == Ranked(pool, c, token)[..layout.totals[c]]
    {
      var c := layout.categories[k];
      var ranked := Ranked(pool, c, token);
      RankedMembers(pool, c, token);
      if |ranked| < layout.totals[c] {
        return Err(());
      }
      perCategory := perCategory[c := ranked[..layout.totals[c]]];
    }
    var selected := Slice(pool, layout, token, perCategory);
    return Ok(selected);
  }

  /** Append `count` candidates from `start` on, labelled with their split and token. */
  method AppendSlice(
    before: seq<Selected>, drawn: seq<Candidate>, start: nat, count: nat, s: nat, c: int, token: TokenOf,
    ghost block: seq<Selected>) returns (selected: seq<Selected>)
    requires start + count <= |drawn| && |block| == count
    requires forall k :: 0 <= k < count ==>
               block[k] == Selected(drawn[start + k], s, token(c, drawn[start + k].task))
    ensures selected == before + block
  {
    selected := before;
    for i := 0 to count
      invariant selected == before + block[..i]
    {
      var candidate := drawn[start + i];
      selected := selected + [Selected(candidate, s, token(c, candidate.task))];
      assert block[..i + 1] == block[..i] + [block[i]];
    }
    assert block[..count] == block;
  }

  /** The ranked prefixes that the slices are taken from. */
  ghost predicate Prefixes(
    pool: seq<Candidate>, layout: Layout, token: TokenOf, perCategory: map<int, seq<Candidate>>)
    requires layout.Valid()
  {
    forall c :: c in layout.categories ==>
      && layout.totals[c] <= |Ranked(pool, c, token)|
      && c in perCategory && perCategory[c] == Ranked(pool, c, token)[..layout.totals[c]]
  }

  /** Categories `lo..hi` stand at the offset of split `s`. */
  ghost predicate OffsetsAt(layout: Layout, offsets: map<int, nat>, s: nat, lo: nat, hi: nat)
    requires hi <= |layout.categories| && s <= |layout.quotas|
  {
    forall m :: lo <= m < hi ==>
      layout.categories[m] in offsets && offsets[layout.categories[m]] == layout.Offset(s, layout.categories[m])
  }

  /** One split: a slice of every category, each starting at its running offset. */
  method SliceSplit(
    pool: seq<Candidate>, layout: Layout, token: TokenOf, perCategory: map<int, seq<Candidate>>,
    s: nat, before: seq<Selected>, offsets: map<int, nat>)
    returns (selected: seq<Selected>, moved: map<int, nat>)
    requires layout.Valid() && Fills(pool, layout) && Prefixes(pool, layout, token, perCategory)
    requires s < |layout.quotas|
    requires OffsetsAt(layout, offsets, s, 0, |layout.categories|)
    ensures selected == before + SplitUpTo(pool, layout, token, s, |layout.categories|)
    ensures OffsetsAt(layout, moved, s + 1, 0, |layout.categories|)
  {
    hide Ranked, InCategory, Block;
    selected, moved := before, offsets;
    for k := 0 to |layout.categories|
      invariant selected == before + SplitUpTo(pool, layout, token, s, k)
      invariant OffsetsAt(layout, moved, s + 1, 0, k)
      invariant OffsetsAt(layout, moved, s, k, |layout.categories|)
    {
      var c := layout.categories[k];
      var count := layout.quotas[s][c];
      ghost var block := Block(pool, layout, token, s, c);
      layout.OffsetGrows(s + 1, |layout.quotas|, c);
      ghost var soFar := selected;
      selected := AppendSlice(selected, perCategory[c], moved[c], count, s, c, token, block);
      moved := moved[c := moved[c] + count];
      assert soFar + block == before + (SplitUpTo(pool, layout, token, s, k) + block);
    }
  }

  method Slice(pool: seq<Candidate>, layout: Layout, token: TokenOf, perCategory: map<int, seq<Candidate>>)
    returns (selected: seq<Selected>)
    requires layout.Valid() && Fills(pool, layout) && Prefixes(pool, layout, token, perCategory)
    ensures selected == Selection(pool, layout, token)
  {
    selected := [];
    var offsets := map c | c in layout.categories :: 0;
    for s := 0 to |layout.quotas|
      invariant selected == SelectionUpTo(pool, layout, token, s)
      invariant OffsetsAt(layout, offsets, s, 0, |layout.categories|)
    {
      selected, offsets := SliceSplit(pool, layout, token, perCategory, s, selected, offsets);
    }
  }

  // ---------------------------------------------------------------- what the selection promises

  /** The part of a selection that went to split `s` from category `c`, in order. */
  ghost function Cell(selected: seq<Selected>, s: nat, c: int): seq<Selected> {
    if selected == [] then []
    else
      var last := selected[|selected| - 1];
      Cell(selected[..|selected| - 1], s, c) + if last.split == s && last.candidate.category == c then [last] else []
  }

  lemma {:induction false} CellOfJoin(a: seq<Selected>, b: seq<Selected>, s: nat, c: int)
    ensures Cell(a + b, s, c) == Cell(a, s, c) + Cell(b, s, c)
    decreases |b|
  {
    if b == [] {
      assert a + b == a;
    } else {
      assert (a + b)[..|a + b| - 1] == a + b[..|b| - 1];
      CellOfJoin(a, b[..|b| - 1], s, c);
    }
  }

  lemma {:induction false} CellAll(block: seq<Selected>, s: nat, c: int)
    requires forall k :: 0 <= k < |block| ==> block[k].split == s && block[k].candidate.category == c
    ensures Cell(block, s, c) == block
    decreases |block|
  {
    if block != [] {
      CellAll(block[..|block| - 1], s, c);
    }
  }

  lemma {:induction false} CellNone(block: seq<Selected>, s: nat, c: int)
    requires forall k :: 0 <= k < |block| ==> block[k].split != s || block[k].candidate.category != c
    ensures Cell(block, s, c) == []
    decreases |block|
  {
    if block != [] {
      CellNone(block[..|block| - 1], s, c);
    }
  }

  lemma CellOfBlock(
    pool: seq<Candidate>, layout: Layout, token: TokenOf, t: nat, d: int, s: nat, c: int)
    requires layout.Valid() && Fills(pool, layout)
    requires t < |layout.quotas| && d in layout.categories
    ensures Cell(Block(pool, layout, token, t, d), s, c)
         == if t == s && d == c then Block(pool, layout, token, t, d) else []
  {
    var block := Block(pool, layout, token, t, d);
    if t == s && d == c {
      CellAll(block, s, c);
    } else {
      CellNone(block, s, c);
    }
  }

  lemma {:induction false} CellOfSplit(
    pool: seq<Candidate>, layout: Layout, token: TokenOf, t: nat, k: nat, s: nat, m: nat)
    requires layout.Valid() && Fills(pool, layout)
    requires t < |layout.quotas| && s < |layout.quotas| && k <= |layout.categories| && m < |layout.categories|
    ensures Cell(SplitUpTo(pool, layout, token, t, k), s, layout.categories[m])
         == if t == s && m < k then Block(pool, layout, token, s, layout.categories[m]) else []
    decreases k
  {
    hide Block, InCategory, Ranked, Fills, Cell;
    if k == 0 {
      CellNone([], s, layout.categories[m]);
    } else {
      var d, c := layout.categories[k - 1], layout.categories[m];
      CellOfSplit(pool, layout, token, t, k - 1, s, m);
      CellOfJoin(SplitUpTo(pool, layout, token, t, k - 1), Block(pool, layout, token, t, d), s, c);
      CellOfBlock(pool, layout, token, t, d, s, c);
      CategoriesDiffer(layout, k - 1, m);
    }
  }

  lemma CategoriesDiffer(layout: Layout, i: nat, j: nat)
    requires layout.Valid() && i < |layout.categories| && j < |layout.categories|
    ensures layout.categories[i] == layout.categories[j] <==> i == j
  {
  }

  lemma {:induction false} CellOfSelection(
    pool: seq<Candidate>, layout: Layout, token: TokenOf, t: nat, s: nat, m: nat)
    requires layout.Valid() && Fills(pool, layout)
    requires t <= |layout.quotas| && s < |layout.quotas| && m < |layout.categories|
    ensures Cell(SelectionUpTo(pool, layout, token, t), s, layout.categories[m])
         == if s < t then Block(pool, layout, token, s, layout.categories[m]) else []
    decreases t
  {
    hide Block, InCategory, Ranked, Fills, Cell;
    if t == 0 {
      CellNone([], s, layout.categories[m]);
    } else {
      CellOfSelection(pool, layout, token, t - 1, s, m);
      CellOfSplit(pool, layout, token, t - 1, |layout.categories|, s, m);
      CellOfJoin(
        SelectionUpTo(pool, layout, token, t - 1),
        SplitUpTo(pool, layout, token, t - 1, |layout.categories|), s, layout.categories[m]);
    }
  }

  /**
   Every split receives from every category exactly its quota: the slice of the category's ranking
   that starts where the earlier splits stopped.
   */
  lemma QuotasFilledExactly(pool: seq<Candidate>, layout: Layout, token: TokenOf, s: nat, c: int)
    requires layout.Valid() && Fills(pool, layout) && s < |layout.quotas| && c in layout.categories
    ensures var cell := Cell(Selection(pool, layout, token), s, c);
            && |cell| == layout.quotas[s][c]
            && layout.Offset(s, c) + |cell| <= |Ranked(pool, c, token)|
            && forall k :: 0 <= k < |cell| ==> cell[k].candidate == Ranked(pool, c, token)[layout.Offset(s, c) + k]
  {
    var m :| 0 <= m < |layout.categories| && layout.categories[m] == c;
    CellOfSelection(pool, layout, token, |layout.quotas|, s, m);
    var block := Block(pool, layout, token, s, c);
  }

  lemma {:induction false} SplitMembers(
    pool: seq<Candidate>, layout: Layout, token: TokenOf, s: nat, k: nat, x: Selected)
    requires layout.Valid() && Fills(pool, layout) && s < |layout.quotas| && k <= |layout.categories|
    requires x in SplitUpTo(pool, layout, token, s, k)
    ensures x.split == s && x.candidate.category in layout.categories
    ensures x in Block(pool, layout, token, s, x.candidate.category)
    decreases k
  {
    hide Block, InCategory, Ranked, Fills;
    if x in SplitUpTo(pool, layout, token, s, k - 1) {
      SplitMembers(pool, layout, token, s, k - 1, x);
    }
  }

  lemma {:induction false} SelectionMembers(
    pool: seq<Candidate>, layout: Layout, token: TokenOf, s: nat, x: Selected)
    requires layout.Valid() && Fills(pool, layout) && s <= |layout.quotas|
    requires x in SelectionUpTo(pool, layout, token, s)
    ensures x.split < s && x.candidate.category in layout.categories
    ensures x in Block(pool, layout, token, x.split, x.candidate.category)
    decreases s
  {
    if x in SelectionUpTo(pool, layout, token, s - 1) {
      SelectionMembers(pool, layout, token, s - 1, x);
    } else {
      SplitMembers(pool, layout, token, s - 1, |layout.categories|, x);
    }
  }

  ghost predicate TasksUnique(pool: seq<Candidate>) {
    forall i, j :: 0 <= i < j < |pool| ==> pool[i].task != pool[j].task
  }

  lemma {:induction false} CategoryTasksUnique(pool: seq<Candidate>, c: int)
    requires TasksUnique(pool)
    ensures TasksUnique(InCategory(pool, c))
    decreases |pool|
  {
    if pool != [] {
      CategoryTasksUnique(pool[..|pool| - 1], c);
      forall x | x in InCategory(pool[..|pool| - 1], c)
        ensures x.task != pool[|pool| - 1].task
      {
        assert x in pool[..|pool| - 1];
      }
    }
  }

  /** Distinct tasks stay distinct in any rearrangement. */
  lemma RearrangedTasksUnique(pool: seq<Candidate>, other: seq<Candidate>)
    requires TasksUnique(pool) && multiset(pool) == multiset(other)
    ensures TasksUnique(other)
  {
    forall i, j | 0 <= i < j < |other|
      ensures other[i].task != other[j].task
    {
      PairInside(other, i, j);
      assert other[i] in multiset(pool) && other[j] in multiset(pool);
      if other[i] == other[j] {
        AtMostOnce(pool, other[i]);
      }
    }
  }

  lemma PairInside(s: seq<Candidate>, i: nat, j: nat)
    requires i < j < |s|
    ensures multiset{s[i], s[j]} <= multiset(s)
  {
    assert s == s[..i] + [s[i]] + s[i + 1..j] + [s[j]] + s[j + 1..];
  }

  lemma {:induction false} AtMostOnce(pool: seq<Candidate>, x: Candidate)
    requires TasksUnique(pool)
    ensures multiset(pool)[x] <= 1
    decreases |pool|
  {
    if pool != [] {
      var shorter, last := pool[..|pool| - 1], pool[|pool| - 1];
      assert pool == shorter + [last];
      AtMostOnce(shorter, x);
      assert last !in shorter;
      assert last !in multiset(shorter);
    }
  }

  /** A ranking of distinct tasks is strictly increasing. */
  lemma RankedStrictly(pool: seq<Candidate>, c: int, token: TokenOf, i: nat, j: nat)
    requires TasksUnique(pool) && i < j < |Ranked(pool, c, token)|
    ensures Less(RankKey(token)(Ranked(pool, c, token)[i]), RankKey(token)(Ranked(pool, c, token)[j]))
    ensures Ranked(pool, c, token)[i].task != Ranked(pool, c, token)[j].task
  {
    CategoryTasksUnique(pool, c);
    SortByCorrect(InCategory(pool, c), RankKey(token));
    RearrangedTasksUnique(InCategory(pool, c), Ranked(pool, c, token));
  }

  /** Within a category, everything FIT drew ranks below everything GATE drew, and that below HOLDOUT. */
  lemma SplitsAreRanked(pool: seq<Candidate>, layout: Layout, token: TokenOf, x: Selected, y: Selected)
    requires layout.Valid() && Fills(pool, layout) && TasksUnique(pool)
    requires x in Selection(pool, layout, token) && y in Selection(pool, layout, token)
    requires x.candidate.category == y.candidate.category && x.split < y.split
    ensures Less(RankKey(token)(x.candidate), RankKey(token)(y.candidate))
  {
    var c := x.candidate.category;
    var i := DrawnRank(pool, layout, token, x);
    var j := DrawnRank(pool, layout, token, y);
    layout.OffsetGrows(x.split + 1, y.split, c);
    RankedStrictly(pool, c, token, i, j);
  }

  /** Everything ranked before a category's total is drawn. */
  lemma TopIsDrawn(pool: seq<Candidate>, layout: Layout, token: TokenOf, c: int, p: nat)
    requires layout.Valid() && Fills(pool, layout) && c in layout.categories && p < layout.totals[c]
    ensures p < |Ranked(pool, c, token)|
    ensures exists y :: y in Selection(pool, layout, token) && y.candidate == Ranked(pool, c, token)[p]
  {
    hide Ranked, InCategory, Selection;
    RankedMembers(pool, c, token);
    var s := SplitHolding(layout, c, p, |layout.quotas|);
    var m :| 0 <= m < |layout.categories| && layout.categories[m] == c;
    var holding := Block(pool, layout, token, s, c);
    var y := holding[p - layout.Offset(s, c)];
    BlockIsSelected(pool, layout, token, s, m, y);
  }

  /** Nothing left behind in a category ranks below anything drawn from it. */
  lemma LowestAreDrawn(pool: seq<Candidate>, layout: Layout, token: TokenOf, x: Selected, left: Candidate)
    requires layout.Valid() && Fills(pool, layout) && TasksUnique(pool)
    requires x in Selection(pool, layout, token)
    requires left in pool && left.category == x.candidate.category
    requires forall y :: y in Selection(pool, layout, token) ==> y.candidate != left
    ensures Less(RankKey(token)(x.candidate), RankKey(token)(left))
  {
    hide Selection;
    var c := x.candidate.category;
    var q := DrawnRank(pool, layout, token, x);
    RankedMembers(pool, c, token);
    var p :| 0 <= p < |Ranked(pool, c, token)| && Ranked(pool, c, token)[p] == left;
    if p < layout.totals[c] {
      TopIsDrawn(pool, layout, token, c, p);
    } else {
      RankedStrictly(pool, c, token, q, p);
    }
  }

  /** The rank at which a selected candidate was drawn. */
  lemma DrawnRank(pool: seq<Candidate>, layout: Layout, token: TokenOf, x: Selected) returns (q: nat)
    requires layout.Valid() && Fills(pool, layout)
    requires x in Selection(pool, layout, token)
    ensures x.candidate.category in layout.categories && x.split < |layout.quotas|
    ensures layout.Offset(x.split, x.candidate.category) <= q < layout.Offset(x.split + 1, x.candidate.category)
    ensures q < layout.totals[x.candidate.category]
    ensures q < |Ranked(pool, x.candidate.category, token)|
    ensures Ranked(pool, x.candidate.category, token)[q] == x.candidate
    ensures x == Selected(x.candidate, x.split, token(x.candidate.category, x.candidate.task))
  {
    hide Block, Ranked;
    var c := x.candidate.category;
    SelectionMembers(pool, layout, token, |layout.quotas|, x);
    var block := Block(pool, layout, token, x.split, c);
    var i :| 0 <= i < |block| && block[i] == x;
    layout.OffsetGrows(x.split + 1, |layout.quotas|, c);
    q := layout.Offset(x.split, c) + i;
  }

  lemma {:induction false} SplitHolding(layout: Layout, c: int, p: nat, t: nat) returns (s: nat)
    requires layout.Valid() && c in layout.categories && t <= |layout.quotas| && p < layout.Offset(t, c)
    ensures s < t && layout.Offset(s, c) <= p < layout.Offset(s + 1, c)
    decreases t
  {
    if layout.Offset(t - 1, c) <= p {
      s := t - 1;
    } else {
      s := SplitHolding(layout, c, p, t - 1);
    }
  }

  lemma {:induction false} CellMembers(selected: seq<Selected>, s: nat, c: int, x: Selected)
    requires x in Cell(selected, s, c)
    ensures x in selected
    decreases |selected|
  {
    if x in Cell(selected[..|selected| - 1], s, c) {
      CellMembers(selected[..|selected| - 1], s, c, x);
    }
  }

  lemma BlockIsSelected(pool: seq<Candidate>, layout: Layout, token: TokenOf, s: nat, m: nat, x: Selected)
    requires layout.Valid() && Fills(pool, layout) && s < |layout.quotas| && m < |layout.categories|
    requires x in Block(pool, layout, token, s, layout.categories[m])
    ensures x in Selection(pool, layout, token)
  {
    CellOfSelection(pool, layout, token, |layout.quotas|, s, m);
    CellMembers(Selection(pool, layout, token), s, layout.categories[m], x);
  }

  /** Two selections of one task are one and the same. */
  lemma SameTaskSameSelected(pool: seq<Candidate>, layout: Layout, token: TokenOf, x: Selected, y: Selected)
    requires layout.Valid() && Fills(pool, layout) && TasksUnique(pool)
    requires x in Selection(pool, layout, token) && y in Selection(pool, layout, token)
    requires x.candidate.task == y.candidate.task
    ensures x == y
  {
    hide Selection, Ranked;
    DrawnFromPool(pool, layout, token, x);
    DrawnFromPool(pool, layout, token, y);
    SameTaskSameCandidate(pool, x.candidate, y.candidate);
    var i := DrawnRank(pool, layout, token, x);
    var j := DrawnRank(pool, layout, token, y);
    if i < j {
      RankedStrictly(pool, x.candidate.category, token, i, j);
    } else if j < i {
      RankedStrictly(pool, x.candidate.category, token, j, i);
    } else {
      OneSplitPerRank(layout, x.candidate.category, i, x.split, y.split);
    }
  }

  /** Two positions holding the same selection are two positions of its cell. */
  lemma {:induction false} TwiceInCell(selected: seq<Selected>, i: nat, j: nat) returns (a: nat, b: nat)
    requires i < j < |selected| && selected[i] == selected[j]
    ensures var cell := Cell(selected, selected[i].split, selected[i].candidate.category);
            a < b < |cell| && cell[a] == cell[b] == selected[i]
    decreases |selected|
  {
    var x, shorter := selected[i], selected[..|selected| - 1];
    if j < |shorter| {
      a, b := TwiceInCell(shorter, i, j);
    } else {
      a := OnceInCell(shorter, i);
      b := |Cell(shorter, x.split, x.candidate.category)|;
    }
  }

  lemma {:induction false} OnceInCell(selected: seq<Selected>, i: nat) returns (a: nat)
    requires i < |selected|
    ensures var cell := Cell(selected, selected[i].split, selected[i].candidate.category);
            a < |cell| && cell[a] == selected[i]
    decreases |selected|
  {
    var x, shorter := selected[i], selected[..|selected| - 1];
    if i < |shorter| {
      a := OnceInCell(shorter, i);
    } else {
      a := |Cell(shorter, x.split, x.candidate.category)|;
    }
  }

  /** No task stands at two positions of the selection, in one split or in two. */
  lemma NoTaskTwice(pool: seq<Candidate>, layout: Layout, token: TokenOf, i: nat, j: nat)
    requires layout.Valid() && Fills(pool, layout) && TasksUnique(pool)
    requires i < j < |Selection(pool, layout, token)|
    ensures Selection(pool, layout, token)[i].candidate.task != Selection(pool, layout, token)[j].candidate.task
  {
    hide Selection, Ranked, Cell, Fills, TasksUnique;
    var selected := Selection(pool, layout, token);
    var x, y := selected[i], selected[j];
    if x.candidate.task == y.candidate.task {
      SameTaskSameSelected(pool, layout, token, x, y);
      var a, b := TwiceInCell(selected, i, j);
      var q := DrawnRank(pool, layout, token, x);
      QuotasFilledExactly(pool, layout, token, x.split, x.candidate.category);
      var start := layout.Offset(x.split, x.candidate.category);
      RankedStrictly(pool, x.candidate.category, token, start + a, start + b);
      assert false;
    }
  }

  lemma SameTaskSameCandidate(pool: seq<Candidate>, a: Candidate, b: Candidate)
    requires TasksUnique(pool) && a in pool && b in pool && a.task == b.task
    ensures a == b
  {
  }

  /** Split intervals do not overlap. */
  lemma OneSplitPerRank(layout: Layout, c: int, q: nat, s: nat, t: nat)
    requires s < |layout.quotas| && t < |layout.quotas|
    requires layout.Offset(s, c) <= q < layout.Offset(s + 1, c)
    requires layout.Offset(t, c) <= q < layout.Offset(t + 1, c)
    ensures s == t
  {
    if s < t {
      layout.OffsetGrows(s + 1, t, c);
    } else if t < s {
      layout.OffsetGrows(t + 1, s, c);
    }
  }

  lemma DrawnFromPool(pool: seq<Candidate>, layout: Layout, token: TokenOf, x: Selected)
    requires layout.Valid() && Fills(pool, layout)
    requires x in Selection(pool, layout, token)
    ensures x.candidate in pool && x.token == token(x.candidate.category, x.candidate.task)
  {
    var q := DrawnRank(pool, layout, token, x);
    RankedMembers(pool, x.candidate.category, token);
    assert Ranked(pool, x.candidate.category, token)[q] in Ranked(pool, x.candidate.category, token);
  }

  lemma {:induction false} CategoryCounts(pool: seq<Candidate>, c: int, x: Candidate)
    ensures multiset(InCategory(pool, c))[x] == if x.category == c then multiset(pool)[x] else 0
    decreases |pool|
  {
    if pool != [] {
      assert pool == pool[..|pool| - 1] + [pool[|pool| - 1]];
      CategoryCounts(pool[..|pool| - 1], c, x);
    }
  }

  lemma RankingForgetsOrder(pool: seq<Candidate>, shuffled: seq<Candidate>, c: int, token: TokenOf)
    requires TasksUnique(pool) && multiset(pool) == multiset(shuffled)
    ensures Ranked(pool, c, token) == Ranked(shuffled, c, token)
    ensures |InCategory(pool, c)| == |InCategory(shuffled, c)|
  {
    var a, b := InCategory(pool, c), InCategory(shuffled, c);
    assert multiset(a) == multiset(b) by {
      forall x ensures multiset(a)[x] == multiset(b)[x] {
        CategoryCounts(pool, c, x);
        CategoryCounts(shuffled, c, x);
      }
    }
    CategoryTasksUnique(pool, c);
    forall x, y | x in multiset(a) && y in multiset(a) && RankKey(token)(x) == RankKey(token)(y)
      ensures x == y
    {
      assert x in a && y in a;
    }
    SortForgetsOrder(a, b, RankKey(token));
    assert |multiset(a)| == |multiset(b)|;
  }

  lemma {:induction false} SplitForgetsOrder(
    pool: seq<Candidate>, shuffled: seq<Candidate>, layout: Layout, token: TokenOf, s: nat, k: nat)
    requires layout.Valid() && Fills(pool, layout) && Fills(shuffled, layout)
    requires TasksUnique(pool) && multiset(pool) == multiset(shuffled)
    requires s < |layout.quotas| && k <= |layout.categories|
    ensures SplitUpTo(pool, layout, token, s, k) == SplitUpTo(shuffled, layout, token, s, k)
    decreases k
  {
    hide Block, InCategory, Ranked, Fills, TasksUnique;
    if k > 0 {
      SplitForgetsOrder(pool, shuffled, layout, token, s, k - 1);
      BlockForgetsOrder(pool, shuffled, layout, token, s, layout.categories[k - 1]);
    }
  }

  lemma BlockForgetsOrder(
    pool: seq<Candidate>, shuffled: seq<Candidate>, layout: Layout, token: TokenOf, s: nat, c: int)
    requires layout.Valid() && Fills(pool, layout) && Fills(shuffled, layout)
    requires TasksUnique(pool) && multiset(pool) == multiset(shuffled)
    requires s < |layout.quotas| && c in layout.categories
    ensures Block(pool, layout, token, s, c) == Block(shuffled, layout, token, s, c)
  {
    hide TasksUnique;
    RankingForgetsOrder(pool, shuffled, c, token);
  }

  lemma {:induction false} UpToForgetsOrder(
    pool: seq<Candidate>, shuffled: seq<Candidate>, layout: Layout, token: TokenOf, s: nat)
    requires layout.Valid() && Fills(pool, layout) && Fills(shuffled, layout)
    requires TasksUnique(pool) && multiset(pool) == multiset(shuffled) && s <= |layout.quotas|
    ensures SelectionUpTo(pool, layout, token, s) == SelectionUpTo(shuffled, layout, token, s)
    decreases s
  {
    if s > 0 {
      UpToForgetsOrder(pool, shuffled, layout, token, s - 1);
      SplitForgetsOrder(pool, shuffled, layout, token, s - 1, |layout.categories|);
    }
  }

  /** The selection does not depend on the order in which the pool was supplied. */
  lemma SelectionForgetsOrder(pool: seq<Candidate>, shuffled: seq<Candidate>, layout: Layout, token: TokenOf)
    requires layout.Valid() && TasksUnique(pool) && multiset(pool) == multiset(shuffled)
    ensures Fills(pool, layout) <==> Fills(shuffled, layout)
    ensures Fills(pool, layout) ==> Selection(pool, layout, token) == Selection(shuffled, layout, token)
  {
    forall c | c in layout.categories
      ensures |InCategory(pool, c)| == |InCategory(shuffled, c)|
    {
      RankingForgetsOrder(pool, shuffled, c, token);
    }
    if Fills(pool, layout) {
      UpToForgetsOrder(pool, shuffled, layout, token, |layout.quotas|);
    }
  }

  // ---------------------------------------------------------------- the frozen table

  /** Categories 0..3 stand for simple_python, multiple, parallel, parallel_multiple; splits for FIT, GATE, HOLDOUT. */
  const FROZEN_LAYOUT: Layout := Layout(
    [0, 1, 2, 3],
    map[0 := 7, 1 := 6, 2 := 6, 3 := 6],
    [map[0 := 2, 1 := 1, 2 := 1, 3 := 1], map[0 := 1, 1 := 1, 2 := 1, 3 := 1], map[0 := 4, 1 := 4, 2 := 4, 3 := 4]])

  /** The registered quotas add up to the registered category totals. */
  lemma FrozenLayoutValid()
    ensures FROZEN_LAYOUT.Valid()
  {
    var layout := FROZEN_LAYOUT;
    forall c | c in layout.categories
      ensures layout.Offset(3, c) == layout.totals[c]
    {
      FrozenOffset(c);
    }
  }

  lemma FrozenOffset(c: int)
    requires 0 <= c < 4
    ensures var q := FROZEN_LAYOUT.quotas; FROZEN_LAYOUT.Offset(3, c) == q[0][c] + q[1][c] + q[2][c]
  {
    assert FROZEN_LAYOUT.Offset(1, c) == FROZEN_LAYOUT.quotas[0][c];
    assert FROZEN_LAYOUT.Offset(2, c) == FROZEN_LAYOUT.quotas[0][c] + FROZEN_LAYOUT.quotas[1][c];
  }

  /** Every selection by the registered quotas lists 5 FIT tasks, then 4 GATE tasks, then 16 HOLDOUT tasks. */
  lemma FrozenSelection(pool: seq<Candidate>, token: TokenOf, i: nat)
    requires FROZEN_LAYOUT.Valid() && Fills(pool, FROZEN_LAYOUT)
    ensures |Selection(pool, FROZEN_LAYOUT, token)| == 25
    ensures i < 25 ==> Selection(pool, FROZEN_LAYOUT, token)[i].split == if i < 5 then 0 else if i < 9 then 1 else 2
  {
    hide Fills, Block;
    FrozenSplit(pool, token, 0);
    FrozenSplit(pool, token, 1);
    FrozenSplit(pool, token, 2);
    var parts := (s: nat) requires s < 3 => SplitUpTo(pool, FROZEN_LAYOUT, token, s, 4);
    assert SelectionUpTo(pool, FROZEN_LAYOUT, token, 1) == parts(0);
    assert SelectionUpTo(pool, FROZEN_LAYOUT, token, 2) == parts(0) + parts(1);
    assert Selection(pool, FROZEN_LAYOUT, token) == parts(0) + parts(1) + parts(2);
  }

  lemma FrozenSplit(pool: seq<Candidate>, token: TokenOf, s: nat)
    requires FROZEN_LAYOUT.Valid() && Fills(pool, FROZEN_LAYOUT) && s < 3
    ensures |SplitUpTo(pool, FROZEN_LAYOUT, token, s, 4)| == if s == 0 then 5 else if s == 1 then 4 else 16
    ensures forall x :: x in SplitUpTo(pool, FROZEN_LAYOUT, token, s, 4) ==> x.split == s
  {
    hide Fills, Block;
    var layout := FROZEN_LAYOUT;
    assert |SplitUpTo(pool, layout, token, s, 1)| == layout.quotas[s][0];
    assert |SplitUpTo(pool, layout, token, s, 2)| == layout.quotas[s][0] + layout.quotas[s][1];
    assert |SplitUpTo(pool, layout, token, s, 3)| == layout.quotas[s][0] + layout.quotas[s][1] + layout.quotas[s][2];
    forall x | x in SplitUpTo(pool, layout, token, s, 4)
      ensures x.split == s
    {
      SplitMembers(pool, layout, token, s, 4, x);
    }
  }
}
