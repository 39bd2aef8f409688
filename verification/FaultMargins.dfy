/**
 The exact margins of every generated partition, and its acceptance by the validator.
 Counts over a partition reduce to a table of families and roles.
 */
module FaultMargins {
  import opened Prelude
  import opened RowMajor
  import opened Sorting
  import opened Texts
  import opened FaultContracts
  import opened FaultPartition

  // ---------------------------------------------------------------- one cell

  function OracleOf(f: Family, role: Role): Option<Branch> {
    if role == UnrepairableControl then None else Some(BranchForRule(RoutedPolicy, f, ContextFor(f, role)))
  }

  /** A scenario is answered correctly by exactly its oracle branch, and by none if it is unrepairable. */
  lemma CorrectExactly(s: Secrets, partition: int, f: Family, g: nat, role: Role, branch: Branch)
    ensures BranchCorrect(ScenarioOf(s, partition, f, g, role), branch) <==> OracleOf(f, role) == Some(branch)
  {
    hide Primary, Secondary, TagOf, Casefold, Strip;
  }

  /** The questions whose answer depends on family and role alone. */
  predicate ByCell(q: Question) {
    !q.ExactOutput? && !q.GroupMember?
  }

  predicate CellHolds(q: Question, f: Family, role: Role) {
    var oracle := OracleOf(f, role);
    match q
    case OracleCorrect => oracle.Some?
    case ConstantBranch(branch) => oracle == Some(branch)
    case FamilyPatch(family) => oracle.Some? && (f == family || oracle.value == Legacy)
    case Answered(answer) => answer == if oracle.Some? then AnswerFor(f, oracle.value) else Different
    case _ => false
  }

  lemma AnswerOfCell(s: Secrets, partition: int, f: Family, g: nat, role: Role)
    ensures var item := ScenarioOf(s, partition, f, g, role);
            && item.oracle == OracleOf(f, role) && item.family == f && item.context == ContextFor(f, role)
            && item.answer
               == if role == UnrepairableControl then Different else AnswerFor(f, OracleOf(f, role).value)
  {
    hide BranchForRule, AnswerFor, Primary, Secondary, TagOf, ContextFor;
  }

  lemma HoldsByCell(s: Secrets, partition: int, f: Family, g: nat, role: Role, q: Question)
    requires ByCell(q)
    ensures Holds(q, ScenarioOf(s, partition, f, g, role)) <==> CellHolds(q, f, role)
  {
    hide BranchCorrect, ScenarioOf, AnswerFor, ContextFor, BranchForRule;
    forall branch
      ensures BranchCorrect(ScenarioOf(s, partition, f, g, role), branch) <==> OracleOf(f, role) == Some(branch)
    {
      CorrectExactly(s, partition, f, g, role, branch);
    }
    AnswerOfCell(s, partition, f, g, role);
  }

  // ---------------------------------------------------------------- counting cells

  predicate CellOf(v: Coord, q: Question) {
    |v| == 3 && v[0] < |FAMILIES| && v[2] < |ROLES| && CellHolds(q, FAMILIES[v[0]], ROLES[v[2]])
  }

  function CellCount(coords: seq<Coord>, q: Question): nat {
    if coords == [] then 0
    else CellCount(coords[..|coords| - 1], q) + if CellOf(coords[|coords| - 1], q) then 1 else 0
  }

  lemma NoCells(q: Question)
    ensures CellCount([], q) == 0
  {
  }

  lemma {:induction false} CountByCells(s: Secrets, partition: int, coords: seq<Coord>, q: Question)
    requires AllCells(coords) && ByCell(q)
    ensures Count(ScenariosAt(s, partition, coords), q) == CellCount(coords, q)
    decreases |coords|
  {
    hide Holds, CellHolds, ScenarioOf;
    if coords != [] {
      var shorter, last := coords[..|coords| - 1], coords[|coords| - 1];
      assert last in coords && forall v :: v in shorter ==> v in coords;
      CountByCells(s, partition, shorter, q);
      HoldsByCell(s, partition, FAMILIES[last[0]], last[1], ROLES[last[2]], q);
      var items := ScenariosAt(s, partition, coords);
      assert items[..|items| - 1] == ScenariosAt(s, partition, shorter);
    }
  }

  lemma {:induction false} CellCountJoin(a: seq<Coord>, b: seq<Coord>, q: Question)
    ensures CellCount(a + b, q) == CellCount(a, q) + CellCount(b, q)
    decreases |b|
  {
    hide CellOf;
    if b == [] {
      assert a + b == a;
    } else {
      var shorter := b[..|b| - 1];
      CellCountJoin(a, shorter, q);
      assert (a + b)[..|a + b| - 1] == a + shorter;
    }
  }

  function One(b: bool): nat {
    if b then 1 else 0
  }

  /** One group's share: its four roles. */
  function GroupShare(q: Question, f: Family): nat
  {
    One(CellHolds(q, f, RepairableTarget)) + One(CellHolds(q, f, NullControl))
    + One(CellHolds(q, f, UnrepairableControl)) + One(CellHolds(q, f, DistractorShiftHardNegative))
  }

  lemma GroupCells(f: nat, g: nat, q: Question)
    requires f < |FAMILIES|
    ensures Prepend(f, Prepend(g, Product([|ROLES|]))) == [[f, g, 0], [f, g, 1], [f, g, 2], [f, g, 3]]
    ensures CellCount(Prepend(f, Prepend(g, Product([|ROLES|]))), q) == GroupShare(q, FAMILIES[f])
  {
    RoleCoords();
    var cells: seq<Coord> := [[f, g, 0], [f, g, 1], [f, g, 2], [f, g, 3]];
    var grouped := Prepend(f, Prepend(g, Product([|ROLES|])));
    assert forall i :: 0 <= i < 4 ==> grouped[i] == [f] + ([g] + [i]);
    assert forall i :: 0 <= i < 4 ==> [f] + ([g] + [i]) == [f, g, i];
    assert grouped == cells;
    FourCells(f, g, q);
  }

  lemma RoleCoords()
    ensures Product([|ROLES|]) == [[0], [1], [2], [3]]
  {
    assert Product([|ROLES|]) == Rows([4], 4);
    assert Rows([4], 0) == [];
    hide Product, Rows;
    SingleRow([4], 3);
    SingleRow([4], 2);
    SingleRow([4], 1);
    SingleRow([4], 0);
  }

  lemma FourCells(f: nat, g: nat, q: Question)
    requires f < |FAMILIES|
    ensures CellCount([[f, g, 0], [f, g, 1], [f, g, 2], [f, g, 3]], q) == GroupShare(q, FAMILIES[f])
  {
    hide CellHolds;
    var c0, c1, c2, c3: Coord := [f, g, 0], [f, g, 1], [f, g, 2], [f, g, 3];
    OneCell(f, g, 0, q);
    OneCell(f, g, 1, q);
    OneCell(f, g, 2, q);
    OneCell(f, g, 3, q);
    CellCountJoin([c0], [c1], q);
    CellCountJoin([c0] + [c1], [c2], q);
    CellCountJoin([c0] + [c1] + [c2], [c3], q);
    assert [c0] + [c1] + [c2] + [c3] == [c0, c1, c2, c3];
  }

  lemma OneCell(f: nat, g: nat, r: nat, q: Question)
    requires f < |FAMILIES| && r < |ROLES|
    ensures CellCount([[f, g, r]], q) == One(CellHolds(q, FAMILIES[f], ROLES[r]))
  {
    hide CellHolds;
    assert [[f, g, r]][..0] == [];
  }

  function Share(q: Question, f: Family, groups: nat): nat
  {
    Times(groups, GroupShare(q, f))
  }

  function Times(a: nat, b: nat): nat {
    a * b
  }

  lemma ShareStep(q: Question, f: Family, groups: nat)
    ensures Share(q, f, groups + 1) == Share(q, f, groups) + GroupShare(q, f) && Share(q, f, 0) == 0
  {
    hide GroupShare;
  }

  lemma GroupRows(k: nat, groups: nat)
    ensures Rows([k, |ROLES|], groups + 1) == Rows([k, |ROLES|], groups) + Prepend(groups, Product([|ROLES|]))
    ensures Rows([k, |ROLES|], 0) == []
  {
    hide Product;
    assert [k, |ROLES|][1..] == [|ROLES|];
  }

  lemma FamilyRows(k: nat, families: nat)
    ensures Rows(Sizes(k), families + 1) == Rows(Sizes(k), families) + Prepend(families, Product([k, |ROLES|]))
    ensures Rows(Sizes(k), 0) == []
    ensures Product(Sizes(k)) == Rows(Sizes(k), |FAMILIES|)
    ensures Product([k, |ROLES|]) == Rows([k, |ROLES|], k)
  {
    assert Sizes(k)[1..] == [k, |ROLES|];
  }

  lemma PrependJoin(x: nat, a: seq<Coord>, b: seq<Coord>)
    ensures Prepend(x, a + b) == Prepend(x, a) + Prepend(x, b)
  {
  }

  /** The cells of one family's first groups. */
  function FamilyCells(f: nat, k: nat, groups: nat): seq<Coord> {
    Prepend(f, Rows([k, |ROLES|], groups))
  }

  lemma OneMoreGroup(f: nat, k: nat, groups: nat, q: Question)
    requires f < |FAMILIES|
    ensures CellCount(FamilyCells(f, k, groups + 1), q)
         == CellCount(FamilyCells(f, k, groups), q) + GroupShare(q, FAMILIES[f])
    ensures FamilyCells(f, k, 0) == []
  {
    hide CellCount, GroupShare, Rows, Product;
    GroupRows(k, groups);
    var before, last := Rows([k, |ROLES|], groups), Prepend(groups, Product([|ROLES|]));
    PrependJoin(f, before, last);
    GroupCells(f, groups, q);
    CellCountJoin(Prepend(f, before), Prepend(f, last), q);
  }

  lemma {:induction false} CountGroups(f: nat, k: nat, groups: nat, q: Question)
    requires f < |FAMILIES|
    ensures CellCount(FamilyCells(f, k, groups), q) == Share(q, FAMILIES[f], groups)
    decreases groups
  {
    hide *;
    if groups == 0 {
      ShareStep(q, FAMILIES[f], 0);
      OneMoreGroup(f, k, 0, q);
      NoCells(q);
    } else {
      ShareStep(q, FAMILIES[f], groups - 1);
      CountGroups(f, k, groups - 1, q);
      OneMoreGroup(f, k, groups - 1, q);
    }
  }

  /** The shares of the first families together. */
  function Shares(q: Question, families: nat, k: nat): nat
    requires families <= |FAMILIES|
  {
    if families == 0 then 0 else Shares(q, families - 1, k) + Share(q, FAMILIES[families - 1], k)
  }

  lemma {:induction false} CountFamilies(k: nat, families: nat, q: Question)
    requires families <= |FAMILIES|
    ensures CellCount(Rows(Sizes(k), families), q) == Shares(q, families, k)
    decreases families
  {
    hide CellCount, Share, Rows, Product;
    if families == 0 {
      FamilyRows(k, 0);
      NoCells(q);
    } else {
      CountFamilies(k, families - 1, q);
      FamilyRows(k, families - 1);
      CountGroups(families - 1, k, k, q);
      var before, last := Rows(Sizes(k), families - 1), Prepend(families - 1, Product([k, |ROLES|]));
      CellCountJoin(before, last, q);
    }
  }

  lemma GeneratedCount(s: Secrets, partition: int, k: nat, q: Question)
    requires ByCell(q)
    ensures Count(Generated(s, partition, k), q) == Shares(q, |FAMILIES|, k)
  {
    hide CellCount, Rows, Product, Sizes, Count, Shares;
    CellsAreValid(k);
    CountByCells(s, partition, Product(Sizes(k)), q);
    FamilyRows(k, 0);
    CountFamilies(k, |FAMILIES|, q);
  }

  // ---------------------------------------------------------------- the exact totals

  /** One group's worth of answers, over all families. */
  function Total(q: Question): nat {
    GroupShare(q, FAMILIES[0]) + GroupShare(q, FAMILIES[1]) + GroupShare(q, FAMILIES[2]) + GroupShare(q, FAMILIES[3])
    + GroupShare(q, FAMILIES[4]) + GroupShare(q, FAMILIES[5]) + GroupShare(q, FAMILIES[6])
  }

  function GroupSum(q: Question, families: nat): nat
    requires families <= |FAMILIES|
  {
    if families == 0 then 0 else GroupSum(q, families - 1) + GroupShare(q, FAMILIES[families - 1])
  }

  lemma Distribute(k: nat, a: nat, b: nat)
    ensures k * a + Times(k, b) == k * (a + b)
  {
  }

  lemma {:induction false} SharesTimes(q: Question, families: nat, k: nat)
    requires families <= |FAMILIES|
    ensures Shares(q, families, k) == k * GroupSum(q, families)
    decreases families
  {
    hide GroupShare, Times;
    if families > 0 {
      SharesTimes(q, families - 1, k);
      Distribute(k, GroupSum(q, families - 1), GroupShare(q, FAMILIES[families - 1]));
    }
  }

  lemma GroupSumIsTotal(q: Question)
    ensures GroupSum(q, |FAMILIES|) == Total(q)
  {
    hide GroupShare;
    assert GroupSum(q, 1) == GroupShare(q, FAMILIES[0]);
    assert GroupSum(q, 2) == GroupShare(q, FAMILIES[0]) + GroupShare(q, FAMILIES[1]);
    assert GroupSum(q, 3) == GroupSum(q, 2) + GroupShare(q, FAMILIES[2]);
    assert GroupSum(q, 4) == GroupSum(q, 2) + GroupShare(q, FAMILIES[2]) + GroupShare(q, FAMILIES[3]);
    assert GroupSum(q, 5) == GroupSum(q, 4) + GroupShare(q, FAMILIES[4]);
    assert GroupSum(q, 6) == GroupSum(q, 4) + GroupShare(q, FAMILIES[4]) + GroupShare(q, FAMILIES[5]);
  }

  lemma SharesSum(q: Question, k: nat)
    ensures Shares(q, |FAMILIES|, k) == k * Total(q)
  {
    hide Total;
    SharesTimes(q, |FAMILIES|, k);
    GroupSumIsTotal(q);
  }

  lemma OracleTable(f: Family)
    ensures OracleOf(f, RepairableTarget) == Some(Safe)
    ensures OracleOf(f, NullControl) == Some(Legacy)
    ensures OracleOf(f, UnrepairableControl) == None
    ensures OracleOf(f, DistractorShiftHardNegative) == Some(if Even(f) then Safe else Legacy)
  {
  }

  /** A family's group: three repairable cells; the safe branch fixes one or two of them. */
  lemma GroupShares(f: Family)
    ensures GroupShare(OracleCorrect, f) == 3
    ensures GroupShare(ConstantBranch(Safe), f) == if Even(f) then 2 else 1
    ensures GroupShare(ConstantBranch(Legacy), f) == if Even(f) then 1 else 2
    ensures GroupShare(Answered(Match), f) == 2 == GroupShare(Answered(Different), f)
  {
    hide CellHolds, Even;
    CellTable(OracleCorrect, f);
    CellTable(ConstantBranch(Safe), f);
    CellTable(ConstantBranch(Legacy), f);
    CellTable(Answered(Match), f);
    CellTable(Answered(Different), f);
  }

  lemma CellTable(q: Question, f: Family)
    ensures CellHolds(q, f, RepairableTarget)
       <==> q == OracleCorrect || q == ConstantBranch(Safe) || (q.FamilyPatch? && q.family == f)
            || q == Answered(if Even(f) then Match else Different)
    ensures CellHolds(q, f, NullControl)
       <==> q == OracleCorrect || q == ConstantBranch(Legacy) || q.FamilyPatch?
            || q == Answered(if Even(f) then Different else Match)
    ensures CellHolds(q, f, UnrepairableControl) <==> q == Answered(Different)
    ensures CellHolds(q, f, DistractorShiftHardNegative)
       <==> q == OracleCorrect || q == ConstantBranch(if Even(f) then Safe else Legacy)
            || (q.FamilyPatch? && (q.family == f || !Even(f))) || q == Answered(Match)
  {
    hide OracleOf, Index;
    OracleTable(f);
  }

  /** Patching one family repairs its whole group and leaves the other groups on the legacy branch. */
  lemma PatchShare(f: Family, other: Family)
    ensures GroupShare(FamilyPatch(other), f) == if f == other then 3 else if Even(f) then 1 else 2
  {
    hide CellHolds, Even;
    CellTable(FamilyPatch(other), f);
  }

  /** With k groups per family: 28k scenarios, 21k for the oracle, 11k and 10k for the constant branches. */
  lemma GeneratedCounts(s: Secrets, partition: int, k: nat)
    ensures |Generated(s, partition, k)| == 28 * k
    ensures Count(Generated(s, partition, k), OracleCorrect) == 21 * k
    ensures Count(Generated(s, partition, k), ConstantBranch(Safe)) == 11 * k
    ensures Count(Generated(s, partition, k), ConstantBranch(Legacy)) == 10 * k
    ensures Count(Generated(s, partition, k), Answered(Match)) == 14 * k
    ensures Count(Generated(s, partition, k), Answered(Different)) == 14 * k
    ensures forall f :: Count(Generated(s, partition, k), FamilyPatch(f)) == (if Even(f) then 12 else 11) * k
  {
    hide Count, GroupShare, Shares, Generated;
    OtherTotals();
    CountOne(s, partition, k, OracleCorrect, 21);
    CountOne(s, partition, k, ConstantBranch(Safe), 11);
    CountOne(s, partition, k, ConstantBranch(Legacy), 10);
    CountOne(s, partition, k, Answered(Match), 14);
    CountOne(s, partition, k, Answered(Different), 14);
    GeneratedSize(s, partition, k);
    forall f
      ensures Count(Generated(s, partition, k), FamilyPatch(f)) == (if Even(f) then 12 else 11) * k
    {
      PatchTotal(f);
      CountOne(s, partition, k, FamilyPatch(f), if Even(f) then 12 else 11);
    }
  }

  lemma PatchTotal(f: Family)
    ensures Total(FamilyPatch(f)) == if Even(f) then 12 else 11
  {
    hide GroupShare;
    PatchShare(FAMILIES[0], f);
    PatchShare(FAMILIES[1], f);
    PatchShare(FAMILIES[2], f);
    PatchShare(FAMILIES[3], f);
    PatchShare(FAMILIES[4], f);
    PatchShare(FAMILIES[5], f);
    PatchShare(FAMILIES[6], f);
  }

  lemma OtherTotals()
    ensures Total(OracleCorrect) == 21
    ensures Total(ConstantBranch(Safe)) == 11 && Total(ConstantBranch(Legacy)) == 10
    ensures Total(Answered(Match)) == 14 == Total(Answered(Different))
  {
    hide GroupShare;
    GroupShares(FAMILIES[0]);
    GroupShares(FAMILIES[1]);
    GroupShares(FAMILIES[2]);
    GroupShares(FAMILIES[3]);
    GroupShares(FAMILIES[4]);
    GroupShares(FAMILIES[5]);
    GroupShares(FAMILIES[6]);
  }

  lemma CountOne(s: Secrets, partition: int, k: nat, q: Question, total: nat)
    requires ByCell(q) && total == Total(q)
    ensures Count(Generated(s, partition, k), q) == total * k
  {
    hide Count, GroupShare, Generated, Shares;
    GeneratedCount(s, partition, k, q);
    SharesSum(q, k);
  }

  lemma GeneratedSize(s: Secrets, partition: int, k: nat)
    ensures |Generated(s, partition, k)| == 28 * k
  {
    hide Product, Volume;
    ProductCount(Sizes(k));
    SizesVolume(k);
  }

  lemma SizesVolume(k: nat)
    ensures Volume(Sizes(k)) == 28 * k
  {
    assert Sizes(k)[1..] == [k, |ROLES|] && [k, |ROLES|][1..] == [|ROLES|] && [|ROLES|][1..] == [];
    assert Volume([|ROLES|]) == 4;
    assert Volume([k, |ROLES|]) == k * 4;
  }

  // ---------------------------------------------------------------- uniqueness

  lemma {:induction false} AtMostOne(items: seq<Scenario>, q: Question)
    requires forall i, j :: 0 <= i < j < |items| ==> !(Holds(q, items[i]) && Holds(q, items[j]))
    ensures Count(items, q) <= 1
    decreases |items|
  {
    hide Holds;
    if items != [] {
      AtMostOne(items[..|items| - 1], q);
      if Holds(q, items[|items| - 1]) {
        NoneHold(items[..|items| - 1], q);
      }
    }
  }

  lemma {:induction false} NoneHold(items: seq<Scenario>, q: Question)
    requires forall i :: 0 <= i < |items| ==> !Holds(q, items[i])
    ensures Count(items, q) == 0
    decreases |items|
  {
    hide Holds;
    if items != [] {
      NoneHold(items[..|items| - 1], q);
    }
  }

  lemma {:induction false} AtLeastOne(items: seq<Scenario>, q: Question, i: nat)
    requires i < |items| && Holds(q, items[i])
    ensures Count(items, q) >= 1
    decreases |items|
  {
    hide Holds;
    if i < |items| - 1 {
      AtLeastOne(items[..|items| - 1], q, i);
    }
  }

  lemma SameFamilyBranch(f: Family, f': Family, branch: Branch, branch': Branch, p: string, q: string, p': string, q': string)
    requires EvaluateBranch(f, branch, p, q) == EvaluateBranch(f', branch', p', q')
    ensures f == f' && branch == branch'
  {
  }

  /** The gold output tells a scenario's family, group and role. */
  lemma GoldInjective(s: Secrets, partition: int, k: nat, f: Family, g: nat, r: Role, f': Family, g': nat, r': Role)
    requires NoCollisions(s, k) && g < k && g' < k
    requires Gold(ScenarioOf(s, partition, f, g, r)) == Gold(ScenarioOf(s, partition, f', g', r'))
    ensures f == f' && g == g' && r == r'
  {
    hide EvaluateBranch, BranchForRule, Primary, Secondary, LowerText, TagOf, RoleText, ContextFor, StemOf;
    var tag, tag' := TagOf(r, s.Stem(f, g)), TagOf(r', s.Stem(f', g'));
    if r == UnrepairableControl || r' == UnrepairableControl {
      GoldLabels(s, partition, f, g, r);
      GoldLabels(s, partition, f', g', r');
      Cancel("defer:", s.suffix(f, g, r), s.suffix(f', g', r'), "");
      assert SameSuffix(s, f, g, f', g');
    } else {
      var b, b' := OracleOf(f, r).value, OracleOf(f', r').value;
      SameFamilyBranch(f, f', b, b', Primary(f, tag), Secondary(f, tag), Primary(f', tag'), Secondary(f', tag'));
      StemIsLower(f, g, s.salted(f, g));
      StemIsLower(f', g', s.salted(f', g'));
      TagIsLower(r, s.Stem(f, g));
      TagIsLower(r', s.Stem(f', g'));
      ObservableInjective(f, b, tag, tag');
      TagInjective(r, r', s.Stem(f, g), s.Stem(f', g'));
      StemInjective(f, g, s.salted(f, g), g', s.salted(f', g'));
    }
  }

  lemma GoldLabels(s: Secrets, partition: int, f: Family, g: nat, r: Role)
    ensures Gold(ScenarioOf(s, partition, f, g, r)).1.name == Resolution <==> r == UnrepairableControl
    ensures r == UnrepairableControl ==>
              Gold(ScenarioOf(s, partition, f, g, r)).1.value == "defer:" + s.suffix(f, g, r)
  {
    hide Primary, Secondary, TagOf, Casefold, Strip, ContextFor, BranchForRule;
  }

  /** Different cells are different scenarios. */
  lemma CellsDiffer(v: Coord, w: Coord, k: nat)
    requires Within(v, Sizes(k)) && Within(w, Sizes(k)) && v != w
    ensures FAMILIES[v[0]] != FAMILIES[w[0]] || v[1] != w[1] || ROLES[v[2]] != ROLES[w[2]]
  {
    assert v == [v[0], v[1], v[2]] && w == [w[0], w[1], w[2]];
    assert v[0] != w[0] || v[1] != w[1] || v[2] != w[2];
  }

  lemma GeneratedCell(s: Secrets, partition: int, k: nat, i: nat) returns (v: Coord)
    requires i < |Generated(s, partition, k)|
    ensures Within(v, Sizes(k)) && v == Product(Sizes(k))[i] && |Product(Sizes(k))| == |Generated(s, partition, k)|
    ensures Generated(s, partition, k)[i] == ScenarioOf(s, partition, FAMILIES[v[0]], v[1], ROLES[v[2]])
  {
    CellsAreValid(k);
    v := Product(Sizes(k))[i];
    assert v in Product(Sizes(k));
    ProductMembers(Sizes(k), v);
  }

  lemma CellIndex(s: Secrets, partition: int, k: nat, f: Family, g: nat, role: nat) returns (i: nat)
    requires g < k && role < |ROLES|
    ensures i < |Generated(s, partition, k)| == |Product(Sizes(k))|
    ensures Product(Sizes(k))[i] == [Index(f), g, role]
    ensures Generated(s, partition, k)[i] == ScenarioOf(s, partition, f, g, ROLES[role])
  {
    CellsAreValid(k);
    var v: Coord := [Index(f), g, role];
    ProductMembers(Sizes(k), v);
    i :| i < |Product(Sizes(k))| && Product(Sizes(k))[i] == v;
  }

  /** A question that holds of at most one cell is counted at most once. */
  lemma CountsOnce(s: Secrets, partition: int, k: nat, q: Question)
    requires forall f, g: nat, r, f', g': nat, r' ::
               (g < k && g' < k && Holds(q, ScenarioOf(s, partition, f, g, r))
                && Holds(q, ScenarioOf(s, partition, f', g', r'))) ==> f == f' && g == g' && r == r'
    ensures Count(Generated(s, partition, k), q) <= 1
  {
    hide Holds, ScenarioOf, Generated;
    var items := Generated(s, partition, k);
    ProductDistinct(Sizes(k));
    forall i, j | 0 <= i < j < |items|
      ensures !(Holds(q, items[i]) && Holds(q, items[j]))
    {
      var v := GeneratedCell(s, partition, k, i);
      var w := GeneratedCell(s, partition, k, j);
      CellsDiffer(v, w, k);
    }
    AtMostOne(items, q);
  }

  lemma GoldOnce(s: Secrets, partition: int, k: nat, output: (Answer, Observable))
    requires NoCollisions(s, k)
    ensures Count(Generated(s, partition, k), ExactOutput(output)) <= 1
  {
    hide ScenarioOf, NoCollisions, Generated, Count;
    var q := ExactOutput(output);
    forall f, g: nat, r, f', g': nat, r' |
      g < k && g' < k && Holds(q, ScenarioOf(s, partition, f, g, r)) && Holds(q, ScenarioOf(s, partition, f', g', r'))
      ensures f == f' && g == g' && r == r'
    {
      GoldInjective(s, partition, k, f, g, r, f', g', r');
    }
    CountsOnce(s, partition, k, q);
  }

  lemma GroupsDiffer(s: Secrets, k: nat, f: Family, g: nat, h: nat)
    requires NoCollisions(s, k) && g < k && h < k
    ensures s.group(f, g) == s.group(f, h) ==> g == h
  {
  }

  lemma MembersOnce(s: Secrets, partition: int, k: nat, f: Family, g: nat, role: nat)
    requires NoCollisions(s, k) && g < k && role < |ROLES|
    ensures Count(Generated(s, partition, k), GroupMember((f, s.group(f, g)), ROLES[role])) == 1
  {
    hide Generated, Count, ScenarioOf, NoCollisions;
    var q := GroupMember((f, s.group(f, g)), ROLES[role]);
    forall e, h: nat, r, e', h': nat, r' |
      h < k && h' < k && Holds(q, ScenarioOf(s, partition, e, h, r)) && Holds(q, ScenarioOf(s, partition, e', h', r'))
      ensures e == e' && h == h' && r == r'
    {
      ScenarioFields(s, partition, e, h, r);
      ScenarioFields(s, partition, e', h', r');
      GroupsDiffer(s, k, e, h, h');
    }
    CountsOnce(s, partition, k, q);
    var i := CellIndex(s, partition, k, f, g, role);
    ScenarioFields(s, partition, f, g, ROLES[role]);
    AtLeastOne(Generated(s, partition, k), q, i);
  }

  // ---------------------------------------------------------------- task order does not matter

  lemma CountSplit(a: seq<Scenario>, x: Scenario, b: seq<Scenario>, q: Question)
    ensures Count(a + [x] + b, q) == Count(a + b, q) + if Holds(q, x) then 1 else 0
    decreases |b|
  {
    hide Holds;
    if b == [] {
      assert a + [x] + b == a + [x] && a + b == a;
      assert (a + [x])[..|a|] == a;
    } else {
      var shorter := b[..|b| - 1];
      CountSplit(a, x, shorter, q);
      assert (a + [x] + b)[..|a| + |b|] == a + [x] + shorter;
      assert (a + b)[..|a| + |b| - 1] == a + shorter;
    }
  }

  lemma RemoveLast(xs: seq<Scenario>, ys: seq<Scenario>) returns (j: nat)
    requires xs != [] && multiset(xs) == multiset(ys)
    ensures j < |ys| && ys == ys[..j] + [xs[|xs| - 1]] + ys[j + 1..]
    ensures multiset(xs[..|xs| - 1]) == multiset(ys[..j] + ys[j + 1..])
  {
    var x, shorter := xs[|xs| - 1], xs[..|xs| - 1];
    assert xs == shorter + [x];
    assert x in multiset(ys);
    j :| 0 <= j < |ys| && ys[j] == x;
    var a, b := ys[..j], ys[j + 1..];
    assert ys == a + [x] + b;
    assert multiset(ys) == multiset(a) + multiset{x} + multiset(b);
    assert multiset(a + b) == multiset(a) + multiset(b);
    assert multiset(xs) == multiset(shorter) + multiset{x};
    assert multiset(shorter) == multiset(xs) - multiset{x} == multiset(a) + multiset(b);
  }

  lemma {:induction false} CountPermutes(xs: seq<Scenario>, ys: seq<Scenario>, q: Question)
    requires multiset(xs) == multiset(ys)
    ensures |xs| == |ys| && Count(xs, q) == Count(ys, q)
    decreases |xs|
  {
    hide Holds;
    assert |multiset(xs)| == |multiset(ys)|;
    if xs != [] {
      var j := RemoveLast(xs, ys);
      CountPermutes(xs[..|xs| - 1], ys[..j] + ys[j + 1..], q);
      CountSplit(ys[..j], xs[|xs| - 1], ys[j + 1..], q);
    }
  }

  /** The sorted partition has the counts of the generated one. */
  lemma PartitionCount(s: Secrets, partition: int, k: nat, q: Question)
    ensures Count(Partition(s, partition, k), q) == Count(Generated(s, partition, k), q)
    ensures |Partition(s, partition, k)| == |Generated(s, partition, k)|
    ensures forall item :: item in Partition(s, partition, k) <==> item in Generated(s, partition, k)
  {
    hide Generated, Count;
    var items := Generated(s, partition, k);
    SortByCorrect(items, TaskKey);
    CountPermutes(SortBy(items, TaskKey), items, q);
    forall item
      ensures item in SortBy(items, TaskKey) <==> item in items
    {
      assert item in multiset(SortBy(items, TaskKey)) <==> item in multiset(items);
    }
  }

  // ---------------------------------------------------------------- acceptance

  lemma LastGoldIsFresh(items: seq<Scenario>, i: nat)
    requires forall output :: Count(items, ExactOutput(output)) <= 1
    requires i < |items| - 1
    ensures Gold(items[i]) != Gold(items[|items| - 1])
  {
    hide Holds;
    var shorter, q := items[..|items| - 1], ExactOutput(Gold(items[|items| - 1]));
    ExactlyGold(items[|items| - 1], Gold(items[|items| - 1]));
    ExactlyGold(items[i], Gold(items[|items| - 1]));
    assert Count(items, q) == Count(shorter, q) + 1;
    AtMostZero(shorter, q);
    assert !Holds(q, shorter[i]);
  }

  lemma ExactlyGold(item: Scenario, output: (Answer, Observable))
    ensures Holds(ExactOutput(output), item) <==> output == Gold(item)
  {
  }

  lemma AtMostZero(items: seq<Scenario>, q: Question)
    ensures Count(items, q) == 0 ==> forall i :: 0 <= i < |items| ==> !Holds(q, items[i])
  {
    forall i | 0 <= i < |items| && Holds(q, items[i])
      ensures Count(items, q) >= 1
    {
      AtLeastOne(items, q, i);
    }
  }

  lemma {:induction false} DistinctGold(items: seq<Scenario>)
    requires forall output :: Count(items, ExactOutput(output)) <= 1
    ensures |set item | item in items :: Gold(item)| == |items|
    decreases |items|
  {
    hide Gold;
    if items != [] {
      var shorter, last := items[..|items| - 1], items[|items| - 1];
      forall output
        ensures Count(shorter, ExactOutput(output)) <= 1
      {
        assert Count(items, ExactOutput(output)) <= 1;
      }
      DistinctGold(shorter);
      var before := set item | item in shorter :: Gold(item);
      forall item | item in shorter
        ensures Gold(item) != Gold(last)
      {
        var i :| 0 <= i < |shorter| && shorter[i] == item;
        LastGoldIsFresh(items, i);
      }
      assert (set item | item in items :: Gold(item)) == before + {Gold(last)} by {
        assert last in items && forall item :: item in items <==> item in shorter || item == last;
      }
    }
  }

  lemma {:induction false} MostIsOne(items: seq<Scenario>, questions: seq<Question>)
    requires forall q :: q in questions ==> Count(items, q) <= 1
    ensures Most(items, questions) <= 1
    ensures forall q :: q in questions ==> Most(items, questions) >= Count(items, q)
    decreases |questions|
  {
    hide Count;
    if questions != [] {
      assert forall q :: q in questions <==> q in questions[..|questions| - 1] || q == questions[|questions| - 1];
      MostIsOne(items, questions[..|questions| - 1]);
    }
  }

  lemma ConstantOutputIsOne(items: seq<Scenario>)
    requires items != [] && forall output :: Count(items, ExactOutput(output)) <= 1
    ensures Most(items, OutputQuestions(items)) == 1
  {
    hide Count, Most, Holds;
    var qs := OutputQuestions(items);
    forall q | q in qs
      ensures Count(items, q) <= 1
    {
      var i: nat :| i < |qs| && qs[i] == q;
      assert q.ExactOutput?;
      assert Count(items, ExactOutput(q.output)) <= 1;
    }
    MostIsOne(items, qs);
    var gold := ExactOutput(Gold(items[0]));
    assert qs[2 * |items|] == gold;
    assert gold in qs;
    ExactlyGold(items[0], Gold(items[0]));
    AtLeastOne(items, gold, 0);
  }

  lemma PatchMost(items: seq<Scenario>, k: nat)
    requires forall f :: Count(items, FamilyPatch(f)) == (if Even(f) then 12 else 11) * k
    ensures Most(items, PatchQuestions()) == 12 * k
  {
    hide Count;
    var qs := PatchQuestions();
    MostAbove(items, qs, 12 * k);
    assert qs[0] == FamilyPatch(FAMILIES[0]) && Even(FAMILIES[0]);
    assert Count(items, qs[0]) == 12 * k;
  }

  lemma {:induction false} MostAbove(items: seq<Scenario>, questions: seq<Question>, bound: nat)
    requires forall i :: 0 <= i < |questions| ==> Count(items, questions[i]) <= bound
    ensures Most(items, questions) <= bound
    ensures forall i :: 0 <= i < |questions| ==> Count(items, questions[i]) <= Most(items, questions)
    decreases |questions|
  {
    hide Count;
    if questions != [] {
      MostAbove(items, questions[..|questions| - 1], bound);
    }
  }

  /** The exact anti-cheat numerators of every generated partition without digest collisions. */
  lemma PartitionSummary(s: Secrets, partition: int, k: nat)
    requires k >= 1 && NoCollisions(s, k)
    ensures AntiCheatSummary(Partition(s, partition, k)) == Summary(28 * k, 21 * k, 11 * k, 1, 12 * k)
    ensures forall output :: Count(Partition(s, partition, k), ExactOutput(output)) <= 1
  {
    hide Count, Partition, Generated, NoCollisions, OutputQuestions, PatchQuestions;
    var items := Partition(s, partition, k);
    GeneratedCounts(s, partition, k);
    PartitionCount(s, partition, k, OracleCorrect);
    PartitionCount(s, partition, k, ConstantBranch(Safe));
    PartitionCount(s, partition, k, ConstantBranch(Legacy));
    forall f
      ensures Count(items, FamilyPatch(f)) == (if Even(f) then 12 else 11) * k
    {
      PartitionCount(s, partition, k, FamilyPatch(f));
    }
    PatchMost(items, k);
    forall output
      ensures Count(items, ExactOutput(output)) <= 1
    {
      PartitionCount(s, partition, k, ExactOutput(output));
      GoldOnce(s, partition, k, output);
    }
    ConstantOutputIsOne(items);
    TwoQuestions(items, ConstantBranch(Safe), ConstantBranch(Legacy));
  }

  lemma TwoQuestions(items: seq<Scenario>, q: Question, q': Question)
    requires Count(items, q) >= Count(items, q')
    ensures Most(items, [q, q']) == Count(items, q)
  {
    hide Count;
    assert [q, q'][..1] == [q] && [q][..0] == [];
    assert Most(items, []) == 0;
    assert Most(items, [q]) == Count(items, q);
  }

  lemma {:induction false} GroupByRoles(items: seq<Scenario>, f: Family, group: int)
    ensures |InGroup(items, f, group)|
         == Count(items, GroupMember((f, group), RepairableTarget)) + Count(items, GroupMember((f, group), NullControl))
            + Count(items, GroupMember((f, group), UnrepairableControl))
            + Count(items, GroupMember((f, group), DistractorShiftHardNegative))
    ensures forall item :: item in items && item.family == f && item.groupId == group ==>
                             item in InGroup(items, f, group)
    decreases |items|
  {
    if items != [] {
      GroupByRoles(items[..|items| - 1], f, group);
      var last := items[|items| - 1];
      assert forall item :: item in items <==> item in items[..|items| - 1] || item == last;
    }
  }

  lemma ScenarioFields(s: Secrets, partition: int, f: Family, g: nat, role: Role)
    ensures var item := ScenarioOf(s, partition, f, g, role);
            && item.partition == partition && item.family == f && item.surface == SurfaceOf(f)
            && item.groupId == s.group(f, g) && item.role == role
  {
    hide BranchForRule, EvaluateBranch, Primary, Secondary, TagOf, ContextFor;
  }

  /** Every group of a generated partition holds each role once. */
  lemma GroupsAreComplete(s: Secrets, partition: int, k: nat)
    requires NoCollisions(s, k)
    ensures GroupsComplete(Partition(s, partition, k))
  {
    hide Count, Partition, Generated, NoCollisions, ScenarioOf;
    var items := Partition(s, partition, k);
    PartitionCount(s, partition, k, OracleCorrect);
    forall item | item in items
      ensures GroupComplete(InGroup(items, item.family, item.groupId))
    {
      var i: nat :| i < |Generated(s, partition, k)| && Generated(s, partition, k)[i] == item;
      var v := GeneratedCell(s, partition, k, i);
      var f, g := FAMILIES[v[0]], v[1];
      ScenarioFields(s, partition, f, g, ROLES[v[2]]);
      GroupIsComplete(s, partition, k, f, g);
    }
  }

  lemma GroupIsComplete(s: Secrets, partition: int, k: nat, f: Family, g: nat)
    requires NoCollisions(s, k) && g < k
    ensures GroupComplete(InGroup(Partition(s, partition, k), f, s.group(f, g)))
  {
    hide Count, Partition, Generated, NoCollisions, ScenarioOf, InGroup;
    var items, group := Partition(s, partition, k), InGroup(Partition(s, partition, k), f, s.group(f, g));
    GroupByRoles(items, f, s.group(f, g));
    forall role: nat | role < |ROLES|
      ensures Count(items, GroupMember((f, s.group(f, g)), ROLES[role])) == 1
      ensures ROLES[role] in RolesOf(group)
    {
      MembersOnce(s, partition, k, f, g, role);
      PartitionCount(s, partition, k, GroupMember((f, s.group(f, g)), ROLES[role]));
      var i := CellIndex(s, partition, k, f, g, role);
      var item := Generated(s, partition, k)[i];
      ScenarioFields(s, partition, f, g, ROLES[role]);
      assert item in items;
      assert item in group;
    }
    assert Count(items, GroupMember((f, s.group(f, g)), ROLES[0])) == 1;
    assert Count(items, GroupMember((f, s.group(f, g)), ROLES[1])) == 1;
    assert Count(items, GroupMember((f, s.group(f, g)), ROLES[2])) == 1;
    assert Count(items, GroupMember((f, s.group(f, g)), ROLES[3])) == 1;
  }

  ghost predicate Covered(items: seq<Scenario>, f: Family) {
    exists item :: item in items && item.family == f && item.surface == SurfaceOf(f)
  }

  lemma Coverage(s: Secrets, partition: int, k: nat)
    requires k >= 1
    ensures var items := Partition(s, partition, k);
            && items != []
            && (forall item :: item in items ==> item.partition == partition)
            && (forall f: Family :: Covered(items, f))
  {
    hide Count, Partition, Generated, ScenarioOf;
    var items := Partition(s, partition, k);
    PartitionCount(s, partition, k, OracleCorrect);
    GeneratedSize(s, partition, k);
    forall item | item in items
      ensures item.partition == partition
    {
      var i: nat :| i < |Generated(s, partition, k)| && Generated(s, partition, k)[i] == item;
      var v := GeneratedCell(s, partition, k, i);
      ScenarioFields(s, partition, FAMILIES[v[0]], v[1], ROLES[v[2]]);
    }
    forall f: Family
      ensures Covered(items, f)
    {
      var i := CellIndex(s, partition, k, f, 0, 0);
      var item := Generated(s, partition, k)[i];
      assert item in Generated(s, partition, k);
      ScenarioFields(s, partition, f, 0, ROLES[0]);
      assert item in items;
    }
  }

  /** Whatever the number of groups, the generator passes its own anti-cheat validator. */
  lemma PartitionAccepted(s: Secrets, partition: int, k: nat)
    requires k >= 1 && NoCollisions(s, k)
    ensures Validate(Partition(s, partition, k)) == Ok(Summary(28 * k, 21 * k, 11 * k, 1, 12 * k))
  {
    hide Count, Partition, Generated, GroupsComplete, AntiCheatSummary;
    var items := Partition(s, partition, k);
    Coverage(s, partition, k);
    GroupsAreComplete(s, partition, k);
    PartitionSummary(s, partition, k);
    DistinctGold(items);
    GeneratedCounts(s, partition, k);
    PartitionCount(s, partition, k, Answered(Match));
    PartitionCount(s, partition, k, Answered(Different));
    forall f | f in FAMILIES
      ensures exists item :: item in items && item.family == f
      ensures exists item :: item in items && item.surface == SurfaceOf(f)
    {
      assert Covered(items, f);
    }
  }

  // ---------------------------------------------------------------- exactly when it is accepted

  lemma {:induction false} TwoHold(items: seq<Scenario>, q: Question, i: nat, j: nat)
    requires i < j < |items| && Holds(q, items[i]) && Holds(q, items[j])
    ensures Count(items, q) >= 2
    decreases |items|
  {
    hide Holds;
    if j < |items| - 1 {
      TwoHold(items[..|items| - 1], q, i, j);
    } else {
      AtLeastOne(items[..j], q, i);
    }
  }

  /** Two cells that both satisfy a question count twice. */
  lemma CellsCountTwice(
    s: Secrets, partition: int, k: nat, q: Question, f: Family, g: nat, role: nat, f': Family, h: nat, role': nat)
    requires g < k && h < k && role < |ROLES| && role' < |ROLES| && (f, g, role) != (f', h, role')
    requires Holds(q, ScenarioOf(s, partition, f, g, ROLES[role]))
    requires Holds(q, ScenarioOf(s, partition, f', h, ROLES[role']))
    ensures Count(Partition(s, partition, k), q) >= 2
  {
    hide Generated, Count, ScenarioOf, Holds, Partition;
    var i := CellIndex(s, partition, k, f, g, role);
    var j := CellIndex(s, partition, k, f', h, role');
    assert i != j by {
      assert [Index(f), g, role][0] == Index(f) && [Index(f'), h, role'][0] == Index(f');
      assert [Index(f), g, role][1] == g && [Index(f'), h, role'][1] == h;
      assert [Index(f), g, role][2] == role && [Index(f'), h, role'][2] == role';
      assert FAMILIES[Index(f)] == f && FAMILIES[Index(f')] == f';
    }
    TwoHold(Generated(s, partition, k), q, if i < j then i else j, if i < j then j else i);
    PartitionCount(s, partition, k, q);
  }

  /** Two groups of one family behind one digest make a group of eight. */
  lemma GroupsCollide(s: Secrets, partition: int, k: nat, f: Family, g: nat, h: nat)
    requires g < k && h < k && g != h && s.group(f, g) == s.group(f, h)
    ensures !GroupsComplete(Partition(s, partition, k))
  {
    hide Generated, Count, ScenarioOf, Partition, InGroup;
    var items, group := Partition(s, partition, k), s.group(f, g);
    forall role: nat | role < |ROLES|
      ensures Count(items, GroupMember((f, group), ROLES[role])) >= 2
    {
      ScenarioFields(s, partition, f, g, ROLES[role]);
      ScenarioFields(s, partition, f, h, ROLES[role]);
      CellsCountTwice(s, partition, k, GroupMember((f, group), ROLES[role]), f, g, role, f, h, role);
    }
    assert Count(items, GroupMember((f, group), ROLES[0])) >= 2;
    assert Count(items, GroupMember((f, group), ROLES[1])) >= 2;
    assert Count(items, GroupMember((f, group), ROLES[2])) >= 2;
    assert Count(items, GroupMember((f, group), ROLES[3])) >= 2;
    GroupByRoles(items, f, group);
    var i := CellIndex(s, partition, k, f, g, 0);
    ScenarioFields(s, partition, f, g, ROLES[0]);
    PartitionCount(s, partition, k, OracleCorrect);
    assert Generated(s, partition, k)[i] in items;
  }

  /** As many different gold outputs as scenarios means that no output occurs twice. */
  lemma {:induction false} GoldSetSize(items: seq<Scenario>, output: (Answer, Observable))
    ensures |set item | item in items :: Gold(item)| <= |items|
    ensures |set item | item in items :: Gold(item)| == |items| ==> Count(items, ExactOutput(output)) <= 1
    decreases |items|
  {
    hide Gold;
    if items != [] {
      var shorter, last := items[..|items| - 1], items[|items| - 1];
      GoldSetSize(shorter, output);
      var before := set item | item in shorter :: Gold(item);
      assert (set item | item in items :: Gold(item)) == before + {Gold(last)} by {
        assert last in items && forall item :: item in items <==> item in shorter || item == last;
      }
      if Gold(last) !in before {
        forall i | 0 <= i < |shorter|
          ensures Holds(ExactOutput(Gold(last)), shorter[i]) ==> false
        {
          ExactlyGold(shorter[i], Gold(last));
          assert shorter[i] in shorter;
          assert Gold(shorter[i]) in before;
        }
        NoneHold(shorter, ExactOutput(Gold(last)));
        ExactlyGold(last, output);
      }
    }
  }

  /** Two resolutions with one suffix are one gold output. */
  lemma SuffixesCollide(s: Secrets, partition: int, k: nat, f: Family, g: nat, f': Family, h: nat)
    requires g < k && h < k && (f, g) != (f', h)
    requires s.suffix(f, g, UnrepairableControl) == s.suffix(f', h, UnrepairableControl)
    ensures |set item | item in Partition(s, partition, k) :: Gold(item)| != |Partition(s, partition, k)|
  {
    hide Generated, Count, Partition, Gold;
    var role: nat := 2;
    var output := Gold(ScenarioOf(s, partition, f, g, ROLES[role]));
    SameResolution(s, partition, f, g, f', h);
    ExactlyGold(ScenarioOf(s, partition, f, g, ROLES[role]), output);
    ExactlyGold(ScenarioOf(s, partition, f', h, ROLES[role]), output);
    CellsCountTwice(s, partition, k, ExactOutput(output), f, g, role, f', h, role);
    GoldSetSize(Partition(s, partition, k), output);
  }

  lemma SameResolution(s: Secrets, partition: int, f: Family, g: nat, f': Family, h: nat)
    requires s.suffix(f, g, UnrepairableControl) == s.suffix(f', h, UnrepairableControl)
    ensures Gold(ScenarioOf(s, partition, f, g, ROLES[2])) == Gold(ScenarioOf(s, partition, f', h, ROLES[2]))
  {
    hide Primary, Secondary, TagOf, ContextFor;
  }

  /** The generator passes its own validator exactly when there is a group and no two digests collide. */
  lemma PartitionAcceptedExactly(s: Secrets, partition: int, k: nat)
    ensures Validate(Partition(s, partition, k)).Ok? <==> k >= 1 && NoCollisions(s, k)
  {
    hide Count, Partition, Generated, GroupsComplete, AntiCheatSummary, NoCollisions, Gold;
    GeneratedSize(s, partition, k);
    PartitionCount(s, partition, k, OracleCorrect);
    if k >= 1 && NoCollisions(s, k) {
      PartitionAccepted(s, partition, k);
    } else if k >= 1 {
      CollisionRejected(s, partition, k);
    }
  }

  lemma CollisionRejected(s: Secrets, partition: int, k: nat)
    requires !NoCollisions(s, k)
    ensures !GroupsComplete(Partition(s, partition, k))
         || |set item | item in Partition(s, partition, k) :: Gold(item)| != |Partition(s, partition, k)|
  {
    hide Partition, GroupsComplete, Gold, GroupsSeparate, SuffixesSeparate;
    if !GroupsSeparate(s, k) {
      var f, g, h := CollidingGroups(s, k);
      GroupsCollide(s, partition, k, f, g, h);
    } else {
      var f, g, f', h := CollidingSuffixes(s, k);
      SuffixesCollide(s, partition, k, f, g, f', h);
    }
  }

  lemma CollidingGroups(s: Secrets, k: nat) returns (f: Family, g: nat, h: nat)
    requires !GroupsSeparate(s, k)
    ensures g < k && h < k && g != h && s.group(f, g) == s.group(f, h)
  {
    f, g, h :| g < k && h < k && s.group(f, g) == s.group(f, h) && g != h;
  }

  lemma CollidingSuffixes(s: Secrets, k: nat) returns (f: Family, g: nat, f': Family, h: nat)
    requires !SuffixesSeparate(s, k)
    ensures g < k && h < k && (f, g) != (f', h)
    ensures s.suffix(f, g, UnrepairableControl) == s.suffix(f', h, UnrepairableControl)
  {
    f, f', g, h :| g < k && h < k && SameSuffix(s, f, g, f', h) && !(f == f' && g == h);
  }
}
