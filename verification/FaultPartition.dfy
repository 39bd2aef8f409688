/**
 Generating a fault partition in nested loops, and measuring it against its own anti-cheat
 envelope: rates of the oracle, of constant branches, of constant outputs and of patches.
 */
module FaultPartition {
  import opened Prelude
  import opened RowMajor
  import opened Sorting
  import opened FaultContracts

  // ---------------------------------------------------------------- generation

  /** The salted digests the generator draws on, by family, group and role. */
  datatype Secrets = Secrets(
    salted: (Family, nat) -> ShortHex, group: (Family, nat) -> int,
    task: (Family, nat, Role) -> int, suffix: (Family, nat, Role) -> string)
  {
    function Stem(f: Family, g: nat): string {
      StemOf(f, g, salted(f, g))
    }
  }

  /** Group digests of one family differ. */
  ghost predicate GroupsSeparate(s: Secrets, k: nat) {
    forall f, g: nat, h: nat :: g < k && h < k && s.group(f, g) == s.group(f, h) ==> g == h
  }

  predicate SameSuffix(s: Secrets, f: Family, g: nat, f': Family, h: nat) {
    s.suffix(f, g, UnrepairableControl) == s.suffix(f', h, UnrepairableControl)
  }

  /** The scenario suffixes that resolutions show differ. */
  ghost predicate SuffixesSeparate(s: Secrets, k: nat) {
    forall f, f', g: nat, h: nat :: g < k && h < k && SameSuffix(s, f, g, f', h) ==> f == f' && g == h
  }

  ghost predicate NoCollisions(s: Secrets, k: nat) {
    GroupsSeparate(s, k) && SuffixesSeparate(s, k)
  }

  function ScenarioOf(s: Secrets, partition: int, f: Family, g: nat, role: Role): Scenario {
    var context := ContextFor(f, role);
    var tag := TagOf(role, s.Stem(f, g));
    var primary, secondary := Primary(f, tag), Secondary(f, tag);
    if role == UnrepairableControl then
      Scenario(
        s.task(f, g, role), partition, f, SurfaceOf(f), s.group(f, g), role, context, primary, secondary,
        None, Different, Observable(Resolution, "defer:" + s.suffix(f, g, role)))
    else
      var oracle := BranchForRule(RoutedPolicy, f, context);
      var gold := EvaluateBranch(f, oracle, primary, secondary);
      Scenario(
        s.task(f, g, role), partition, f, SurfaceOf(f), s.group(f, g), role, context, primary, secondary,
        Some(oracle), gold.0, gold.1)
  }

  function Sizes(k: nat): seq<nat> {
    [|FAMILIES|, k, |ROLES|]
  }

  function ScenarioAt(s: Secrets, partition: int, v: Coord): Scenario
    requires |v| == 3 && v[0] < |FAMILIES| && v[2] < |ROLES|
  {
    ScenarioOf(s, partition, FAMILIES[v[0]], v[1], ROLES[v[2]])
  }

  ghost predicate AllCells(coords: seq<Coord>) {
    forall v :: v in coords ==> |v| == 3 && v[0] < |FAMILIES| && v[2] < |ROLES|
  }

  function ScenariosAt(s: Secrets, partition: int, coords: seq<Coord>): (items: seq<Scenario>)
    requires AllCells(coords)
    ensures |items| == |coords|
    ensures forall i :: 0 <= i < |coords| ==> coords[i] in coords && items[i] == ScenarioAt(s, partition, coords[i])
  {
    assert forall i :: 0 <= i < |coords| ==> coords[i] in coords;
    seq(|coords|, i requires 0 <= i < |coords| => ScenarioAt(s, partition, coords[i]))
  }

  lemma CellsAreValid(k: nat)
    ensures AllCells(Product(Sizes(k)))
  {
    forall v | v in Product(Sizes(k))
      ensures |v| == 3 && v[0] < |FAMILIES| && v[2] < |ROLES|
    {
      ProductMembers(Sizes(k), v);
    }
  }

  /** The scenarios in generation order, and in task order. */
  function Generated(s: Secrets, partition: int, k: nat): seq<Scenario> {
    CellsAreValid(k);
    ScenariosAt(s, partition, Product(Sizes(k)))
  }

  function TaskKey(item: Scenario): Key {
    Key(item.taskId, 0)
  }

  function Partition(s: Secrets, partition: int, k: nat): seq<Scenario> {
    SortBy(Generated(s, partition, k), TaskKey)
  }

  ghost predicate Emitted(s: Secrets, partition: int, k: nat, v: Coord, items: seq<Scenario>) {
    && |v| <= 3
    && AllCells(RowMajor.Before(Sizes(k), v))
    && items == ScenariosAt(s, partition, RowMajor.Before(Sizes(k), v))
  }

  lemma ThreeLoops(k: nat)
    ensures |Sizes(k)| == 3
  {
  }

  lemma EmitStep(s: Secrets, partition: int, k: nat, f: nat, g: nat, r: nat, items: seq<Scenario>)
    requires Emitted(s, partition, k, [f, g, r], items) && f < |FAMILIES| && g < k && r < |ROLES|
    ensures Emitted(s, partition, k, [f, g, r + 1], items + [ScenarioAt(s, partition, [f, g, r])])
  {
    hide RowMajor.Before, ScenarioAt, Sizes;
    ThreeLoops(k);
    Step(Sizes(k), [f, g], r);
    assert [f, g] + [r] == [f, g, r] && [f, g] + [r + 1] == [f, g, r + 1];
  }

  lemma EmitTurns(s: Secrets, partition: int, k: nat, f: nat, g: nat, items: seq<Scenario>)
    ensures Emitted(s, partition, k, [f], items) ==> Emitted(s, partition, k, [f, 0], items)
    ensures Emitted(s, partition, k, [f, g], items) ==> Emitted(s, partition, k, [f, g, 0], items)
    ensures Emitted(s, partition, k, [f, g, |ROLES|], items) ==> Emitted(s, partition, k, [f, g + 1], items)
    ensures Emitted(s, partition, k, [f, k], items) ==> Emitted(s, partition, k, [f + 1], items)
  {
    hide RowMajor.Before;
    Deepen(Sizes(k), [f]);
    Deepen(Sizes(k), [f, g]);
    Carry(Sizes(k), [f], g);
    Carry(Sizes(k), [], f);
    assert [f] + [0] == [f, 0] && [f, g] + [0] == [f, g, 0];
    assert [f] + [g] + [|ROLES|] == [f, g, |ROLES|] && [f] + [g + 1] == [f, g + 1];
    assert [] + [f] + [k] == [f, k] && [] + [f + 1] == [f + 1];
  }

  lemma EmitEnds(s: Secrets, partition: int, k: nat, items: seq<Scenario>)
    ensures Emitted(s, partition, k, [0], [])
    ensures Emitted(s, partition, k, [|FAMILIES|], items) ==> items == Generated(s, partition, k)
  {
    hide Product;
    Deepen(Sizes(k), []);
    assert [] + [0] == [0];
    Complete(Sizes(k));
  }

  /** `_generate_partition`. */
  method GeneratePartition(s: Secrets, partition: int, k: nat) returns (scenarios: seq<Scenario>)
    ensures scenarios == Partition(s, partition, k)
  {
    hide Emitted, Generated, BranchForRule, EvaluateBranch, Primary, Secondary, TagOf;
    scenarios := [];
    EmitEnds(s, partition, k, []);
    for f := 0 to |FAMILIES|
      invariant Emitted(s, partition, k, [f], scenarios)
    {
      var family := FAMILIES[f];
      EmitTurns(s, partition, k, f, 0, scenarios);
      for g := 0 to k
        invariant Emitted(s, partition, k, [f, g], scenarios)
      {
        var stem, groupId := s.Stem(family, g), s.group(family, g);
        EmitTurns(s, partition, k, f, g, scenarios);
        for r := 0 to |ROLES|
          invariant Emitted(s, partition, k, [f, g, r], scenarios)
        {
          EmitStep(s, partition, k, f, g, r, scenarios);
          var role := ROLES[r];
          var context := ContextFor(family, role);
          var tag := TagOf(role, stem);
          var primary, secondary := Primary(family, tag), Secondary(family, tag);
          var oracle: Option<Branch> := None;
          var answer, observable := Different, Observable(Resolution, "defer:" + s.suffix(family, g, role));
          if role != UnrepairableControl {
            oracle := Some(BranchForRule(RoutedPolicy, family, context));
            var gold := EvaluateBranch(family, oracle.value, primary, secondary);
            answer, observable := gold.0, gold.1;
          }
          scenarios := scenarios + [
            Scenario(
              s.task(family, g, role), partition, family, SurfaceOf(family), groupId, role, context,
              primary, secondary, oracle, answer, observable)];
        }
        EmitTurns(s, partition, k, f, g, scenarios);
      }
      EmitTurns(s, partition, k, f, 0, scenarios);
    }
    EmitEnds(s, partition, k, scenarios);
    scenarios := SortBy(scenarios, TaskKey);
  }

  // ---------------------------------------------------------------- measuring

  /** What a summary counts. */
  datatype Question =
    | OracleCorrect
    | ConstantBranch(branch: Branch)
    | FamilyPatch(family: Family)
    | Answered(answer: Answer)
    | ExactOutput(output: (Answer, Observable))
    | GroupMember(group: (Family, int), role: Role)

  function Gold(item: Scenario): (Answer, Observable) {
    (item.answer, item.observable)
  }

  predicate BranchCorrect(item: Scenario, branch: Branch) {
    EvaluateBranch(item.family, branch, item.primary, item.secondary) == Gold(item)
  }

  predicate Holds(q: Question, item: Scenario) {
    match q
    case OracleCorrect => item.oracle.Some? && BranchCorrect(item, item.oracle.value)
    case ConstantBranch(branch) => BranchCorrect(item, branch)
    case FamilyPatch(family) =>
      BranchCorrect(
        item, if item.family == family then BranchForRule(RoutedPolicy, item.family, item.context) else Legacy)
    case Answered(answer) => item.answer == answer
    case ExactOutput(output) => output == Gold(item)
    case GroupMember(group, role) => (item.family, item.groupId) == group && item.role == role
  }

  function Count(items: seq<Scenario>, q: Question): (n: nat)
    ensures n <= |items|
  {
    if items == [] then 0
    else Count(items[..|items| - 1], q) + if Holds(q, items[|items| - 1]) then 1 else 0
  }

  function Most(items: seq<Scenario>, questions: seq<Question>): nat {
    if questions == [] then 0
    else
      var rest, last := Most(items, questions[..|questions| - 1]), Count(items, questions[|questions| - 1]);
      if rest < last then last else rest
  }

  function PatchQuestions(): (qs: seq<Question>)
    ensures |qs| == |FAMILIES| && forall i :: 0 <= i < |qs| ==> qs[i] == FamilyPatch(FAMILIES[i])
  {
    seq(|FAMILIES|, i requires 0 <= i < |FAMILIES| => FamilyPatch(FAMILIES[i]))
  }

  /** Every output any branch can produce, and every gold output. */
  function OutputQuestions(items: seq<Scenario>): seq<Question> {
    seq(|items|, i requires 0 <= i < |items| =>
      ExactOutput(EvaluateBranch(items[i].family, Safe, items[i].primary, items[i].secondary)))
    + seq(|items|, i requires 0 <= i < |items| =>
      ExactOutput(EvaluateBranch(items[i].family, Legacy, items[i].primary, items[i].secondary)))
    + seq(|items|, i requires 0 <= i < |items| => ExactOutput(Gold(items[i])))
  }

  /** Numerators of the anti-cheat rates; the denominator is the number of scenarios. */
  datatype Summary = Summary(
    count: nat, oracle: nat, constantBranch: nat, constantOutput: nat, singleFamily: nat)

  function AntiCheatSummary(items: seq<Scenario>): Summary {
    Summary(
      |items|, Count(items, OracleCorrect), Most(items, [ConstantBranch(Safe), ConstantBranch(Legacy)]),
      Most(items, OutputQuestions(items)), Most(items, PatchQuestions()))
  }

  // ---------------------------------------------------------------- validation

  datatype Rejection = OnePartition | EveryFamily | EverySurface | CompleteGroups | UniqueGold | Balance | Envelope

  function InGroup(items: seq<Scenario>, f: Family, group: int): seq<Scenario> {
    if items == [] then []
    else
      var last := items[|items| - 1];
      InGroup(items[..|items| - 1], f, group) + if last.family == f && last.groupId == group then [last] else []
  }

  function RolesOf(items: seq<Scenario>): set<Role> {
    set item | item in items :: item.role
  }

  predicate GroupComplete(group: seq<Scenario>) {
    |group| == |ROLES| && forall r :: r in ROLES ==> r in RolesOf(group)
  }

  /** Each scenario's family group consists of the four roles. */
  predicate GroupsComplete(items: seq<Scenario>) {
    forall item :: item in items ==> GroupComplete(InGroup(items, item.family, item.groupId))
  }

  /** `_validate_partition`; rates are compared by cross-multiplication. */
  function Validate(items: seq<Scenario>): Result<Summary, Rejection> {
    if items == [] || exists item :: item in items && item.partition != items[0].partition then Err(OnePartition)
    else if exists f :: f in FAMILIES && !exists item :: item in items && item.family == f then Err(EveryFamily)
    else if exists f :: f in FAMILIES && !exists item :: item in items && item.surface == SurfaceOf(f) then
      Err(EverySurface)
    else if !GroupsComplete(items) then Err(CompleteGroups)
    else if |set item | item in items :: Gold(item)| != |items| then Err(UniqueGold)
    else if Count(items, Answered(Match)) != Count(items, Answered(Different)) then Err(Balance)
    else
      var s := AntiCheatSummary(items);
      if 100 * (s.oracle - s.constantBranch) < 30 * s.count || 100 * (s.oracle - s.singleFamily) < 30 * s.count
         || 100 * s.constantOutput > 5 * s.count then Err(Envelope)
      else Ok(s)
  }

  function GroupAt(groups: map<(Family, int), seq<Scenario>>, key: (Family, int)): seq<Scenario> {
    if key in groups then groups[key] else []
  }

  ghost predicate Grouped(items: seq<Scenario>, groups: map<(Family, int), seq<Scenario>>) {
    && (forall f, g :: GroupAt(groups, (f, g)) == InGroup(items, f, g))
    && (forall key :: key in groups <==> HasKey(items, key))
  }

  predicate HasKey(items: seq<Scenario>, key: (Family, int)) {
    exists item :: item in items && item.family == key.0 && item.groupId == key.1
  }

  lemma InGroupSnoc(items: seq<Scenario>, item: Scenario, f: Family, group: int)
    ensures InGroup(items + [item], f, group)
         == InGroup(items, f, group) + if item.family == f && item.groupId == group then [item] else []
  {
    assert (items + [item])[..|items|] == items;
  }

  lemma HasKeySnoc(items: seq<Scenario>, item: Scenario, key: (Family, int))
    ensures HasKey(items + [item], key) <==> HasKey(items, key) || key == (item.family, item.groupId)
  {
    var all := items + [item];
    assert item in all && forall other :: other in all <==> other in items || other == item;
  }

  lemma GroupOneMore(items: seq<Scenario>, item: Scenario, groups: map<(Family, int), seq<Scenario>>)
    requires Grouped(items, groups)
    ensures var key := (item.family, item.groupId);
            Grouped(items + [item], groups[key := GroupAt(groups, key) + [item]])
  {
    hide InGroup, HasKey;
    var mine := (item.family, item.groupId);
    var next := groups[mine := GroupAt(groups, mine) + [item]];
    forall f, g
      ensures GroupAt(next, (f, g)) == InGroup(items + [item], f, g)
    {
      assert GroupAt(groups, (f, g)) == InGroup(items, f, g);
      InGroupSnoc(items, item, f, g);
    }
    forall key
      ensures key in next <==> HasKey(items + [item], key)
    {
      HasKeySnoc(items, item, key);
    }
  }

  /** The group dictionary the validator builds. */
  method BuildGroups(items: seq<Scenario>) returns (groups: map<(Family, int), seq<Scenario>>)
    ensures Grouped(items, groups)
  {
    groups := map[];
    for i := 0 to |items|
      invariant Grouped(items[..i], groups)
    {
      hide Grouped;
      GroupOneMore(items[..i], items[i], groups);
      assert items[..i + 1] == items[..i] + [items[i]];
      var key := (items[i].family, items[i].groupId);
      groups := groups[key := GroupAt(groups, key) + [items[i]]];
    }
    assert items[..|items|] == items;
  }

  /** The validator's check over all groups. */
  method CheckGroups(items: seq<Scenario>) returns (complete: bool)
    ensures complete == GroupsComplete(items)
  {
    hide InGroup, GroupComplete;
    var groups := BuildGroups(items);
    complete := true;
    var keys := groups.Keys;
    while keys != {}
      invariant keys <= groups.Keys
      invariant complete == forall key :: key in groups.Keys - keys ==> GroupComplete(groups[key])
      decreases |keys|
    {
      var key :| key in keys;
      keys := keys - {key};
      complete := complete && GroupComplete(groups[key]);
    }
    GroupsByKey(items, groups, complete);
  }

  lemma GroupsByKey(items: seq<Scenario>, groups: map<(Family, int), seq<Scenario>>, complete: bool)
    requires Grouped(items, groups)
    requires complete == forall key :: key in groups ==> GroupComplete(groups[key])
    ensures complete == GroupsComplete(items)
  {
    hide InGroup, GroupComplete;
    forall item | item in items
      ensures (item.family, item.groupId) in groups
      ensures groups[(item.family, item.groupId)] == InGroup(items, item.family, item.groupId)
    {
      assert HasKey(items, (item.family, item.groupId));
      assert GroupAt(groups, (item.family, item.groupId)) == InGroup(items, item.family, item.groupId);
    }
    forall key | key in groups
      ensures exists item :: item in items && (item.family, item.groupId) == key
    {
      assert HasKey(items, key);
    }
  }

  /** `_validate_partition` with its group loop. */
  method ValidatePartition(items: seq<Scenario>) returns (r: Result<Summary, Rejection>)
    ensures r == Validate(items)
  {
    hide GroupsComplete, AntiCheatSummary;
    var complete := CheckGroups(items);
    if items == [] || exists item :: item in items && item.partition != items[0].partition {
      return Err(OnePartition);
    }
    if exists f :: f in FAMILIES && !exists item :: item in items && item.family == f {
      return Err(EveryFamily);
    }
    if exists f :: f in FAMILIES && !exists item :: item in items && item.surface == SurfaceOf(f) {
      return Err(EverySurface);
    }
    if !complete {
      return Err(CompleteGroups);
    }
    if |set item | item in items :: Gold(item)| != |items| {
      return Err(UniqueGold);
    }
    if Count(items, Answered(Match)) != Count(items, Answered(Different)) {
      return Err(Balance);
    }
    var s := AntiCheatSummary(items);
    if 100 * (s.oracle - s.constantBranch) < 30 * s.count || 100 * (s.oracle - s.singleFamily) < 30 * s.count
       || 100 * s.constantOutput > 5 * s.count {
      return Err(Envelope);
    }
    return Ok(s);
  }
}
