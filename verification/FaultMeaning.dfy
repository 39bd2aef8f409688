/** What generated scenarios say, and exactly which partitions are valid. */
module FaultMeaning {
  import opened Prelude
  import opened RowMajor
  import opened Sorting
  import opened Texts
  import opened FaultContracts
  import opened FaultPartition
  import opened FaultMargins

  // ---------------------------------------------------------------- the rule grammar

  /** The families at even positions, for which the safe branch answers MATCH. */
  predicate SafeMatches(f: Family) {
    || f == PromptInstructionPrecedence || f == ToolSchemaValidation
    || f == MiddlewareCanonicalization || f == SkillScopeActivation
  }

  lemma EvenFamilies(f: Family)
    ensures Even(f) <==> SafeMatches(f)
  {
  }

  /** Exactly when a repair rule takes the safe branch. */
  lemma SafeExactly(rule: Rule, f: Family, context: Context)
    ensures BranchForRule(rule, f, context) == Safe <==>
            || rule == ConstantSafe
            || (rule == RoutedPolicy && (context == Context0 || (context == ContextX && SafeMatches(f))))
            || (context == Context0 && rule == PromptMemoryPatch
                && (f == PromptInstructionPrecedence || f == MemoryRetrievalIsolation))
            || (context == Context0 && rule == ToolPatch
                && (f == ToolSchemaValidation || f == ToolRoutingAuthorization))
            || (context == Context0 && rule == RuntimePatch
                && (f == MiddlewareCanonicalization || f == ControlFlowGuard || f == SkillScopeActivation))
  {
    EvenFamilies(f);
  }

  // ---------------------------------------------------------------- what a branch shows

  /** The label in front of what the safe branch shows. */
  function TrustedLabel(f: Family): string {
    match f
    case PromptInstructionPrecedence => "trusted-instruction"
    case MemoryRetrievalIsolation => "scoped-memory"
    case ToolSchemaValidation => "validated-schema"
    case ToolRoutingAuthorization => "authorized-route"
    case MiddlewareCanonicalization => "compared"
    case ControlFlowGuard => "guarded-flow"
    case SkillScopeActivation => "scoped-skill"
  }

  /** The label in front of what the legacy branch shows. */
  function UntrustedLabel(f: Family): string {
    match f
    case PromptInstructionPrecedence => "payload-instruction"
    case MemoryRetrievalIsolation => "global-memory"
    case ToolSchemaValidation => "unchecked-schema"
    case ToolRoutingAuthorization => "fallback-route"
    case MiddlewareCanonicalization => "compared"
    case ControlFlowGuard => "legacy-flow"
    case SkillScopeActivation => "default-skill"
  }

  /** The text that a scenario's branch shows, from its inputs and its tag. */
  ghost predicate Shows(item: Scenario, tag: string, branch: Branch, shown: Observable) {
    var lead := if branch == Safe then TrustedLabel(item.family) else UntrustedLabel(item.family);
    var value :=
      if item.family == MiddlewareCanonicalization then
        if branch == Safe then tag + "|" + tag else item.primary + "|" + item.secondary
      else if branch == Safe then item.primary
      else item.secondary;
    ObservableText(shown) == lead + "=" + Quoted(value)
  }

  lemma BranchLabels(f: Family)
    ensures LabelText(Labels(f).0) == TrustedLabel(f) && LabelText(Labels(f).1) == UntrustedLabel(f)
  {
  }

  /** What either branch makes of a generated scenario. */
  lemma BranchSays(s: Secrets, partition: int, f: Family, g: nat, role: Role, branch: Branch)
    ensures var item := ScenarioOf(s, partition, f, g, role);
            var output := EvaluateBranch(f, branch, item.primary, item.secondary);
            && (output.0 == Match <==> (branch == Safe) == SafeMatches(f))
            && Shows(item, TagOf(role, s.Stem(f, g)), branch, output.1)
  {
    hide LabelText, Quoted, Casefold, Strip, Swapcase, StemOf, TagOf, RoleText;
    EvenFamilies(f);
    BranchLabels(f);
    var tag := TagOf(role, s.Stem(f, g));
    InputsOf(s, partition, f, g, role);
    if f == MiddlewareCanonicalization {
      StemIsLower(f, g, s.salted(f, g));
      TagIsLower(role, s.Stem(f, g));
      ShownText(tag);
    }
  }

  lemma InputsOf(s: Secrets, partition: int, f: Family, g: nat, role: Role)
    ensures var item, tag := ScenarioOf(s, partition, f, g, role), TagOf(role, s.Stem(f, g));
            && item.family == f && item.role == role
            && item.primary == Primary(f, tag) && item.secondary == Secondary(f, tag)
  {
    hide EvaluateBranch, BranchForRule, Primary, Secondary, TagOf, StemOf, ContextFor;
  }

  // ---------------------------------------------------------------- what a scenario says

  /** The inputs carry the tag between the family's fixed texts; middleware inputs differ from it in case and padding. */
  ghost predicate InputsSay(item: Scenario, tag: string) {
    match item.family
    case PromptInstructionPrecedence =>
      item.primary == "system:" + tag + ":allow-read" && item.secondary == "payload:" + tag + ":delete-all"
    case MemoryRetrievalIsolation =>
      item.primary == "tenant-a:" + tag + ":preference" && item.secondary == "tenant-b:" + tag + ":secret"
    case ToolSchemaValidation =>
      item.primary == "{\"query\":\"" + tag + "\"}" && item.secondary == "{\"query\":\"" + tag + "\",\"admin\":true}"
    case ToolRoutingAuthorization =>
      item.primary == "catalog.lookup:" + tag && item.secondary == "admin.delete:" + tag
    case MiddlewareCanonicalization =>
      && item.secondary == tag
      && |item.primary| == |tag| + 4
      && item.primary[..2] == "  " && item.primary[|tag| + 2..] == "  "
      && forall i :: 0 <= i < |tag| ==>
           if 'a' <= tag[i] <= 'z' then item.primary[i + 2] as int == tag[i] as int - 32
           else item.primary[i + 2] == tag[i]
    case ControlFlowGuard =>
      item.primary == "deny-before-call:" + tag && item.secondary == "call-before-check:" + tag
    case SkillScopeActivation =>
      item.primary == "spreadsheet-read:" + tag && item.secondary == "shell-admin:" + tag
  }

  /** A scenario's oracle: none for the unrepairable control, and otherwise the routed branch of its role. */
  function ExpectedOracle(f: Family, role: Role): Option<Branch> {
    match role
    case RepairableTarget => Some(Safe)
    case NullControl => Some(Legacy)
    case UnrepairableControl => None
    case DistractorShiftHardNegative => Some(if SafeMatches(f) then Safe else Legacy)
  }

  /** Everything the cell of a family, a group and a role fixes about its scenario. */
  ghost predicate ScenarioSays(s: Secrets, partition: int, item: Scenario, g: nat) {
    var f, role := item.family, item.role;
    var tag := RoleText(role) + ":" + FamilyText(f) + "-" + Decimal(g) + "-" + s.salted(f, g);
    && item.taskId == s.task(f, g, role) && item.partition == partition && item.groupId == s.group(f, g)
    && (item.surface == Tool <==> f == ToolSchemaValidation || f == ToolRoutingAuthorization)
    && (item.context == Context0 <==> role == RepairableTarget || (role == DistractorShiftHardNegative && SafeMatches(f)))
    && (item.context == ContextX <==> role == UnrepairableControl)
    && InputsSay(item, tag)
    && item.oracle == ExpectedOracle(f, role)
    && (item.answer == Match <==> item.oracle.Some? && (item.oracle.value == Safe) == SafeMatches(f))
    && (if item.oracle.Some? then Shows(item, tag, item.oracle.value, item.observable)
        else ObservableText(item.observable) == "resolution=" + Quoted("defer:" + s.suffix(f, g, role)))
  }

  lemma TagSays(role: Role, f: Family, g: nat, salted: ShortHex)
    ensures TagOf(role, StemOf(f, g, salted)) == RoleText(role) + ":" + FamilyText(f) + "-" + Decimal(g) + "-" + salted
  {
    hide RoleText, FamilyText;
  }

  lemma InputsWritten(f: Family, tag: string, item: Scenario)
    requires item.family == f && item.primary == Primary(f, tag) && item.secondary == Secondary(f, tag)
    requires LowerText(tag)
    ensures InputsSay(item, tag)
  {
    match f {
      case PromptInstructionPrecedence =>
      case MemoryRetrievalIsolation =>
      case ToolSchemaValidation =>
      case ToolRoutingAuthorization =>
      case MiddlewareCanonicalization => MiddlewareInputs(tag, item);
      case ControlFlowGuard =>
      case SkillScopeActivation =>
    }
  }

  lemma MiddlewareInputs(tag: string, item: Scenario)
    requires item.family == MiddlewareCanonicalization && LowerText(tag)
    requires item.primary == Primary(MiddlewareCanonicalization, tag)
    requires item.secondary == Secondary(MiddlewareCanonicalization, tag)
    ensures InputsSay(item, tag)
  {
    ShownText(tag);
  }

  lemma OracleSays(f: Family, role: Role)
    ensures OracleOf(f, role) == ExpectedOracle(f, role)
  {
    EvenFamilies(f);
    OracleTable(f);
  }

  /** Every cell's scenario says what it has to. */
  lemma CellSays(s: Secrets, partition: int, f: Family, g: nat, role: Role)
    ensures var item := ScenarioOf(s, partition, f, g, role);
            item.family == f && item.role == role && ScenarioSays(s, partition, item, g)
  {
    hide InputsSay, Shows, Quoted, LabelText, StemOf, EvaluateBranch, BranchForRule, Primary, Secondary, LowerText;
    var item, tag := ScenarioOf(s, partition, f, g, role), TagOf(role, s.Stem(f, g));
    StemIsLower(f, g, s.salted(f, g));
    TagIsLower(role, s.Stem(f, g));
    TagSays(role, f, g, s.salted(f, g));
    InputsOf(s, partition, f, g, role);
    InputsWritten(f, tag, item);
    OracleSays(f, role);
    EvenFamilies(f);
    AnswerOfCell(s, partition, f, g, role);
    ResolutionSays();
    if role != UnrepairableControl {
      GoldOfCell(s, partition, f, g, role);
      BranchSays(s, partition, f, g, role, item.oracle.value);
    }
  }

  lemma GoldOfCell(s: Secrets, partition: int, f: Family, g: nat, role: Role)
    requires role != UnrepairableControl
    ensures var item := ScenarioOf(s, partition, f, g, role);
            item.oracle.Some? && EvaluateBranch(f, item.oracle.value, item.primary, item.secondary)
                                 == (item.answer, item.observable)
  {
    hide EvaluateBranch, BranchForRule, Primary, Secondary, TagOf;
  }

  lemma ResolutionSays()
    ensures LabelText(Resolution) == "resolution"
  {
  }

  /** Every scenario of a generated partition says what some group's cell fixes, for every number of groups. */
  lemma PartitionSays(s: Secrets, partition: int, k: nat, item: Scenario)
    requires item in Partition(s, partition, k)
    ensures exists g: nat :: g < k && ScenarioSays(s, partition, item, g)
  {
    hide ScenarioSays, Generated, Count, ScenarioOf, Partition;
    PartitionCount(s, partition, k, OracleCorrect);
    var i: nat :| i < |Generated(s, partition, k)| && Generated(s, partition, k)[i] == item;
    var v := GeneratedCell(s, partition, k, i);
    CellSays(s, partition, FAMILIES[v[0]], v[1], ROLES[v[2]]);
  }

  /** And every cell is there. */
  lemma EveryCellIsThere(s: Secrets, partition: int, k: nat, f: Family, g: nat, role: Role)
    requires g < k
    ensures exists item :: item in Partition(s, partition, k) && item.family == f && item.role == role
                        && ScenarioSays(s, partition, item, g)
  {
    hide ScenarioSays, Generated, Count, ScenarioOf, Partition;
    var r: nat := match role case RepairableTarget => 0 case NullControl => 1
      case UnrepairableControl => 2 case DistractorShiftHardNegative => 3;
    var i := CellIndex(s, partition, k, f, g, r);
    PartitionCount(s, partition, k, OracleCorrect);
    CellSays(s, partition, f, g, role);
    assert Generated(s, partition, k)[i] in Partition(s, partition, k);
  }

  // ---------------------------------------------------------------- exactly what the validator accepts

  /** When the validator's rules are checked. */
  function RuleOrder(rule: Rejection): nat {
    match rule
    case OnePartition => 1
    case EveryFamily => 2
    case EverySurface => 3
    case CompleteGroups => 4
    case UniqueGold => 5
    case Balance => 6
    case Envelope => 7
  }

  ghost predicate Obeys(items: seq<Scenario>, rule: Rejection) {
    match rule
    case OnePartition => items != [] && forall x, y :: x in items && y in items ==> x.partition == y.partition
    case EveryFamily => forall f: Family :: HasFamily(items, f)
    case EverySurface => forall u: Surface :: HasSurface(items, u)
    case CompleteGroups => forall x :: x in items ==> forall role :: Mates(items, x, role) == 1
    case UniqueGold =>
      forall i, j :: 0 <= i < j < |items| ==>
        items[i].answer != items[j].answer || items[i].observable != items[j].observable
    case Balance => Count(items, Answered(Match)) == Count(items, Answered(Different))
    case Envelope =>
      var oracle := Count(items, OracleCorrect);
      && (forall branch :: 100 * (oracle - Count(items, ConstantBranch(branch))) >= 30 * |items|)
      && (forall f :: 100 * (oracle - Count(items, FamilyPatch(f))) >= 30 * |items|)
      && (forall output :: 100 * Count(items, ExactOutput(output)) <= 5 * |items|)
  }

  ghost predicate HasFamily(items: seq<Scenario>, f: Family) {
    exists x :: x in items && x.family == f
  }

  ghost predicate HasSurface(items: seq<Scenario>, u: Surface) {
    exists x :: x in items && x.surface == u
  }

  /** How many scenarios of `x`'s family group have a role. */
  function Mates(items: seq<Scenario>, x: Scenario, role: Role): nat {
    Count(items, GroupMember((x.family, x.groupId), role))
  }

  lemma OnePartitionExactly(items: seq<Scenario>)
    ensures (items == [] || exists x :: x in items && x.partition != items[0].partition) <==> !Obeys(items, OnePartition)
  {
    if items != [] {
      assert items[0] in items;
      if !Obeys(items, OnePartition) {
        var x, y :| x in items && y in items && x.partition != y.partition;
        assert x.partition != items[0].partition || y.partition != items[0].partition;
      }
    }
  }

  lemma CoverageExactly(items: seq<Scenario>)
    ensures (exists f :: f in FAMILIES && !exists x :: x in items && x.family == f) <==> !Obeys(items, EveryFamily)
    ensures (exists f :: f in FAMILIES && !exists x :: x in items && x.surface == SurfaceOf(f))
       <==> !Obeys(items, EverySurface)
  {
    if !Obeys(items, EveryFamily) {
      var f :| !HasFamily(items, f);
      assert FAMILIES[Index(f)] == f;
      assert f in FAMILIES && !exists x :: x in items && x.family == f;
    } else {
      forall f | f in FAMILIES ensures exists x :: x in items && x.family == f {
        assert HasFamily(items, f);
      }
    }
    if !Obeys(items, EverySurface) {
      var u :| !HasSurface(items, u);
      var f := FamilyOf(u);
      assert SurfaceOf(f) == u && FAMILIES[Index(f)] == f;
      assert f in FAMILIES && !exists x :: x in items && x.surface == SurfaceOf(f);
    } else {
      forall f | f in FAMILIES ensures exists x :: x in items && x.surface == SurfaceOf(f) {
        assert HasSurface(items, SurfaceOf(f));
      }
    }
  }

  function FamilyOf(u: Surface): Family {
    match u
    case Prompt => PromptInstructionPrecedence
    case Memory => MemoryRetrievalIsolation
    case Tool => ToolSchemaValidation
    case Middleware => MiddlewareCanonicalization
    case ControlFlow => ControlFlowGuard
    case Skill => SkillScopeActivation
  }

  lemma {:induction false} InGroupMembers(items: seq<Scenario>, f: Family, group: int, x: Scenario)
    ensures x in InGroup(items, f, group) <==> x in items && x.family == f && x.groupId == group
    decreases |items|
  {
    if items != [] {
      var shorter, last := items[..|items| - 1], items[|items| - 1];
      InGroupMembers(shorter, f, group, x);
      assert x in items <==> x in shorter || x == last;
    }
  }

  lemma {:induction false} CountPositive(items: seq<Scenario>, q: Question)
    ensures Count(items, q) > 0 <==> exists x :: x in items && Holds(q, x)
    decreases |items|
  {
    hide Holds;
    if items != [] {
      var shorter, last := items[..|items| - 1], items[|items| - 1];
      CountPositive(shorter, q);
      assert last in items && forall x :: x in items <==> x in shorter || x == last;
    }
  }

  lemma RoleThere(items: seq<Scenario>, x: Scenario, role: Role)
    ensures role in RolesOf(InGroup(items, x.family, x.groupId)) <==> Mates(items, x, role) > 0
  {
    hide Count, InGroup;
    var q := GroupMember((x.family, x.groupId), role);
    CountPositive(items, q);
    var group := InGroup(items, x.family, x.groupId);
    forall y
      ensures y in group && y.role == role <==> y in items && Holds(q, y)
    {
      InGroupMembers(items, x.family, x.groupId, y);
    }
  }

  lemma CompleteExactly(items: seq<Scenario>, x: Scenario)
    ensures GroupComplete(InGroup(items, x.family, x.groupId)) <==> forall role :: Mates(items, x, role) == 1
  {
    hide Count, InGroup, RolesOf;
    GroupByRoles(items, x.family, x.groupId);
    RoleThere(items, x, RepairableTarget);
    RoleThere(items, x, NullControl);
    RoleThere(items, x, UnrepairableControl);
    RoleThere(items, x, DistractorShiftHardNegative);
    assert ROLES[0] == RepairableTarget && ROLES[1] == NullControl && ROLES[2] == UnrepairableControl
        && ROLES[3] == DistractorShiftHardNegative;
    var group := InGroup(items, x.family, x.groupId);
    if GroupComplete(group) {
      assert ROLES[0] in RolesOf(group) && ROLES[1] in RolesOf(group) && ROLES[2] in RolesOf(group)
          && ROLES[3] in RolesOf(group);
      forall role ensures Mates(items, x, role) == 1 {
        match role
        case RepairableTarget =>
        case NullControl =>
        case UnrepairableControl =>
        case DistractorShiftHardNegative =>
      }
    }
  }

  lemma GroupsExactly(items: seq<Scenario>)
    ensures GroupsComplete(items) <==> Obeys(items, CompleteGroups)
  {
    hide GroupComplete, InGroup, Mates;
    forall x | x in items
      ensures GroupComplete(InGroup(items, x.family, x.groupId)) <==> forall role :: Mates(items, x, role) == 1
    {
      CompleteExactly(items, x);
    }
  }

  lemma UniqueGoldExactly(items: seq<Scenario>)
    ensures |set item | item in items :: Gold(item)| == |items| <==> Obeys(items, UniqueGold)
  {
    hide Count;
    if Obeys(items, UniqueGold) {
      forall output ensures Count(items, ExactOutput(output)) <= 1 {
        forall i, j | 0 <= i < j < |items|
          ensures !(Holds(ExactOutput(output), items[i]) && Holds(ExactOutput(output), items[j]))
        {
        }
        AtMostOne(items, ExactOutput(output));
      }
      DistinctGold(items);
    } else {
      var i, j :| 0 <= i < j < |items| && Gold(items[i]) == Gold(items[j]);
      var output := Gold(items[i]);
      ExactlyGold(items[i], output);
      ExactlyGold(items[j], output);
      TwoHold(items, ExactOutput(output), i, j);
      GoldSetSize(items, output);
    }
  }

  /** `Most` is the greatest count, and some question reaches it. */
  lemma {:induction false} MostExactly(items: seq<Scenario>, questions: seq<Question>)
    ensures forall q :: q in questions ==> Count(items, q) <= Most(items, questions)
    ensures questions != [] ==> exists q :: q in questions && Count(items, q) == Most(items, questions)
    decreases |questions|
  {
    hide Count;
    if questions != [] {
      var shorter, last := questions[..|questions| - 1], questions[|questions| - 1];
      MostExactly(items, shorter);
      assert last in questions && forall q :: q in questions <==> q in shorter || q == last;
      if shorter == [] {
        assert Most(items, questions) == Count(items, last);
      }
    }
  }

  lemma BranchMost(items: seq<Scenario>, bound: int)
    ensures Most(items, [ConstantBranch(Safe), ConstantBranch(Legacy)]) <= bound
       <==> forall branch :: Count(items, ConstantBranch(branch)) <= bound
  {
    hide Count, Most;
    var questions := [ConstantBranch(Safe), ConstantBranch(Legacy)];
    MostExactly(items, questions);
    assert questions[0] in questions && questions[1] in questions;
    forall branch ensures ConstantBranch(branch) in questions {
      match branch
      case Safe =>
      case Legacy =>
    }
  }

  lemma FamilyMost(items: seq<Scenario>, bound: int)
    ensures Most(items, PatchQuestions()) <= bound <==> forall f :: Count(items, FamilyPatch(f)) <= bound
  {
    hide Count, Most;
    var questions := PatchQuestions();
    MostExactly(items, questions);
    forall f
      ensures FamilyPatch(f) in questions
    {
      assert questions[Index(f)] == FamilyPatch(f);
    }
  }

  lemma OutputMost(items: seq<Scenario>, bound: nat)
    ensures Most(items, OutputQuestions(items)) <= bound <==> forall output :: Count(items, ExactOutput(output)) <= bound
  {
    hide Count, Most;
    var questions := OutputQuestions(items);
    MostExactly(items, questions);
    forall q | q in questions
      ensures q.ExactOutput?
    {
    }
    forall output
      ensures Count(items, ExactOutput(output)) <= Most(items, questions)
    {
      CountPositive(items, ExactOutput(output));
      if Count(items, ExactOutput(output)) > 0 {
        var x :| x in items && Holds(ExactOutput(output), x);
        GoldIsOutput(items, x);
      }
    }
    if questions == [] {
      NoOutputs(items);
    }
  }

  lemma GoldIsOutput(items: seq<Scenario>, x: Scenario)
    requires x in items
    ensures ExactOutput(Gold(x)) in OutputQuestions(items)
  {
    hide EvaluateBranch, Gold;
    var i :| 0 <= i < |items| && items[i] == x;
    assert OutputQuestions(items)[2 * |items| + i] == ExactOutput(Gold(items[i]));
  }

  lemma NoOutputs(items: seq<Scenario>)
    requires OutputQuestions(items) == []
    ensures items == [] && Most(items, OutputQuestions(items)) == 0
  {
    assert |OutputQuestions(items)| == 3 * |items|;
  }

  lemma EnvelopeExactly(items: seq<Scenario>)
    ensures var s := AntiCheatSummary(items);
            (&& 100 * (s.oracle - s.constantBranch) >= 30 * s.count
             && 100 * (s.oracle - s.singleFamily) >= 30 * s.count
             && 100 * s.constantOutput <= 5 * s.count)
            <==> Obeys(items, Envelope)
  {
    hide Count, Most, OutputQuestions, PatchQuestions;
    var s, n := AntiCheatSummary(items), |items|;
    var margin := (100 * s.oracle - 30 * n) / 100;
    BranchMost(items, margin);
    FamilyMost(items, margin);
    OutputMost(items, 5 * n / 100);
    Margin(s.oracle, n, s.constantBranch);
    Margin(s.oracle, n, s.singleFamily);
    Ceiling(n, s.constantOutput);
    forall branch ensures 100 * (s.oracle - Count(items, ConstantBranch(branch))) >= 30 * n
                     <==> Count(items, ConstantBranch(branch)) <= margin {
      Margin(s.oracle, n, Count(items, ConstantBranch(branch)));
    }
    forall f ensures 100 * (s.oracle - Count(items, FamilyPatch(f))) >= 30 * n
                <==> Count(items, FamilyPatch(f)) <= margin {
      Margin(s.oracle, n, Count(items, FamilyPatch(f)));
    }
    forall output ensures 100 * Count(items, ExactOutput(output)) <= 5 * n
                     <==> Count(items, ExactOutput(output)) <= 5 * n / 100 {
      Ceiling(n, Count(items, ExactOutput(output)));
    }
  }

  lemma Margin(oracle: nat, n: nat, c: nat)
    ensures 100 * (oracle - c) >= 30 * n <==> c <= (100 * oracle - 30 * n) / 100
  {
  }

  lemma Ceiling(n: nat, c: nat)
    ensures 100 * c <= 5 * n <==> c <= 5 * n / 100
  {
  }

  lemma BalanceExactly(items: seq<Scenario>)
    ensures Count(items, Answered(Match)) == Count(items, Answered(Different)) <==> Obeys(items, Balance)
  {
    hide Count;
  }

  /** What the summary's numerators are: counts, and the greatest counts of the selectors. */
  ghost predicate SummarySays(items: seq<Scenario>, s: Summary) {
    && s.count == |items| && s.oracle == Count(items, OracleCorrect)
    && (exists branch :: s.constantBranch == Count(items, ConstantBranch(branch)))
    && (forall branch :: Count(items, ConstantBranch(branch)) <= s.constantBranch)
    && (exists f :: s.singleFamily == Count(items, FamilyPatch(f)))
    && (forall f :: Count(items, FamilyPatch(f)) <= s.singleFamily)
    && (items != [] ==> exists output :: s.constantOutput == Count(items, ExactOutput(output)))
    && (forall output :: Count(items, ExactOutput(output)) <= s.constantOutput)
  }

  lemma SummaryIs(items: seq<Scenario>)
    ensures SummarySays(items, AntiCheatSummary(items))
  {
    hide Count, Most, OutputQuestions, PatchQuestions;
    var s := AntiCheatSummary(items);
    BranchMost(items, s.constantBranch);
    FamilyMost(items, s.singleFamily);
    OutputMost(items, s.constantOutput);
    SelectorsReach(items);
  }

  lemma SelectorsReach(items: seq<Scenario>)
    ensures var s := AntiCheatSummary(items);
            && (exists branch :: s.constantBranch == Count(items, ConstantBranch(branch)))
            && (exists f :: s.singleFamily == Count(items, FamilyPatch(f)))
            && (items != [] ==> exists output :: s.constantOutput == Count(items, ExactOutput(output)))
  {
    hide Count, Most;
    var branches := [ConstantBranch(Safe), ConstantBranch(Legacy)];
    MostExactly(items, branches);
    var b :| b in branches && Count(items, b) == Most(items, branches);
    assert b == ConstantBranch(b.branch);
    var patches := PatchQuestions();
    MostExactly(items, patches);
    assert patches != [];
    var q :| q in patches && Count(items, q) == Most(items, patches);
    assert q == FamilyPatch(q.family);
    var outputs := OutputQuestions(items);
    if items != [] {
      MostExactly(items, outputs);
      assert |outputs| == 3 * |items|;
      var o :| o in outputs && Count(items, o) == Most(items, outputs);
      assert o.ExactOutput?;
      assert o == ExactOutput(o.output);
    }
  }

  /** The rules, one by one, as the validator's branches test them. */
  lemma RulesExactly(items: seq<Scenario>)
    ensures (items == [] || exists x :: x in items && x.partition != items[0].partition) <==> !Obeys(items, OnePartition)
    ensures (exists f :: f in FAMILIES && !exists x :: x in items && x.family == f) <==> !Obeys(items, EveryFamily)
    ensures (exists f :: f in FAMILIES && !exists x :: x in items && x.surface == SurfaceOf(f))
       <==> !Obeys(items, EverySurface)
    ensures GroupsComplete(items) <==> Obeys(items, CompleteGroups)
    ensures |set item | item in items :: Gold(item)| == |items| <==> Obeys(items, UniqueGold)
    ensures Count(items, Answered(Match)) == Count(items, Answered(Different)) <==> Obeys(items, Balance)
    ensures var s := AntiCheatSummary(items);
            (&& 100 * (s.oracle - s.constantBranch) >= 30 * s.count
             && 100 * (s.oracle - s.singleFamily) >= 30 * s.count
             && 100 * s.constantOutput <= 5 * s.count)
            <==> Obeys(items, Envelope)
  {
    hide *;
    OnePartitionExactly(items);
    CoverageExactly(items);
    GroupsExactly(items);
    UniqueGoldExactly(items);
    BalanceExactly(items);
    EnvelopeExactly(items);
  }

  lemma AcceptedObeys(items: seq<Scenario>, rule: Rejection)
    requires Validate(items).Ok?
    ensures Obeys(items, rule)
  {
    hide Obeys, GroupsComplete, Gold, AntiCheatSummary, Count;
    RulesExactly(items);
    match rule {
      case OnePartition =>
      case EveryFamily =>
      case EverySurface =>
      case CompleteGroups =>
      case UniqueGold =>
      case Balance =>
      case Envelope =>
    }
  }

  lemma RejectedBreaks(items: seq<Scenario>, rule: Rejection, earlier: Rejection)
    requires Validate(items) == Err(rule)
    ensures !Obeys(items, rule)
    ensures RuleOrder(earlier) < RuleOrder(rule) ==> Obeys(items, earlier)
  {
    hide Obeys, GroupsComplete, Gold, AntiCheatSummary, Count;
    RulesExactly(items);
    match earlier {
      case OnePartition =>
      case EveryFamily =>
      case EverySurface =>
      case CompleteGroups =>
      case UniqueGold =>
      case Balance =>
      case Envelope =>
    }
  }

  /** The validator accepts exactly what obeys every rule, and otherwise names the first rule broken. */
  lemma ValidatesExactly(items: seq<Scenario>)
    ensures match Validate(items)
            case Ok(s) => (forall rule :: Obeys(items, rule)) && SummarySays(items, s)
            case Err(rule) =>
              && !Obeys(items, rule)
              && forall earlier :: RuleOrder(earlier) < RuleOrder(rule) ==> Obeys(items, earlier)
  {
    SummaryIs(items);
    assert Validate(items).Ok? ==> Validate(items).value == AntiCheatSummary(items) by {
      hide GroupsComplete, Gold, AntiCheatSummary, Count;
    }
    hide *;
    if Validate(items).Ok? {
      forall rule ensures Obeys(items, rule) {
        AcceptedObeys(items, rule);
      }
    } else {
      var rule := Validate(items).error;
      forall earlier
        ensures !Obeys(items, rule)
        ensures RuleOrder(earlier) < RuleOrder(rule) ==> Obeys(items, earlier)
      {
        RejectedBreaks(items, rule, earlier);
      }
      RejectedBreaks(items, rule, rule);
    }
  }
}
