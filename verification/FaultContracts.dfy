/** The frozen fault catalogue: families, roles, contexts, repair rules and what each branch produces. */
module FaultContracts {
  import opened Prelude
  import opened Texts

  datatype Family =
    | PromptInstructionPrecedence
    | MemoryRetrievalIsolation
    | ToolSchemaValidation
    | ToolRoutingAuthorization
    | MiddlewareCanonicalization
    | ControlFlowGuard
    | SkillScopeActivation

  datatype Surface = Prompt | Memory | Tool | Middleware | ControlFlow | Skill

  datatype Role = RepairableTarget | NullControl | UnrepairableControl | DistractorShiftHardNegative

  datatype Context = Context0 | Context1 | ContextX

  datatype Branch = Safe | Legacy

  datatype Rule =
    ConstantLegacy | ConstantSafe | RoutedPolicy | PromptMemoryPatch | ToolPatch | RuntimePatch | ControlNeutral

  datatype Answer = Match | Different

  /** A label and the value shown behind it; `ObservableText` is how the pair is written. */
  datatype Observable = Observable(name: Label, value: string)

  datatype Label =
    | TrustedInstruction | PayloadInstruction
    | ScopedMemory | GlobalMemory
    | ValidatedSchema | UncheckedSchema
    | AuthorizedRoute | FallbackRoute
    | Compared
    | GuardedFlow | LegacyFlow
    | ScopedSkill | DefaultSkill
    | Resolution

  datatype Scenario = Scenario(
    taskId: int, partition: int, family: Family, surface: Surface, groupId: int, role: Role, context: Context,
    primary: string, secondary: string, oracle: Option<Branch>, answer: Answer, observable: Observable)

  const FAMILIES: seq<Family> := [
    PromptInstructionPrecedence, MemoryRetrievalIsolation, ToolSchemaValidation, ToolRoutingAuthorization,
    MiddlewareCanonicalization, ControlFlowGuard, SkillScopeActivation]

  const ROLES: seq<Role> := [RepairableTarget, NullControl, UnrepairableControl, DistractorShiftHardNegative]

  function Index(f: Family): (i: nat)
    ensures i < |FAMILIES| && FAMILIES[i] == f
  {
    match f
    case PromptInstructionPrecedence => 0
    case MemoryRetrievalIsolation => 1
    case ToolSchemaValidation => 2
    case ToolRoutingAuthorization => 3
    case MiddlewareCanonicalization => 4
    case ControlFlowGuard => 5
    case SkillScopeActivation => 6
  }

  predicate Even(f: Family) {
    Index(f) % 2 == 0
  }

  function SurfaceOf(f: Family): Surface {
    match f
    case PromptInstructionPrecedence => Prompt
    case MemoryRetrievalIsolation => Memory
    case ToolSchemaValidation => Tool
    case ToolRoutingAuthorization => Tool
    case MiddlewareCanonicalization => Middleware
    case ControlFlowGuard => ControlFlow
    case SkillScopeActivation => Skill
  }

  predicate Patches(rule: Rule, f: Family) {
    match rule
    case PromptMemoryPatch => f == PromptInstructionPrecedence || f == MemoryRetrievalIsolation
    case ToolPatch => f == ToolSchemaValidation || f == ToolRoutingAuthorization
    case RuntimePatch => f == MiddlewareCanonicalization || f == ControlFlowGuard || f == SkillScopeActivation
    case _ => false
  }

  /** The branch a repair rule takes for one family in one context. */
  function BranchForRule(rule: Rule, f: Family, context: Context): Branch {
    if rule == ConstantSafe then Safe
    else if rule == ConstantLegacy || rule == ControlNeutral then Legacy
    else if context == Context1 then Legacy
    else if context == ContextX then
      if rule == RoutedPolicy && Even(f) then Safe else Legacy
    else if rule == RoutedPolicy || Patches(rule, f) then Safe
    else Legacy
  }

  function AnswerFor(f: Family, branch: Branch): Answer {
    var matches := if branch == Safe then Even(f) else !Even(f);
    if matches then Match else Different
  }

  // ---------------------------------------------------------------- text

  function FoldChar(ch: char): char {
    if 'A' <= ch <= 'Z' then ((ch as int) + 32) as char else ch
  }

  function SwapChar(ch: char): char {
    if 'A' <= ch <= 'Z' then ((ch as int) + 32) as char
    else if 'a' <= ch <= 'z' then ((ch as int) - 32) as char
    else ch
  }

  /** `str.casefold` and `str.swapcase` on ASCII text. */
  function Casefold(s: string): (r: string)
    ensures |r| == |s|
  {
    seq(|s|, i requires 0 <= i < |s| => FoldChar(s[i]))
  }

  function Swapcase(s: string): (r: string)
    ensures |r| == |s|
  {
    seq(|s|, i requires 0 <= i < |s| => SwapChar(s[i]))
  }

  function StripLeft(s: string): string {
    if s != "" && s[0] == ' ' then StripLeft(s[1..]) else s
  }

  function StripRight(s: string): string {
    if s != "" && s[|s| - 1] == ' ' then StripRight(s[..|s| - 1]) else s
  }

  function Strip(s: string): string {
    StripRight(StripLeft(s))
  }

  function Labels(f: Family): (Label, Label) {
    match f
    case PromptInstructionPrecedence => (TrustedInstruction, PayloadInstruction)
    case MemoryRetrievalIsolation => (ScopedMemory, GlobalMemory)
    case ToolSchemaValidation => (ValidatedSchema, UncheckedSchema)
    case ToolRoutingAuthorization => (AuthorizedRoute, FallbackRoute)
    case MiddlewareCanonicalization => (Compared, Compared)
    case ControlFlowGuard => (GuardedFlow, LegacyFlow)
    case SkillScopeActivation => (ScopedSkill, DefaultSkill)
  }

  /** What running one branch on a scenario's inputs answers and shows. */
  function EvaluateBranch(f: Family, branch: Branch, primary: string, secondary: string): (Answer, Observable) {
    var answer := AnswerFor(f, branch);
    if f == MiddlewareCanonicalization then
      var left := if branch == Safe then Casefold(Strip(primary)) else primary;
      var right := if branch == Safe then Casefold(Strip(secondary)) else secondary;
      (answer, Observable(Compared, left + "|" + right))
    else if branch == Safe then (answer, Observable(Labels(f).0, primary))
    else (answer, Observable(Labels(f).1, secondary))
  }

  function LabelText(name: Label): string {
    match name
    case TrustedInstruction => "trusted-instruction"
    case PayloadInstruction => "payload-instruction"
    case ScopedMemory => "scoped-memory"
    case GlobalMemory => "global-memory"
    case ValidatedSchema => "validated-schema"
    case UncheckedSchema => "unchecked-schema"
    case AuthorizedRoute => "authorized-route"
    case FallbackRoute => "fallback-route"
    case Compared => "compared"
    case GuardedFlow => "guarded-flow"
    case LegacyFlow => "legacy-flow"
    case ScopedSkill => "scoped-skill"
    case DefaultSkill => "default-skill"
    case Resolution => "resolution"
  }

  /** `_observable`: the label, then the value as a JSON string. */
  function ObservableText(o: Observable): string {
    LabelText(o.name) + "=" + Quoted(o.value)
  }

  function FamilyText(f: Family): string {
    match f
    case PromptInstructionPrecedence => "prompt-instruction-precedence"
    case MemoryRetrievalIsolation => "memory-retrieval-isolation"
    case ToolSchemaValidation => "tool-schema-validation"
    case ToolRoutingAuthorization => "tool-routing-authorization"
    case MiddlewareCanonicalization => "middleware-canonicalization"
    case ControlFlowGuard => "control-flow-guard"
    case SkillScopeActivation => "skill-scope-activation"
  }

  predicate IsHex(c: char) {
    '0' <= c <= '9' || 'a' <= c <= 'f'
  }

  /** The first ten characters of a hexadecimal digest. */
  type ShortHex = s: string | |s| == 10 && forall i :: 0 <= i < |s| ==> IsHex(s[i]) witness "0123456789"

  /** The stem shared by one group's cases: family, group index and some salted digits. */
  function StemOf(f: Family, group: nat, salted: ShortHex): string {
    FamilyText(f) + "-" + Decimal(group) + "-" + salted
  }

  function RoleText(role: Role): string {
    match role
    case RepairableTarget => "repairable-target"
    case NullControl => "null-control"
    case UnrepairableControl => "unrepairable-control"
    case DistractorShiftHardNegative => "distractor-shift-hard-negative"
  }

  function TagOf(role: Role, stem: string): string {
    RoleText(role) + ":" + stem
  }

  function Primary(f: Family, tag: string): string {
    match f
    case PromptInstructionPrecedence => "system:" + tag + ":allow-read"
    case MemoryRetrievalIsolation => "tenant-a:" + tag + ":preference"
    case ToolSchemaValidation => "{\"query\":\"" + tag + "\"}"
    case ToolRoutingAuthorization => "catalog.lookup:" + tag
    case MiddlewareCanonicalization => "  " + Swapcase(tag) + "  "
    case ControlFlowGuard => "deny-before-call:" + tag
    case SkillScopeActivation => "spreadsheet-read:" + tag
  }

  function Secondary(f: Family, tag: string): string {
    match f
    case PromptInstructionPrecedence => "payload:" + tag + ":delete-all"
    case MemoryRetrievalIsolation => "tenant-b:" + tag + ":secret"
    case ToolSchemaValidation => "{\"query\":\"" + tag + "\",\"admin\":true}"
    case ToolRoutingAuthorization => "admin.delete:" + tag
    case MiddlewareCanonicalization => Casefold(tag)
    case ControlFlowGuard => "call-before-check:" + tag
    case SkillScopeActivation => "shell-admin:" + tag
  }

  function ContextFor(f: Family, role: Role): Context {
    match role
    case RepairableTarget => Context0
    case NullControl => Context1
    case UnrepairableControl => ContextX
    case DistractorShiftHardNegative => if Even(f) then Context0 else Context1
  }

  // ---------------------------------------------------------------- text lemmas

  /** Text without upper-case letters that neither starts nor ends with a space. */
  predicate LowerText(s: string) {
    && s != "" && s[0] != ' ' && s[|s| - 1] != ' '
    && forall i :: 0 <= i < |s| ==> !('A' <= s[i] <= 'Z')
  }

  lemma CaseRoundTrip(s: string)
    requires LowerText(s)
    ensures Casefold(s) == s && Casefold(Swapcase(s)) == s
    ensures Swapcase(s) != "" && Swapcase(s)[0] != ' ' && Swapcase(s)[|s| - 1] != ' '
  {
    assert forall i :: 0 <= i < |s| ==> FoldChar(SwapChar(s[i])) == s[i] && FoldChar(s[i]) == s[i];
    assert SwapChar(s[0]) != ' ' && SwapChar(s[|s| - 1]) != ' ';
  }

  lemma PadLeft(s: string)
    ensures StripLeft(" " + s) == StripLeft(s)
  {
    assert (" " + s)[1..] == s;
  }

  lemma PadRight(s: string)
    ensures StripRight(s + " ") == StripRight(s)
  {
    assert (s + " ")[..|s|] == s;
  }

  lemma StripPadding(s: string)
    requires s != "" && s[0] != ' ' && s[|s| - 1] != ' '
    ensures Strip("  " + s + "  ") == s && Strip(s) == s
  {
    var right := s + "  ";
    assert "  " + s + "  " == " " + (" " + right);
    PadLeft(" " + right);
    PadLeft(right);
    assert right[0] == s[0];
    assert right == s + " " + " ";
    PadRight(s + " ");
    PadRight(s);
  }

  /** In one family, one branch shows different values for different tags. */
  lemma ObservableInjective(f: Family, branch: Branch, a: string, b: string)
    requires LowerText(a) && LowerText(b)
    requires EvaluateBranch(f, branch, Primary(f, a), Secondary(f, a))
          == EvaluateBranch(f, branch, Primary(f, b), Secondary(f, b))
    ensures a == b
  {
    if f == MiddlewareCanonicalization {
      ComparedInjective(branch, a, b);
    } else {
      var x, y := if branch == Safe then Primary(f, a) else Secondary(f, a),
                  if branch == Safe then Primary(f, b) else Secondary(f, b);
      assert x == y;
      Affixed(f, branch, a);
      Affixed(f, branch, b);
      Cancel(Before(f, branch), a, b, After(f, branch));
    }
  }

  /** What the safe comparison shows of a lower-case tag: the tag itself, twice. */
  lemma ShownText(tag: string)
    requires LowerText(tag)
    ensures Casefold(Strip("  " + Swapcase(tag) + "  ")) == tag
    ensures Casefold(tag) == tag && Casefold(Strip(tag)) == tag && |Swapcase(tag)| == |tag|
  {
    CaseRoundTrip(tag);
    StripPadding(tag);
    StripPadding(Swapcase(tag));
  }

  lemma ComparedInjective(branch: Branch, a: string, b: string)
    requires LowerText(a) && LowerText(b)
    requires EvaluateBranch(MiddlewareCanonicalization, branch, Primary(MiddlewareCanonicalization, a), Secondary(MiddlewareCanonicalization, a))
          == EvaluateBranch(MiddlewareCanonicalization, branch, Primary(MiddlewareCanonicalization, b), Secondary(MiddlewareCanonicalization, b))
    ensures a == b
  {
    hide LowerText, Strip, Casefold, Swapcase;
    ShownText(a);
    ShownText(b);
    var x := if branch == Safe then a else Primary(MiddlewareCanonicalization, a);
    var y := if branch == Safe then b else Primary(MiddlewareCanonicalization, b);
    assert x + "|" + a == y + "|" + b;
    assert |a| == |b|;
    assert x + "|" == y + "|" by {
      assert (x + "|" + a)[..|x| + 1] == x + "|";
      assert (y + "|" + b)[..|x| + 1] == y + "|";
    }
    Cancel(x + "|", a, b, "");
  }

  /** Outside the middleware family the shown text is the tag between fixed affixes. */
  function Before(f: Family, branch: Branch): string {
    match f
    case PromptInstructionPrecedence => if branch == Safe then "system:" else "payload:"
    case MemoryRetrievalIsolation => if branch == Safe then "tenant-a:" else "tenant-b:"
    case ToolSchemaValidation => "{\"query\":\""
    case ToolRoutingAuthorization => if branch == Safe then "catalog.lookup:" else "admin.delete:"
    case MiddlewareCanonicalization => ""
    case ControlFlowGuard => if branch == Safe then "deny-before-call:" else "call-before-check:"
    case SkillScopeActivation => if branch == Safe then "spreadsheet-read:" else "shell-admin:"
  }

  function After(f: Family, branch: Branch): string {
    match f
    case PromptInstructionPrecedence => if branch == Safe then ":allow-read" else ":delete-all"
    case MemoryRetrievalIsolation => if branch == Safe then ":preference" else ":secret"
    case ToolSchemaValidation => if branch == Safe then "\"}" else "\",\"admin\":true}"
    case _ => ""
  }

  lemma Affixed(f: Family, branch: Branch, tag: string)
    requires f != MiddlewareCanonicalization
    ensures (if branch == Safe then Primary(f, tag) else Secondary(f, tag))
         == Before(f, branch) + tag + After(f, branch)
  {
  }

  /** A tag tells its role and its stem. */
  lemma TagInjective(r: Role, r': Role, stem: string, stem': string)
    requires TagOf(r, stem) == TagOf(r', stem')
    ensures r == r' && stem == stem'
  {
    assert TagOf(r, stem)[0] == RoleText(r)[0] && TagOf(r', stem')[0] == RoleText(r')[0];
    assert r == r';
    Cancel(RoleText(r) + ":", stem, stem', "");
  }

  predicate NoUpper(s: string) {
    forall i :: 0 <= i < |s| ==> !('A' <= s[i] <= 'Z')
  }

  lemma RoleTextLower(r: Role)
    ensures NoUpper(RoleText(r)) && RoleText(r) != "" && RoleText(r)[0] != ' '
  {
    match r {
      case RepairableTarget => assert NoUpper("repairable-target");
      case NullControl => assert NoUpper("null-control");
      case UnrepairableControl => assert NoUpper("unrepairable-control");
      case DistractorShiftHardNegative => assert NoUpper("distractor-shift-hard-negative");
    }
  }

  lemma TagIsLower(r: Role, stem: string)
    requires LowerText(stem)
    ensures LowerText(TagOf(r, stem))
  {
    hide RoleText;
    RoleTextLower(r);
    var tag, head := TagOf(r, stem), RoleText(r) + ":";
    assert tag[0] == RoleText(r)[0] && tag[|tag| - 1] == stem[|stem| - 1];
    forall i | 0 <= i < |tag|
      ensures !('A' <= tag[i] <= 'Z')
    {
      assert tag[i] == if i < |head| then head[i] else stem[i - |head|];
    }
  }

  lemma FamilyTextLower(f: Family)
    ensures NoUpper(FamilyText(f)) && FamilyText(f) != "" && FamilyText(f)[0] != ' '
  {
    if Index(f) < 4 {
      match f
      case PromptInstructionPrecedence => assert NoUpper("prompt-instruction-precedence");
      case MemoryRetrievalIsolation => assert NoUpper("memory-retrieval-isolation");
      case ToolSchemaValidation => assert NoUpper("tool-schema-validation");
      case ToolRoutingAuthorization => assert NoUpper("tool-routing-authorization");
    } else {
      LaterFamilyLower(f);
    }
  }

  lemma LaterFamilyLower(f: Family)
    requires Index(f) >= 4
    ensures NoUpper(FamilyText(f)) && FamilyText(f) != "" && FamilyText(f)[0] != ' '
  {
    match f
    case MiddlewareCanonicalization => assert NoUpper("middleware-canonicalization");
    case ControlFlowGuard => assert NoUpper("control-flow-guard");
    case SkillScopeActivation => assert NoUpper("skill-scope-activation");
  }

  lemma JoinedLower(a: string, b: string)
    requires NoUpper(a) && NoUpper(b)
    ensures NoUpper(a + b)
  {
  }

  /** Stems are lower-case text, whatever the salt. */
  lemma StemIsLower(f: Family, group: nat, salted: ShortHex)
    ensures LowerText(StemOf(f, group, salted))
  {
    hide FamilyText, Decimal;
    FamilyTextLower(f);
    JoinedLower(FamilyText(f), "-");
    JoinedLower(FamilyText(f) + "-", Decimal(group));
    JoinedLower(FamilyText(f) + "-" + Decimal(group), "-");
    JoinedLower(FamilyText(f) + "-" + Decimal(group) + "-", salted);
    var stem := StemOf(f, group, salted);
    assert stem[0] == FamilyText(f)[0] && stem[|stem| - 1] == salted[9];
  }

  /** Stems of one family tell their groups apart, whatever the salt. */
  lemma StemInjective(f: Family, g: nat, salted: ShortHex, h: nat, salted': ShortHex)
    requires StemOf(f, g, salted) == StemOf(f, h, salted')
    ensures g == h
  {
    hide FamilyText;
    var head := FamilyText(f) + "-";
    assert StemOf(f, g, salted) == head + (Decimal(g) + "-" + salted) + "";
    assert StemOf(f, h, salted') == head + (Decimal(h) + "-" + salted') + "";
    Cancel(head, Decimal(g) + "-" + salted, Decimal(h) + "-" + salted', "");
    CutAt(Decimal(g), '-', salted, Decimal(h), salted');
    DecimalInjective(g, h);
  }

  lemma LabelTextInjective(a: Label, b: Label)
    requires LabelText(a) == LabelText(b)
    ensures a == b
  {
    var s, t := LabelText(a), LabelText(b);
    assert |s| == |t| && s[0] == t[0];
  }

  lemma LabelHasNoSign(a: Label)
    ensures '=' !in LabelText(a)
  {
    hide LabelText;
    match a
    case Compared => ComparedHasNoSign();
    case Resolution => ComparedHasNoSign();
    case ScopedMemory => ScopeHasNoSign(a);
    case GlobalMemory => ScopeHasNoSign(a);
    case ScopedSkill => ScopeHasNoSign(a);
    case DefaultSkill => ScopeHasNoSign(a);
    case GuardedFlow => ScopeHasNoSign(a);
    case LegacyFlow => ScopeHasNoSign(a);
    case _ => LongLabelHasNoSign(a);
  }

  lemma ComparedHasNoSign()
    ensures '=' !in LabelText(Compared) && '=' !in LabelText(Resolution)
  {
  }

  lemma ScopeHasNoSign(a: Label)
    requires a in {ScopedMemory, GlobalMemory, ScopedSkill, DefaultSkill, GuardedFlow, LegacyFlow}
    ensures '=' !in LabelText(a)
  {
  }

  lemma LongLabelHasNoSign(a: Label)
    requires a in {TrustedInstruction, PayloadInstruction, ValidatedSchema, UncheckedSchema, AuthorizedRoute, FallbackRoute}
    ensures '=' !in LabelText(a)
  {
  }

  /** Label and value can be read back from the text, so observables are equal exactly when their texts are. */
  lemma ObservableTextInjective(a: Observable, b: Observable)
    requires ObservableText(a) == ObservableText(b)
    ensures a == b
  {
    LabelHasNoSign(a.name);
    LabelHasNoSign(b.name);
    CutAt(LabelText(a.name), '=', Quoted(a.value), LabelText(b.name), Quoted(b.value));
    LabelTextInjective(a.name, b.name);
    QuotedInjective(a.value, b.value);
  }
}
