/** Budgeted execution of a frozen multi-agent workflow against arbitrary backends. */
module AgentRunner {
  import opened Prelude
  import opened AgentContracts

  /** What one backend call yields: an exception, or a response that is validated as untrusted data. */
  datatype Reply = Raised | Replied(response: Response)

  /** The n-th call's behaviour; nothing is assumed of it. */
  type Backends = (nat, Request) -> Reply

  datatype Setup = Setup(
    team: Team, workflow: Workflow, identities: map<int, (int, int)>, task: Task, backends: Backends, hashing: Hashing)

  datatype BindingError =
    | OtherTeam | TooManyTurns | UnknownAgents | UnusedAgents | CoordinatorNotLast | OtherRoster | OtherIdentity

  datatype Failure =
    | ContextBudget | BackendFailed | ChangedBinding | TurnOutputBudget | TotalOutputBudget | TokenBudget

  datatype RunError = RunError(failure: Failure, completed: seq<Record>)

  function AgentIds(team: Team): set<int> {
    set a | a in team.agents :: a.id
  }

  function Scheduled(w: Workflow): set<int> {
    set t | t in w.turns :: t.agent
  }

  predicate IdentitiesMatch(team: Team, identities: map<int, (int, int)>) {
    forall a :: a in team.agents ==> a.id in identities && identities[a.id] == (a.model, a.runtime)
  }

  /** `_validate_bindings`. */
  function ValidateBindings(s: Setup): Result<(), BindingError>
    requires s.workflow.turns != []
  {
    var turns := s.workflow.turns;
    if s.workflow.team != s.team.fingerprint then Err(OtherTeam)
    else if |turns| > s.team.maxTurns then Err(TooManyTurns)
    else if !(Scheduled(s.workflow) <= AgentIds(s.team)) then Err(UnknownAgents)
    else if !(AgentIds(s.team) <= Scheduled(s.workflow)) then Err(UnusedAgents)
    else if turns[|turns| - 1].agent != s.team.coordinator then Err(CoordinatorNotLast)
    else if s.identities.Keys != AgentIds(s.team) then Err(OtherRoster)
    else if !IdentitiesMatch(s.team, s.identities) then Err(OtherIdentity)
    else Ok(())
  }

  /** When a runner's binding rules are checked. */
  function BindingOrder(rule: BindingError): nat {
    match rule
    case OtherTeam => 1
    case TooManyTurns => 2
    case UnknownAgents => 3
    case UnusedAgents => 4
    case CoordinatorNotLast => 5
    case OtherRoster => 6
    case OtherIdentity => 7
  }

  ghost predicate BindingHolds(s: Setup, rule: BindingError)
    requires s.workflow.turns != []
  {
    var agents, turns := s.team.agents, s.workflow.turns;
    match rule
    case OtherTeam => s.workflow.team == s.team.fingerprint
    case TooManyTurns => |turns| <= s.team.maxTurns
    case UnknownAgents => forall t :: t in turns ==> exists a :: a in agents && a.id == t.agent
    case UnusedAgents => forall a :: a in agents ==> exists t :: t in turns && t.agent == a.id
    case CoordinatorNotLast => turns[|turns| - 1].agent == s.team.coordinator
    case OtherRoster => forall id :: id in s.identities <==> exists a :: a in agents && a.id == id
    case OtherIdentity => forall a :: a in agents ==> a.id in s.identities && s.identities[a.id] == (a.model, a.runtime)
  }

  lemma ScheduledAgents(s: Setup)
    requires s.workflow.turns != []
    ensures Scheduled(s.workflow) <= AgentIds(s.team) <==> BindingHolds(s, UnknownAgents)
    ensures AgentIds(s.team) <= Scheduled(s.workflow) <==> BindingHolds(s, UnusedAgents)
  {
    var scheduled, agents := Scheduled(s.workflow), AgentIds(s.team);
    assert forall t :: t in s.workflow.turns ==> t.agent in scheduled;
    assert forall a :: a in s.team.agents ==> a.id in agents;
    assert forall id :: id in scheduled ==> exists t :: t in s.workflow.turns && t.agent == id;
    assert forall id :: id in agents ==> exists a :: a in s.team.agents && a.id == id;
  }

  lemma RosterMatches(s: Setup)
    requires s.workflow.turns != []
    ensures s.identities.Keys == AgentIds(s.team) <==> BindingHolds(s, OtherRoster)
  {
    var ids := AgentIds(s.team);
    forall id
      ensures id in ids <==> exists a :: a in s.team.agents && a.id == id
    {
    }
    if BindingHolds(s, OtherRoster) {
      forall id
        ensures id in s.identities.Keys <==> id in ids
      {
        assert id in s.identities.Keys <==> id in s.identities;
      }
      assert s.identities.Keys == ids;
    } else {
      var id :| (id in s.identities) != (exists a :: a in s.team.agents && a.id == id);
      assert (id in s.identities.Keys) != (id in ids);
    }
  }

  /** `rule` is the first binding rule that the setup breaks. */
  ghost predicate FirstUnbound(s: Setup, rule: BindingError)
    requires s.workflow.turns != []
  {
    && !BindingHolds(s, rule)
    && forall earlier :: BindingOrder(earlier) < BindingOrder(rule) ==> BindingHolds(s, earlier)
  }

  /** Bindings are accepted exactly when every rule holds, and otherwise rejected for the first that does not. */
  lemma BindingsExactly(s: Setup)
    requires s.workflow.turns != []
    ensures match ValidateBindings(s)
            case Ok(_) => forall rule :: BindingHolds(s, rule)
            case Err(rule) => FirstUnbound(s, rule)
  {
    hide ValidateBindings, BindingHolds;
    if ValidateBindings(s).Ok? {
      AcceptedBindings(s);
    } else {
      RejectedBindings(s, ValidateBindings(s).error);
    }
  }

  lemma AcceptedBindings(s: Setup)
    requires s.workflow.turns != [] && ValidateBindings(s).Ok?
    ensures forall rule :: BindingHolds(s, rule)
  {
    hide BindingHolds, IdentitiesMatch, Scheduled, AgentIds;
    ScheduledAgents(s);
    RosterMatches(s);
    PlainBindings(s);
    forall rule
      ensures BindingHolds(s, rule)
    {
      match rule case OtherTeam => case TooManyTurns => case UnknownAgents => case UnusedAgents =>
        case CoordinatorNotLast => case OtherRoster => case OtherIdentity =>
    }
  }

  lemma RejectedBindings(s: Setup, rule: BindingError)
    requires s.workflow.turns != [] && ValidateBindings(s) == Err(rule)
    ensures FirstUnbound(s, rule)
  {
    hide BindingHolds, IdentitiesMatch, Scheduled, AgentIds;
    ScheduledAgents(s);
    RosterMatches(s);
    PlainBindings(s);
    forall earlier | BindingOrder(earlier) < BindingOrder(rule)
      ensures BindingHolds(s, earlier)
    {
      match earlier case OtherTeam => case TooManyTurns => case UnknownAgents => case UnusedAgents =>
        case CoordinatorNotLast => case OtherRoster => case OtherIdentity =>
    }
  }

  lemma PlainBindings(s: Setup)
    requires s.workflow.turns != []
    ensures BindingHolds(s, OtherTeam) <==> s.workflow.team == s.team.fingerprint
    ensures BindingHolds(s, TooManyTurns) <==> |s.workflow.turns| <= s.team.maxTurns
    ensures BindingHolds(s, CoordinatorNotLast)
       <==> s.workflow.turns[|s.workflow.turns| - 1].agent == s.team.coordinator
    ensures BindingHolds(s, OtherIdentity) <==> IdentitiesMatch(s.team, s.identities)
  {
  }

  /** A runner exists: the workflow is an ordered DAG of closed turns and the bindings hold. */
  ghost predicate Ready(s: Setup) {
    && OrderedDag(s.workflow)
    && (forall t :: t in s.workflow.turns ==> TurnCloses(t))
    && ValidateBindings(s).Ok?
  }

  function AgentOf(s: Setup, id: int): (agent: Agent)
    requires id in AgentIds(s.team)
    ensures agent in s.team.agents && agent.id == id
  {
    FindAgent(s.team.agents, id)
  }

  function FindAgent(agents: seq<Agent>, id: int): (agent: Agent)
    requires exists a :: a in agents && a.id == id
    ensures agent in agents && agent.id == id
  {
    if agents[0].id == id then agents[0] else FindAgent(agents[1..], id)
  }

  // ---------------------------------------------------------------- one turn

  /** The record of a finished turn. */
  function RecordOf(records: seq<Record>, turn: int): (r: Record)
    requires exists k :: 0 <= k < |records| && records[k].request.turn == turn
    ensures exists k :: 0 <= k < |records| && records[k] == r && r.request.turn == turn
  {
    if records[|records| - 1].request.turn == turn then records[|records| - 1]
    else RecordOf(records[..|records| - 1], turn)
  }

  /** The records so far are the first turns of the workflow, in order. */
  ghost predicate FollowsWorkflow(s: Setup, records: seq<Record>) {
    && |records| <= |s.workflow.turns|
    && forall k :: 0 <= k < |records| ==> records[k].request.turn == s.workflow.turns[k].id
  }

  lemma DependencyFinished(s: Setup, records: seq<Record>, dependency: int)
    requires Ready(s) && FollowsWorkflow(s, records) && |records| < |s.workflow.turns|
    requires dependency in s.workflow.turns[|records|].dependsOn
    ensures exists k :: 0 <= k < |records| && records[k].request.turn == dependency
  {
    var turns := s.workflow.turns;
    assert DependsBackward(turns, |records|);
    var ids := TurnIds(turns[..|records|]);
    var k: nat :| k < |ids| && ids[k] == dependency;
    assert records[k].request.turn == turns[k].id;
  }

  lemma TurnAgentKnown(s: Setup, i: nat)
    requires Ready(s) && i < |s.workflow.turns|
    ensures s.workflow.turns[i].agent in AgentIds(s.team)
  {
    assert s.workflow.turns[i] in s.workflow.turns;
    assert s.workflow.turns[i].agent in Scheduled(s.workflow);
  }

  /** The outputs of exactly the declared dependencies, in declaration order. */
  function Disclosed(s: Setup, records: seq<Record>): (outputs: seq<DependencyOutput>)
    requires Ready(s) && FollowsWorkflow(s, records) && |records| < |s.workflow.turns|
    ensures |outputs| == |s.workflow.turns[|records|].dependsOn|
  {
    var depends := s.workflow.turns[|records|].dependsOn;
    seq(|depends|, i requires 0 <= i < |depends| =>
      DependencyFinished(s, records, depends[i]); OutputOf(RecordOf(records, depends[i]), s.hashing))
  }

  function RequestFor(s: Setup, records: seq<Record>): Request
    requires Ready(s) && FollowsWorkflow(s, records) && |records| < |s.workflow.turns|
  {
    var turn := s.workflow.turns[|records|];
    TurnAgentKnown(s, |records|);
    var agent := AgentOf(s, turn.agent);
    Request(
      s.team.fingerprint, s.workflow.fingerprint, s.task, turn.id, agent.id, agent.role, agent.instruction,
      turn.objective, Disclosed(s, records))
  }

  /** The response names exactly this request, turn, agent and backend identity. */
  predicate Bound(s: Setup, agent: Agent, request: Request, response: Response) {
    && response.request == s.hashing.ofRequest(request)
    && response.turn == request.turn && response.agent == request.agent
    && response.model == agent.model && response.runtime == agent.runtime
  }

  /** One turn after `records`: its record, or the first rule it breaks. */
  function Step(s: Setup, records: seq<Record>): Result<Record, Failure>
    requires Ready(s) && FollowsWorkflow(s, records) && |records| < |s.workflow.turns|
  {
    var request := RequestFor(s, records);
    TurnAgentKnown(s, |records|);
    var agent := AgentOf(s, s.workflow.turns[|records|].agent);
    if s.hashing.size(request) > s.team.maxContextBytes then Err(ContextBudget)
    else
      var reply := s.backends(|records|, request);
      if reply.Raised? || reply.response.content == [] then Err(BackendFailed)
      else if !Bound(s, agent, request, reply.response) then Err(ChangedBinding)
      else
        var record := Record(request, reply.response);
        if |reply.response.content| > s.team.maxOutputBytesPerTurn then Err(TurnOutputBudget)
        else if OutputBytes(records) + |reply.response.content| > s.team.maxTotalOutputBytes then
          Err(TotalOutputBudget)
        else if InputTokens(records) + OutputTokens(records) + reply.response.inputTokens
                + reply.response.outputTokens > s.team.maxTotalTokens then Err(TokenBudget)
        else Ok(record)
  }

  /** The first `n` turns. */
  function Turns(s: Setup, n: nat): (r: Result<seq<Record>, RunError>)
    requires Ready(s) && n <= |s.workflow.turns|
    ensures r.Ok? ==> |r.value| == n && FollowsWorkflow(s, r.value)
    decreases n
  {
    if n == 0 then Ok([])
    else
      var before := Turns(s, n - 1);
      if before.Err? then before
      else
        var next := Step(s, before.value);
        if next.Err? then Err(RunError(next.error, before.value)) else Ok(before.value + [next.value])
  }

  function RunOf(s: Setup, records: seq<Record>): Run
    requires records != []
  {
    var last := records[|records| - 1];
    Run(
      s.team.fingerprint, s.workflow.fingerprint, s.hashing.ofTask(s.task), records, s.workflow.finalTurn,
      last.response.content, InputTokens(records), OutputTokens(records), OutputBytes(records))
  }

  function Outcome(s: Setup): Result<Run, RunError>
    requires Ready(s)
  {
    var records := Turns(s, |s.workflow.turns|);
    if records.Err? then Err(records.error) else Ok(RunOf(s, records.value))
  }

  // ---------------------------------------------------------------- the rules of a turn

  /** What the request of the turn after `records` has to say, field by field. */
  ghost predicate RequestSays(s: Setup, records: seq<Record>, q: Request)
    requires |records| < |s.workflow.turns|
  {
    var turn := s.workflow.turns[|records|];
    && q.team == s.team.fingerprint && q.workflow == s.workflow.fingerprint && q.task == s.task
    && q.turn == turn.id && q.agent == turn.agent && q.objective == turn.objective
    && (exists a :: a in s.team.agents && a.id == q.agent && a.role == q.role && a.instruction == q.instruction)
    && |q.dependencies| == |turn.dependsOn|
    && forall i :: 0 <= i < |turn.dependsOn| ==> DependencySays(s, records, turn.dependsOn[i], q.dependencies[i])
  }

  /** A disclosed output repeats the finished record of the turn it is declared for. */
  ghost predicate DependencySays(s: Setup, records: seq<Record>, turn: int, d: DependencyOutput) {
    exists j :: 0 <= j < |records|
             && records[j].request.turn == turn == d.turn && records[j].request.agent == d.agent
             && records[j].response.content == d.content && s.hashing.ofContent(d.content) == d.contentHash
  }

  /** When the rules of a turn are checked. */
  function TurnOrder(rule: Failure): nat {
    match rule
    case ContextBudget => 1
    case BackendFailed => 2
    case ChangedBinding => 3
    case TurnOutputBudget => 4
    case TotalOutputBudget => 5
    case TokenBudget => 6
  }

  ghost predicate TurnHolds(s: Setup, records: seq<Record>, q: Request, rule: Failure) {
    var reply := s.backends(|records|, q);
    match rule
    case ContextBudget => s.hashing.size(q) <= s.team.maxContextBytes
    case BackendFailed => reply.Replied? && reply.response.content != []
    case ChangedBinding =>
      && reply.Replied?
      && reply.response.request == s.hashing.ofRequest(q)
      && reply.response.turn == q.turn && reply.response.agent == q.agent
      && (exists a :: a in s.team.agents && a.id == q.agent && a.role == q.role && a.instruction == q.instruction
                   && a.model == reply.response.model && a.runtime == reply.response.runtime)
    case TurnOutputBudget => reply.Replied? && |reply.response.content| <= s.team.maxOutputBytesPerTurn
    case TotalOutputBudget =>
      reply.Replied? && OutputBytes(records + [Record(q, reply.response)]) <= s.team.maxTotalOutputBytes
    case TokenBudget =>
      var finished := records + [Record(q, if reply.Replied? then reply.response else EMPTY_RESPONSE)];
      reply.Replied? && InputTokens(finished) + OutputTokens(finished) <= s.team.maxTotalTokens
  }

  const EMPTY_RESPONSE: Response := Response(0, 0, 0, 0, 0, [], 0, 0)

  /** `rule` is the first rule that the turn after `records` breaks. */
  ghost predicate FirstBroken(s: Setup, records: seq<Record>, q: Request, rule: Failure) {
    && !TurnHolds(s, records, q, rule)
    && forall earlier :: TurnOrder(earlier) < TurnOrder(rule) ==> TurnHolds(s, records, q, earlier)
  }

  lemma BuiltRequestSays(s: Setup, records: seq<Record>)
    requires Ready(s) && FollowsWorkflow(s, records) && |records| < |s.workflow.turns|
    ensures RequestSays(s, records, RequestFor(s, records))
  {
    hide Ready, ValidateBindings;
    TurnAgentKnown(s, |records|);
    var turn, q := s.workflow.turns[|records|], RequestFor(s, records);
    forall i | 0 <= i < |turn.dependsOn|
      ensures DependencySays(s, records, turn.dependsOn[i], q.dependencies[i])
    {
      DisclosedExactly(s, records, i);
      DependencyFinished(s, records, turn.dependsOn[i]);
      var r := RecordOf(records, turn.dependsOn[i]);
      var j :| 0 <= j < |records| && records[j] == r && r.request.turn == turn.dependsOn[i];
      assert q.dependencies[i] == OutputOf(records[j], s.hashing);
    }
  }

  /** A turn succeeds exactly when no rule is broken, and otherwise fails for the first broken one. */
  lemma StepExactly(s: Setup, records: seq<Record>)
    requires Ready(s) && FollowsWorkflow(s, records) && |records| < |s.workflow.turns|
    requires AgentsUnique(s.team)
    ensures var q := RequestFor(s, records);
            match Step(s, records)
            case Ok(record) =>
              && record.request == q && s.backends(|records|, q) == Replied(record.response)
              && forall rule :: TurnHolds(s, records, q, rule)
            case Err(rule) => FirstBroken(s, records, q, rule)
  {
    hide Ready, Disclosed, OutputBytes, InputTokens, OutputTokens;
    TurnAgentKnown(s, |records|);
    var q, agent := RequestFor(s, records), AgentOf(s, s.workflow.turns[|records|].agent);
    var reply := s.backends(|records|, q);
    if reply.Replied? {
      TotalsGrow(records, Record(q, reply.response));
    }
    BoundExactly(s, agent, q);
  }

  /** Agent IDs are unique, as the team manifest requires. */
  ghost predicate AgentsUnique(team: Team) {
    forall a, b :: a in team.agents && b in team.agents && a.id == b.id ==> a == b
  }

  lemma BoundExactly(s: Setup, agent: Agent, q: Request)
    requires AgentsUnique(s.team) && agent in s.team.agents
    requires q.agent == agent.id && q.role == agent.role && q.instruction == agent.instruction
    ensures forall records, response | s.backends(|records|, q) == Replied(response) ::
              TurnHolds(s, records, q, ChangedBinding) <==> Bound(s, agent, q, response)
  {
  }

  // ---------------------------------------------------------------- what every execution keeps

  /** What is known of the `k`-th record of any execution. */
  ghost predicate Executed(s: Setup, records: seq<Record>, k: nat)
    requires Ready(s) && FollowsWorkflow(s, records) && k < |records|
  {
    var agent := AgentAt(s, k);
    && records[k].request == RequestFor(s, records[..k])
    && s.backends(k, records[k].request) == Replied(records[k].response)
    && s.hashing.size(records[k].request) <= s.team.maxContextBytes
    && Bound(s, agent, records[k].request, records[k].response)
    && 0 < |records[k].response.content| <= s.team.maxOutputBytesPerTurn
  }

  ghost function AgentAt(s: Setup, k: nat): Agent
    requires Ready(s) && k < |s.workflow.turns|
  {
    TurnAgentKnown(s, k);
    AgentOf(s, s.workflow.turns[k].agent)
  }

  /** Every completed prefix: each record is its turn's exact request and bound response, within all budgets. */
  lemma {:induction false} TurnsKeepRules(s: Setup, n: nat)
    requires Ready(s) && n <= |s.workflow.turns| && Turns(s, n).Ok?
    ensures forall k :: 0 <= k < n ==> Executed(s, Turns(s, n).value, k)
    ensures OutputBytes(Turns(s, n).value) <= s.team.maxTotalOutputBytes
    ensures InputTokens(Turns(s, n).value) + OutputTokens(Turns(s, n).value) <= s.team.maxTotalTokens
    decreases n
  {
    hide RequestFor, Bound, Ready;
    if n > 0 {
      TurnsKeepRules(s, n - 1);
      var before, all := Turns(s, n - 1).value, Turns(s, n).value;
      assert all[..n - 1] == before;
      forall k | 0 <= k < n
        ensures Executed(s, all, k)
      {
        if k < n - 1 {
          assert Executed(s, before, k);
          assert all[..k] == before[..k];
        }
      }
    }
  }

  /** A failed execution stops at some turn and carries exactly the records completed before it. */
  lemma {:induction false} ErrorsCarryPrefix(s: Setup, n: nat)
    requires Ready(s) && n <= |s.workflow.turns| && Turns(s, n).Err?
    ensures var e := Turns(s, n).error;
            && |e.completed| < n
            && Turns(s, |e.completed|) == Ok(e.completed)
            && Step(s, e.completed) == Err(e.failure)
            && (AgentsUnique(s.team) ==>
                  exists q :: RequestSays(s, e.completed, q) && FirstBroken(s, e.completed, q, e.failure))
    decreases n
  {
    hide Step, Ready, RequestSays, FirstBroken, AgentsUnique;
    if Turns(s, n - 1).Err? {
      ErrorsCarryPrefix(s, n - 1);
    } else if AgentsUnique(s.team) {
      var completed := Turns(s, n - 1).value;
      StepExactly(s, completed);
      BuiltRequestSays(s, completed);
    }
  }

  lemma DisclosedExactly(s: Setup, records: seq<Record>, i: nat)
    requires Ready(s) && FollowsWorkflow(s, records) && |records| < |s.workflow.turns|
    requires i < |s.workflow.turns[|records|].dependsOn|
    ensures var d := Disclosed(s, records)[i];
            && d.turn == s.workflow.turns[|records|].dependsOn[i]
            && exists j :: 0 <= j < |records| && d == OutputOf(records[j], s.hashing)
  {
    var dependency := s.workflow.turns[|records|].dependsOn[i];
    DependencyFinished(s, records, dependency);
    var r := RecordOf(records, dependency);
    var j :| 0 <= j < |records| && records[j] == r;
    assert Disclosed(s, records)[i] == OutputOf(records[j], s.hashing);
  }

  /** Each request discloses its declared dependencies' outputs, all of them, in order, and nothing else. */
  ghost predicate DisclosesDeclared(s: Setup, records: seq<Record>, k: nat)
    requires k < |records| <= |s.workflow.turns|
  {
    DisclosedTurns(records[k].request.dependencies) == s.workflow.turns[k].dependsOn
    && DisclosesEarlier(records, s.hashing, k)
  }

  lemma RecordDiscloses(s: Setup, records: seq<Record>, k: nat)
    requires Ready(s) && FollowsWorkflow(s, records) && k < |records| && Executed(s, records, k)
    ensures DisclosesDeclared(s, records, k)
    ensures NoDuplicates(DisclosedTurns(records[k].request.dependencies))
  {
    hide Ready, Disclosed, Bound, OutputOf, NoDuplicates;
    var before := records[..k];
    var outputs := Disclosed(s, before);
    assert records[k].request.dependencies == outputs;
    forall i | 0 <= i < |outputs|
      ensures outputs[i].turn == s.workflow.turns[k].dependsOn[i]
      ensures IsEarlierOutput(records, s.hashing, k, outputs[i])
    {
      DisclosedExactly(s, before, i);
      var j :| 0 <= j < |before| && outputs[i] == OutputOf(before[j], s.hashing);
      assert before[j] == records[j];
    }
    assert DisclosedTurns(outputs) == s.workflow.turns[k].dependsOn;
    DeclaredOnce(s, k);
  }

  lemma DeclaredOnce(s: Setup, k: nat)
    requires Ready(s) && k < |s.workflow.turns|
    ensures NoDuplicates(s.workflow.turns[k].dependsOn)
  {
    assert s.workflow.turns[k] in s.workflow.turns;
  }

  lemma {:induction false} BytesPositive(records: seq<Record>)
    requires records != [] && |records[|records| - 1].response.content| > 0
    ensures OutputBytes(records) >= 1
  {
  }

  lemma TurnIdsDiffer(s: Setup, records: seq<Record>, i: nat, j: nat)
    requires Ready(s) && FollowsWorkflow(s, records) && i < j < |records|
    ensures records[i].request.turn != records[j].request.turn
  {
    assert TurnIds(s.workflow.turns)[i] != TurnIds(s.workflow.turns)[j];
  }

  /** Every completed run satisfies the independent transcript validator and every frozen budget. */
  lemma CompletedRunCloses(s: Setup)
    requires Ready(s) && Outcome(s).Ok?
    ensures var run := Outcome(s).value;
            && RunCloses(run, s.hashing)
            && |run.records| == |s.workflow.turns| <= s.team.maxTurns
            && run.outputBytes <= s.team.maxTotalOutputBytes
            && run.inputTokens + run.outputTokens <= s.team.maxTotalTokens
            && (forall k :: 0 <= k < |run.records| ==> RecordKeeps(s, run.records, k))
  {
    hide Turns, DisclosesDeclared, DisclosesEarlier, Disclosed, NoDuplicates, OutputBytes, InputTokens, OutputTokens;
    var n := |s.workflow.turns|;
    var records := Turns(s, n).value;
    TurnsKeepRules(s, n);
    forall k | 0 <= k < n
      ensures RecordKeeps(s, records, k)
    {
      RecordDiscloses(s, records, k);
      RecordIsKept(s, records, k);
    }
    forall i, j | 0 <= i < j < n
      ensures records[i].request.turn != records[j].request.turn
    {
      TurnIdsDiffer(s, records, i, j);
    }
    assert RecordKeeps(s, records, 0) && RecordKeeps(s, records, n - 1);
    BytesPositive(records);
    RunClosesFrom(s, records);
  }

  /** The per-record part of the run theorem. */
  ghost predicate RecordKeeps(s: Setup, records: seq<Record>, k: nat)
    requires k < |records| <= |s.workflow.turns|
  {
    var r := records[k];
    && DisclosesDeclared(s, records, k) && NoDuplicates(DisclosedTurns(r.request.dependencies))
    && RecordCloses(r, s.hashing)
    && r.request.team == s.team.fingerprint && r.request.workflow == s.workflow.fingerprint
    && r.request.task == s.task && r.request.turn == s.workflow.turns[k].id
    && s.hashing.size(r.request) <= s.team.maxContextBytes
    && 0 < |r.response.content| <= s.team.maxOutputBytesPerTurn
    && RequestSays(s, records[..k], r.request)
    && s.backends(k, r.request) == Replied(r.response)
    && (exists a :: a in s.team.agents && a.id == s.workflow.turns[k].agent == r.request.agent
                 && a.role == r.request.role && a.instruction == r.request.instruction
                 && a.model == r.response.model && a.runtime == r.response.runtime)
  }

  lemma RecordIsKept(s: Setup, records: seq<Record>, k: nat)
    requires Ready(s) && FollowsWorkflow(s, records) && k < |records| && Executed(s, records, k)
    requires DisclosesDeclared(s, records, k) && NoDuplicates(DisclosedTurns(records[k].request.dependencies))
    ensures RecordKeeps(s, records, k)
  {
    hide Ready, Disclosed, DisclosesDeclared, NoDuplicates, RequestSays;
    BuiltRequestSays(s, records[..k]);
    TurnAgentKnown(s, k);
  }

  lemma RunClosesFrom(s: Setup, records: seq<Record>)
    requires Ready(s) && records != [] && |records| == |s.workflow.turns|
    requires forall k :: 0 <= k < |records| ==> RecordKeeps(s, records, k)
    requires forall i, j :: 0 <= i < j < |records| ==> records[i].request.turn != records[j].request.turn
    requires OutputBytes(records) >= 1
    ensures RunCloses(RunOf(s, records), s.hashing)
  {
    hide DisclosesEarlier, NoDuplicates, OutputBytes, InputTokens, OutputTokens;
    assert RecordKeeps(s, records, 0) && RecordKeeps(s, records, |records| - 1);
    forall k | 0 <= k < |records|
      ensures DisclosesEarlier(records, s.hashing, k)
    {
      assert RecordKeeps(s, records, k);
    }
  }

  // ---------------------------------------------------------------- the loop

  /** One turn of `execute`, from the dictionary of finished turns and the running totals. */
  method RunTurn(s: Setup, records: seq<Record>, byTurn: map<int, Record>, totalBytes: nat, totalTokens: nat)
    returns (r: Result<Record, Failure>)
    requires Ready(s) && FollowsWorkflow(s, records) && |records| < |s.workflow.turns| && Indexed(records, byTurn)
    requires totalBytes == OutputBytes(records) && totalTokens == InputTokens(records) + OutputTokens(records)
    ensures r == Step(s, records)
  {
    hide Ready, Disclosed, Indexed, OutputBytes, InputTokens, OutputTokens;
    var turn := s.workflow.turns[|records|];
    TurnAgentKnown(s, |records|);
    var agent := AgentOf(s, turn.agent);
    var dependencies := CollectOutputs(s, records, byTurn);
    var request := Request(
      s.team.fingerprint, s.workflow.fingerprint, s.task, turn.id, agent.id, agent.role, agent.instruction,
      turn.objective, dependencies);
    if s.hashing.size(request) > s.team.maxContextBytes {
      return Err(ContextBudget);
    }
    var reply := s.backends(|records|, request);
    if reply.Raised? || reply.response.content == [] {
      return Err(BackendFailed);
    }
    if !Bound(s, agent, request, reply.response) {
      return Err(ChangedBinding);
    }
    var outputBytes := |reply.response.content|;
    if outputBytes > s.team.maxOutputBytesPerTurn {
      return Err(TurnOutputBudget);
    }
    if totalBytes + outputBytes > s.team.maxTotalOutputBytes {
      return Err(TotalOutputBudget);
    }
    if totalTokens + reply.response.inputTokens + reply.response.outputTokens > s.team.maxTotalTokens {
      return Err(TokenBudget);
    }
    return Ok(Record(request, reply.response));
  }

  /** `execute`: every turn once, in frozen order, until one fails. */
  method Execute(s: Setup) returns (r: Result<Run, RunError>)
    requires Ready(s)
    ensures r == Outcome(s)
  {
    var turns := s.workflow.turns;
    var records: seq<Record> := [];
    var byTurn: map<int, Record> := map[];
    var totalTokens, totalBytes := 0, 0;
    assert turns != [] && Indexed(records, byTurn);
    assert InputTokens(records) + OutputTokens(records) == 0 == OutputBytes(records);
    hide Ready, Step, Indexed, OutputBytes, InputTokens, OutputTokens;
    for i := 0 to |turns|
      invariant |records| == i && Turns(s, i) == Ok(records)
      invariant Indexed(records, byTurn)
      invariant totalTokens == InputTokens(records) + OutputTokens(records)
      invariant totalBytes == OutputBytes(records)
    {
      var outcome := RunTurn(s, records, byTurn, totalBytes, totalTokens);
      StepFails(s, i, records);
      if outcome.Err? {
        return Err(RunError(outcome.error, records));
      }
      var record := outcome.value;
      StepTurn(s, records);
      NotYetRun(s, records, byTurn);
      IndexOneMore(records, byTurn, record);
      TotalsGrow(records, record);
      totalBytes := totalBytes + |record.response.content|;
      totalTokens := totalTokens + record.response.inputTokens + record.response.outputTokens;
      records := records + [record];
      byTurn := byTurn[turns[i].id := record];
    }
    var final := records[|records| - 1];
    return Ok(
        Run(
          s.team.fingerprint, s.workflow.fingerprint, s.hashing.ofTask(s.task), records, s.workflow.finalTurn,
          final.response.content, InputTokens(records), OutputTokens(records), totalBytes));
  }

  lemma StepTurn(s: Setup, records: seq<Record>)
    requires Ready(s) && FollowsWorkflow(s, records) && |records| < |s.workflow.turns|
    ensures Step(s, records).Ok? ==> Step(s, records).value.request.turn == s.workflow.turns[|records|].id
  {
    hide Disclosed;
  }

  lemma TotalsGrow(records: seq<Record>, r: Record)
    ensures InputTokens(records + [r]) == InputTokens(records) + r.response.inputTokens
    ensures OutputTokens(records + [r]) == OutputTokens(records) + r.response.outputTokens
    ensures OutputBytes(records + [r]) == OutputBytes(records) + |r.response.content|
  {
    assert (records + [r])[..|records|] == records;
  }

  lemma NotYetRun(s: Setup, records: seq<Record>, byTurn: map<int, Record>)
    requires Ready(s) && FollowsWorkflow(s, records) && |records| < |s.workflow.turns| && Indexed(records, byTurn)
    ensures s.workflow.turns[|records|].id !in byTurn
  {
    var turns := s.workflow.turns;
    forall k | 0 <= k < |records|
      ensures records[k].request.turn != turns[|records|].id
    {
      assert TurnIds(turns)[k] != TurnIds(turns)[|records|];
    }
  }

  /** A turn that fails ends the execution with the records before it. */
  lemma {:induction false} StepFails(s: Setup, i: nat, records: seq<Record>)
    requires Ready(s) && i < |s.workflow.turns| && Turns(s, i) == Ok(records)
    ensures Step(s, records).Err? ==>
              Turns(s, |s.workflow.turns|) == Err(RunError(Step(s, records).error, records))
  {
    hide Step, Ready;
    if Step(s, records).Err? {
      FailureSticks(s, i + 1, |s.workflow.turns|);
    }
  }

  lemma {:induction false} FailureSticks(s: Setup, m: nat, n: nat)
    requires Ready(s) && m <= n <= |s.workflow.turns| && Turns(s, m).Err?
    ensures Turns(s, n) == Turns(s, m)
    decreases n
  {
    hide Step, Ready;
    if m < n {
      FailureSticks(s, m, n - 1);
    }
  }

  /** Looking up every declared dependency among the finished turns; no lookup can fail. */
  method CollectOutputs(s: Setup, records: seq<Record>, byTurn: map<int, Record>)
    returns (outputs: seq<DependencyOutput>)
    requires Ready(s) && FollowsWorkflow(s, records) && |records| < |s.workflow.turns| && Indexed(records, byTurn)
    ensures outputs == Disclosed(s, records)
  {
    var depends := s.workflow.turns[|records|].dependsOn;
    outputs := [];
    for i := 0 to |depends|
      invariant |outputs| == i
      invariant forall k :: 0 <= k < i ==> outputs[k] == Disclosed(s, records)[k]
    {
      hide Ready;
      DependencyFinished(s, records, depends[i]);
      var r := byTurn[depends[i]];
      assert r == RecordOf(records, depends[i]);
      outputs := outputs + [OutputOf(r, s.hashing)];
    }
  }
}
