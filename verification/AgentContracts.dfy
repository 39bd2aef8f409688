/** Contracts of a multi-agent run: workflow, requests, responses and the transcript validator. */
module AgentContracts {
  import opened Prelude

  /** UTF-8 bytes of a message. */
  type Content = seq<int>

  datatype Agent = Agent(id: int, role: int, instruction: int, model: int, runtime: int)

  datatype Team = Team(
    fingerprint: int, coordinator: int, agents: seq<Agent>, maxTurns: nat, maxContextBytes: nat,
    maxOutputBytesPerTurn: nat, maxTotalOutputBytes: nat, maxTotalTokens: nat)

  datatype Turn = Turn(id: int, agent: int, objective: int, dependsOn: seq<int>)

  datatype Workflow = Workflow(fingerprint: int, team: int, turns: seq<Turn>, finalTurn: int)

  datatype Task = Task(id: int, payload: int)

  datatype DependencyOutput = DependencyOutput(turn: int, agent: int, content: Content, contentHash: int)

  datatype Request = Request(
    team: int, workflow: int, task: Task, turn: int, agent: int, role: int, instruction: int, objective: int,
    dependencies: seq<DependencyOutput>)

  datatype Response = Response(
    request: int, turn: int, agent: int, model: int, runtime: int, content: Content,
    inputTokens: nat, outputTokens: nat)

  datatype Record = Record(request: Request, response: Response)

  datatype Run = Run(
    team: int, workflow: int, task: int, records: seq<Record>, finalTurn: int, finalOutput: Content,
    inputTokens: nat, outputTokens: nat, outputBytes: nat)

  /** Digests and canonical sizes, which this model takes as given. */
  datatype Hashing = Hashing(ofRequest: Request -> int, ofTask: Task -> int, ofContent: Content -> int, size: Request -> nat)

  // ---------------------------------------------------------------- workflows

  function TurnIds(turns: seq<Turn>): (ids: seq<int>)
    ensures |ids| == |turns| && forall i :: 0 <= i < |ids| ==> ids[i] == turns[i].id
  {
    seq(|turns|, i requires 0 <= i < |turns| => turns[i].id)
  }

  ghost predicate TurnCloses(t: Turn) {
    NoDuplicates(t.dependsOn) && t.id !in t.dependsOn
  }

  /** Every dependency names an earlier turn. */
  predicate DependsBackward(turns: seq<Turn>, i: nat)
    requires i < |turns|
  {
    forall d :: d in turns[i].dependsOn ==> d in TurnIds(turns[..i])
  }

  /** The frozen order is a topological order of unique turns, ending in the final one. */
  ghost predicate OrderedDag(w: Workflow) {
    && w.turns != [] && w.finalTurn == w.turns[|w.turns| - 1].id
    && NoDuplicates(TurnIds(w.turns))
    && forall i :: 0 <= i < |w.turns| ==> DependsBackward(w.turns, i)
  }

  datatype WorkflowError = NoTurns | RepeatedTurn | MissingDependency | WrongFinalTurn

  lemma {:induction false} SeenIds(turns: seq<Turn>, i: nat)
    requires i < |turns|
    ensures TurnIds(turns[..i + 1]) == TurnIds(turns[..i]) + [turns[i].id]
  {
  }

  /** The workflow validator accepts exactly the ordered DAGs. */
  method CheckWorkflow(w: Workflow) returns (r: Result<(), WorkflowError>)
    ensures r.Ok? <==> OrderedDag(w)
  {
    if w.turns == [] {
      return Err(NoTurns);
    }
    var seen: set<int> := {};
    for i := 0 to |w.turns|
      invariant forall id :: id in seen <==> id in TurnIds(w.turns[..i])
      invariant NoDuplicates(TurnIds(w.turns[..i]))
      invariant forall k :: 0 <= k < i ==> DependsBackward(w.turns, k)
    {
      var turn := w.turns[i];
      SeenIds(w.turns, i);
      if turn.id in seen {
        Repeats(w.turns, i);
        return Err(RepeatedTurn);
      }
      if exists d :: d in turn.dependsOn && d !in seen {
        assert !DependsBackward(w.turns, i);
        return Err(MissingDependency);
      }
      seen := seen + {turn.id};
    }
    assert w.turns[..|w.turns|] == w.turns;
    if w.finalTurn != w.turns[|w.turns| - 1].id {
      return Err(WrongFinalTurn);
    }
    return Ok(());
  }

  lemma Repeats(turns: seq<Turn>, i: nat)
    requires i < |turns| && turns[i].id in TurnIds(turns[..i])
    ensures !NoDuplicates(TurnIds(turns))
  {
    var j: nat :| j < i && TurnIds(turns[..i])[j] == turns[i].id;
    assert TurnIds(turns)[j] == TurnIds(turns)[i];
  }

  // ---------------------------------------------------------------- transcripts

  function InputTokens(records: seq<Record>): nat {
    if records == [] then 0
    else InputTokens(records[..|records| - 1]) + records[|records| - 1].response.inputTokens
  }

  function OutputTokens(records: seq<Record>): nat {
    if records == [] then 0
    else OutputTokens(records[..|records| - 1]) + records[|records| - 1].response.outputTokens
  }

  function OutputBytes(records: seq<Record>): nat {
    if records == [] then 0
    else OutputBytes(records[..|records| - 1]) + |records[|records| - 1].response.content|
  }

  function OutputOf(record: Record, h: Hashing): DependencyOutput {
    DependencyOutput(
      record.request.turn, record.request.agent, record.response.content, h.ofContent(record.response.content))
  }

  function DisclosedTurns(outputs: seq<DependencyOutput>): (ids: seq<int>)
    ensures |ids| == |outputs| && forall i :: 0 <= i < |ids| ==> ids[i] == outputs[i].turn
  {
    seq(|outputs|, i requires 0 <= i < |outputs| => outputs[i].turn)
  }

  /** A record's response answers its own request. */
  predicate RecordCloses(record: Record, h: Hashing) {
    && record.response.request == h.ofRequest(record.request)
    && record.response.turn == record.request.turn && record.response.agent == record.request.agent
  }

  /** Everything disclosed to record `i` is the exact output of an earlier record. */
  ghost predicate DisclosesEarlier(records: seq<Record>, h: Hashing, i: nat)
    requires i < |records|
  {
    forall d :: d in records[i].request.dependencies ==> IsEarlierOutput(records, h, i, d)
  }

  ghost predicate IsEarlierOutput(records: seq<Record>, h: Hashing, i: nat, d: DependencyOutput)
    requires i <= |records|
  {
    exists j :: 0 <= j < i && d == OutputOf(records[j], h)
  }

  /** The transcript validator, which knows neither the workflow nor the runner. */
  ghost predicate RunCloses(run: Run, h: Hashing) {
    var records := run.records;
    && records != []
    && (forall i :: 0 <= i < |records| ==>
          && records[i].request.team == run.team && records[i].request.workflow == run.workflow
          && records[i].request.task == records[0].request.task)
    && run.task == h.ofTask(records[0].request.task)
    && (forall i, j :: 0 <= i < j < |records| ==> records[i].request.turn != records[j].request.turn)
    && (forall i :: 0 <= i < |records| ==> NoDuplicates(DisclosedTurns(records[i].request.dependencies)))
    && (forall i :: 0 <= i < |records| ==> DisclosesEarlier(records, h, i))
    && run.finalTurn == records[|records| - 1].request.turn
    && run.finalOutput == records[|records| - 1].response.content
    && run.inputTokens == InputTokens(records) && run.outputTokens == OutputTokens(records)
    && run.outputBytes == OutputBytes(records)
    && run.outputBytes >= 1 && run.finalOutput != []
  }

  /** Earlier records by turn. */
  ghost predicate Indexed(records: seq<Record>, byTurn: map<int, Record>) {
    && (forall id :: id in byTurn <==> exists k :: 0 <= k < |records| && records[k].request.turn == id)
    && (forall k :: 0 <= k < |records| ==> records[k].request.turn in byTurn)
    && (forall k :: 0 <= k < |records| ==> byTurn[records[k].request.turn] == records[k])
  }

  lemma IndexOneMore(records: seq<Record>, byTurn: map<int, Record>, r: Record)
    requires Indexed(records, byTurn) && r.request.turn !in byTurn
    ensures Indexed(records + [r], byTurn[r.request.turn := r])
  {
    var all, next := records + [r], byTurn[r.request.turn := r];
    assert all[|records|] == r;
    assert forall k :: 0 <= k < |records| ==> all[k] == records[k] && all[k].request.turn in byTurn;
    forall id
      ensures id in next <==> exists k :: 0 <= k < |all| && all[k].request.turn == id
    {
      if id in byTurn {
        var k :| 0 <= k < |records| && records[k].request.turn == id;
        assert all[k].request.turn == id;
      }
      if id == r.request.turn {
        assert all[|records|].request.turn == id;
      }
    }
  }

  predicate SourceMatches(d: DependencyOutput, byTurn: map<int, Record>, h: Hashing) {
    d.turn in byTurn && d == OutputOf(byTurn[d.turn], h)
  }

  lemma SourceIsEarlier(records: seq<Record>, i: nat, byTurn: map<int, Record>, h: Hashing)
    requires i < |records| && Indexed(records[..i], byTurn)
    ensures DisclosesEarlier(records, h, i)
       <==> forall d :: d in records[i].request.dependencies ==> SourceMatches(d, byTurn, h)
  {
    forall d
      ensures IsEarlierOutput(records, h, i, d) <==> SourceMatches(d, byTurn, h)
    {
      if IsEarlierOutput(records, h, i, d) {
        var j :| 0 <= j < i && d == OutputOf(records[j], h);
        assert records[..i][j] == records[j];
      }
      if SourceMatches(d, byTurn, h) {
        var j :| 0 <= j < i && records[..i][j].request.turn == d.turn;
        assert d == OutputOf(records[j], h);
      }
    }
  }

  /** What the validator's loop has established about the first `n` records. */
  ghost predicate Checked(records: seq<Record>, h: Hashing, n: nat)
    requires n <= |records|
  {
    && (forall i, j :: 0 <= i < j < n ==> records[i].request.turn != records[j].request.turn)
    && (forall i :: 0 <= i < n ==> NoDuplicates(DisclosedTurns(records[i].request.dependencies)))
    && (forall i :: 0 <= i < n ==> DisclosesEarlier(records, h, i))
  }

  method CheckRecords(records: seq<Record>, h: Hashing) returns (ok: bool)
    ensures ok <==> Checked(records, h, |records|)
  {
    hide DisclosesEarlier, SourceMatches;
    var byTurn: map<int, Record> := map[];
    for i := 0 to |records|
      invariant Checked(records, h, i) && Indexed(records[..i], byTurn)
    {
      var r := records[i];
      var ids := DisclosedTurns(r.request.dependencies);
      SourceIsEarlier(records, i, byTurn, h);
      if r.request.turn in byTurn {
        var k :| 0 <= k < i && records[..i][k].request.turn == r.request.turn;
        assert records[k].request.turn == records[i].request.turn;
        return false;
      }
      if !AllDifferent(ids) || exists d :: d in r.request.dependencies && !SourceMatches(d, byTurn, h) {
        return false;
      }
      assert records[..i + 1] == records[..i] + [r];
      IndexOneMore(records[..i], byTurn, r);
      assert forall k :: 0 <= k < i ==> records[..i][k] == records[k] && records[k].request.turn in byTurn;
      byTurn := byTurn[r.request.turn := r];
    }
    return true;
  }

  /** `NoDuplicates`, as the loop evaluates it. */
  predicate AllDifferent(ids: seq<int>) {
    forall i, j :: 0 <= i < j < |ids| ==> ids[i] != ids[j]
  }

  /** `totals_and_final_output_match_records`. */
  method CheckRun(run: Run, h: Hashing) returns (ok: bool)
    ensures ok <==> RunCloses(run, h)
  {
    hide DisclosesEarlier;
    var records := run.records;
    if records == [] {
      return false;
    }
    var last, task := records[|records| - 1], records[0].request.task;
    if exists r :: r in records && (r.request.team != run.team || r.request.workflow != run.workflow) {
      var r :| r in records && (r.request.team != run.team || r.request.workflow != run.workflow);
      var i :| 0 <= i < |records| && records[i] == r;
      return false;
    }
    assert forall i :: 0 <= i < |records| ==> records[i] in records;
    if run.task != h.ofTask(task) {
      return false;
    }
    if exists r :: r in records && r.request.task != task {
      var r :| r in records && r.request.task != task;
      var i :| 0 <= i < |records| && records[i] == r;
      return false;
    }
    var checked := CheckRecords(records, h);
    return
      checked && last.request.turn == run.finalTurn && last.response.content == run.finalOutput
      && run.inputTokens == InputTokens(records) && run.outputTokens == OutputTokens(records)
      && run.outputBytes == OutputBytes(records) && run.outputBytes >= 1 && run.finalOutput != [];
  }
}
