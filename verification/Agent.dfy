/** The agent loop as a step machine over arbitrary model replies and tool results. */
module AgentSpec {
  import opened Common
  import opened Actions
  import opened JsonText
  import opened ZeroG
  import Hex
  import Audit

  datatype SessionState = Running | Completed | Failed

  /** A tool call in a message, as the conversation carries it. */
  datatype CallRef = CallRef(id: string, name: string, arguments: string)

  datatype Message =
    | System(content: string)
    | User(content: string)
    | Assistant(content: string, calls: seq<CallRef>)
    | ToolResult(callId: string, content: string)

  /** What running a tool gave, when, and how storing it went. A result the encoder rejects is None. */
  datatype Outcome = Returned(result: Option<Json>) | ToolError(message: string)
  datatype Execution = Execution(outcome: Outcome, at: Timestamp, fault: Fault)

  /** A tool call with the decoding of its argument text, None when it is no JSON object or null. */
  datatype ToolCall = ToolCall(ref: CallRef, decoded: Option<Json>, run: Execution)

  /** The three tool runs of the bootstrap, the plan's fields as the third one's input, and whether the first gave a plan. */
  datatype Bootstrap = Bootstrap(analyze: Execution, isPlan: bool, select: Execution, planInput: Json, generate: Execution)

  /** One model call: a failure, or a choice with its content, finish reason and tool calls. */
  datatype Reply = CallFails | Reply(content: string, finishReason: string, toolCalls: seq<ToolCall>, bootstrap: Bootstrap)

  /** What a run is given: the hash functions, the prompts, the GitHub URL found in the user's prompt ("" if none), and
      whether a 0G client is configured. */
  datatype Config = Config(text: string -> Hex.Digest, sha: Audit.Sha, systemPrompt: string, userPrompt: string, url: string, hasLog: bool)

  /** The session's fields, the loop's locals, and a record of what the loop has done. */
  datatype Agent = Agent(
    state: SessionState, actions: seq<Action>, merkleRoot: string, log: Blob<Action>,
    messages: seq<Message>, noToolTurns: nat,
    calls: nat, toolTurns: nat, bootstraps: seq<nat>, sent: seq<seq<Message>>)

  const NUDGE := "Use at least one tool call now. If a GitHub URL exists, call analyze_repo first."
  const CONFIRMED := "Planning is confirmed. Continue deployment by calling tools only."

  function Initial(c: Config, log: Blob<Action>): Agent {
    Agent(Running, [], "", log, [System(c.systemPrompt), User(c.userPrompt)], 0, 0, 0, [], [])
  }

  /** The audited record of one tool run. */
  function ActionFor(c: Config, index: nat, tool: string, input: Option<Json>, run: Execution): Action {
    var a := Action(index, tool, input,
                    if run.outcome.Returned? then run.outcome.result else Some(Null),
                    if run.outcome.ToolError? then run.outcome.message else "",
                    run.at, "");
    a.(hash := HashAction(c.text, a))
  }

  /** Append the action, then store it if there is somewhere to store it. */
  function Record(c: Config, a: Agent, tool: string, input: Option<Json>, run: Execution): Agent {
    var action := ActionFor(c, |a.actions|, tool, input, run);
    a.(actions := a.actions + [action], log := if c.hasLog then Appended(a.log, action, run.fault) else a.log)
  }

  function Input(decoded: Option<Json>): Json {
    if decoded.Some? && (decoded.value.Object? || decoded.value.Null?) then decoded.value else Object([])
  }

  function ResultContent(o: Outcome): string {
    match o case ToolError(m) => "error: " + m case Returned(r) => Text(r)
  }

  /** One tool call: recorded, then answered. */
  function RunTool(c: Config, a: Agent, t: ToolCall): Agent {
    var recorded := Record(c, a, t.ref.name, Some(Input(t.decoded)), t.run);
    recorded.(messages := recorded.messages + [ToolResult(t.ref.id, ResultContent(t.run.outcome))])
  }

  /** The tool calls of one reply, in turn. */
  function RunTools(c: Config, a: Agent, calls: seq<ToolCall>): Agent {
    if calls == [] then a else RunTool(c, RunTools(c, a, calls[..|calls| - 1]), calls[|calls| - 1])
  }

  function Refs(calls: seq<ToolCall>): (refs: seq<CallRef>)
    ensures |refs| == |calls|
  {
    seq(|calls|, i requires 0 <= i < |calls| => calls[i].ref)
  }

  function AnalyzeInput(c: Config): Option<Json> {
    Some(Object([Field("github_url", String(c.url))]))
  }

  /** bootstrapInitialPlan: analyse, select, ask for confirmation. */
  function RunBootstrap(c: Config, a: Agent, b: Bootstrap): (Agent, bool) {
    var a1 := Record(c, a, "analyze_repo", AnalyzeInput(c), b.analyze);
    if b.analyze.outcome.ToolError? then (a1, false) else
    var a2 := Record(c, a1, "select_provider", Some(Object([])), b.select);
    if !b.isPlan then (a2, false) else
    (Record(c, a2, "generate_deployment_plan", Some(b.planInput), b.generate), b.generate.outcome.Returned?)
  }

  /** The model is called with the conversation so far. */
  function Asked(a: Agent): Agent {
    a.(calls := a.calls + 1, sent := a.sent + [a.messages])
  }

  /** The reply asks for tools. */
  function Turned(a: Agent, content: string, refs: seq<CallRef>): Agent {
    Asked(a).(noToolTurns := 0, toolTurns := a.toolTurns + 1, messages := a.messages + [Assistant(content, refs)])
  }

  /** The plan was bootstrapped and confirmed. */
  function Confirmed(a: Agent, content: string): Agent {
    a.(noToolTurns := 0, messages := a.messages + [Assistant(content, []), User(CONFIRMED)], bootstraps := a.bootstraps + [a.toolTurns])
  }

  predicate UsesTools(r: Reply)
    requires r.Reply?
  {
    r.finishReason == "tool_calls" && r.toolCalls != []
  }

  /** One turn of the loop. */
  function Turn(c: Config, a: Agent, r: Reply): Agent
    requires a.state.Running?
  {
    if r.CallFails? then Asked(a).(state := Failed)
    else if UsesTools(r) then RunTools(c, Turned(a, r.content, Refs(r.toolCalls)), r.toolCalls)
    else NoToolTurn(c, Asked(a).(noToolTurns := a.noToolTurns + 1), r.content, r.bootstrap)
  }

  /** The loop is left: the root over all actions, then the state. */
  function Finished(c: Config, a: Agent): Agent {
    a.(merkleRoot := Audit.MerkleRoot(c.sha, a.actions), state := Completed)
  }

  function NoToolTurn(c: Config, a: Agent, content: string, b: Bootstrap): Agent {
    if a.noToolTurns <= 2 then a.(messages := a.messages + [Assistant(content, []), User(NUDGE)])
    else if a.actions == [] && c.url != "" then
      var (a', ok) := RunBootstrap(c, a, b);
      if ok then Confirmed(a', content) else a'.(state := Failed)
    else Finished(c, a)
  }

  /** The whole loop. A run whose context ends while it waits for the model ends with a failed call. */
  function Complete(c: Config, a: Agent, replies: seq<Reply>): Agent
    decreases |replies|
  {
    if !a.state.Running? then a
    else if replies == [] then Turn(c, a, CallFails)
    else Complete(c, Turn(c, a, replies[0]), replies[1..])
  }
}

/** What every run of the agent loop keeps. */
module AgentSound {
  import opened Common
  import opened Actions
  import opened JsonText
  import opened ZeroG
  import opened AgentSpec
  import Audit

  // ---- The conversation protocol ----

  /** The results answer the calls one for one, in order. */
  predicate Answers(calls: seq<CallRef>, results: seq<Message>) {
    |calls| == |results| && forall i | 0 <= i < |calls| :: results[i].ToolResult? && results[i].callId == calls[i].id
  }

  /** Each message with tool calls is followed by exactly its results, and results stand nowhere else. */
  predicate Protocol(messages: seq<Message>)
    decreases |messages|
  {
    if messages == [] then true
    else
      match messages[0]
      case ToolResult(_, _) => false
      case Assistant(_, calls) =>
        |calls| < |messages| && Answers(calls, messages[1..1 + |calls|]) && Protocol(messages[1 + |calls|..])
      case _ => Protocol(messages[1..])
  }

  lemma SlicesOfConcat<E>(s: seq<E>, t: seq<E>, n: nat)
    requires n < |s|
    ensures (s + t)[1..1 + n] == s[1..1 + n] && (s + t)[1 + n..] == s[1 + n..] + t && (s + t)[0] == s[0]
  {
  }

  lemma {:induction false} ProtocolConcat(s: seq<Message>, t: seq<Message>)
    requires Protocol(s) && Protocol(t)
    ensures Protocol(s + t)
    decreases |s|
  {
    if s == [] {
      assert s + t == t;
    } else {
      var n := if s[0].Assistant? then |s[0].calls| else 0;
      SlicesOfConcat(s, t, n);
      ProtocolConcat(s[1 + n..], t);
    }
  }

  lemma ToolTurnProtocol(content: string, calls: seq<CallRef>, results: seq<Message>)
    requires Answers(calls, results)
    ensures Protocol([Assistant(content, calls)] + results)
  {
    var m := [Assistant(content, calls)] + results;
    assert m[1..1 + |calls|] == results && m[1 + |calls|..] == [];
  }

  lemma PlainProtocol(m: Message)
    requires m.System? || m.User? || (m.Assistant? && m.calls == [])
    ensures Protocol([m])
  {
    assert [m][1..] == [] && [m][1..1] == [];
  }

  // ---- The invariant, in four parts ----

  /** The action carries its position and the hash of its own fields. */
  predicate Numbered(c: Config, action: Action, i: nat) {
    action.index == i && action.hash == HashAction(c.text, action)
  }

  /** The actions are numbered in order, and the store holds some of them, in order. */
  ghost predicate Recorded(c: Config, a: Agent) {
    && (forall i | 0 <= i < |a.actions| :: Numbered(c, a.actions[i], i))
    && !a.log.Garbled? && Subsequence(Entries(a.log).value, a.actions)
  }

  /** The root is set, to the root of all actions, exactly on completion. */
  ghost predicate Rooted(c: Config, a: Agent) {
    a.merkleRoot == if a.state.Completed? then Audit.MerkleRoot(c.sha, a.actions) else ""
  }

  /** Everything sent to the model followed the protocol, and what is to be sent next does. */
  ghost predicate Spoken(a: Agent) {
    (forall m | m in a.sent :: Protocol(m)) && |a.sent| == a.calls && (a.state.Running? ==> Protocol(a.messages))
  }

  /** A bootstrap succeeds at most once, before any tool turn; the calls between two turns that used tools are bounded. */
  ghost predicate Counted(a: Agent) {
    && (a.bootstraps == [] || a.bootstraps == [0])
    && (a.actions == [] ==> a.toolTurns == 0 && a.bootstraps == [])
    && (a.state.Running? ==> a.noToolTurns <= 2 && a.calls <= 3 * a.toolTurns + 3 * |a.bootstraps| + a.noToolTurns)
    && a.calls <= 3 * a.toolTurns + 3 * |a.bootstraps| + 3
  }

  ghost predicate AgentOk(c: Config, a: Agent) {
    Recorded(c, a) && Rooted(c, a) && Spoken(a) && Counted(a)
  }

  // ---- Recording ----

  lemma ActionForNumbered(c: Config, i: nat, tool: string, input: Option<Json>, run: Execution)
    ensures Numbered(c, ActionFor(c, i, tool, input, run), i)
  {
    var action := ActionFor(c, i, tool, input, run);
    assert Preimage(action) == Preimage(action.(hash := ""));
  }

  /** Recording on either path: one more action at the end, correctly numbered and hashed, and the log still in order. */
  lemma RecordOk(c: Config, a: Agent, tool: string, input: Option<Json>, run: Execution)
    requires Recorded(c, a)
    ensures var a' := Record(c, a, tool, input, run);
            && Recorded(c, a') && |a'.actions| == |a.actions| + 1 && a.actions <= a'.actions
            && (c.hasLog && run.fault.NoFault? ==> Entries(a'.log).value == Entries(a.log).value + a'.actions[|a.actions|..])
  {
    var action := ActionFor(c, |a.actions|, tool, input, run);
    ActionForNumbered(c, |a.actions|, tool, input, run);
    AppendedEntries(a.log, action, run.fault);
    LongerSuper(Entries(a.log).value, a.actions, action);
    BothLonger(Entries(a.log).value, a.actions, action);
    assert (a.actions + [action])[|a.actions|..] == [action];
  }

  /** What a step of recording touches. */
  predicate OnlyRecords(a: Agent, a': Agent) {
    a' == a.(actions := a'.actions, log := a'.log, messages := a'.messages) && a.actions <= a'.actions
  }

  lemma {:induction false} RunToolsRecords(c: Config, a: Agent, calls: seq<ToolCall>)
    requires Recorded(c, a)
    ensures var a' := RunTools(c, a, calls);
            Recorded(c, a') && OnlyRecords(a, a') && |a'.actions| == |a.actions| + |calls|
    decreases |calls|
  {
    if calls != [] {
      var t := calls[|calls| - 1];
      RunToolsRecords(c, a, calls[..|calls| - 1]);
      OneToolRecords(c, RunTools(c, a, calls[..|calls| - 1]), t);
    }
  }

  lemma OneToolRecords(c: Config, a: Agent, t: ToolCall)
    requires Recorded(c, a)
    ensures Recorded(c, RunTool(c, a, t)) && OnlyRecords(a, RunTool(c, a, t)) && |RunTool(c, a, t).actions| == |a.actions| + 1
  {
    RecordOk(c, a, t.ref.name, Some(Input(t.decoded)), t.run);
  }

  lemma OneMore<E>(s: seq<E>, t: seq<E>, x: E)
    ensures s + (t + [x]) == s + t + [x]
  {
  }

  /** What a tool's result says to the model: its JSON, nothing when it cannot be encoded, or the error. */
  function Saying(o: Outcome): string {
    match o
    case ToolError(message) => "error: " + message
    case Returned(None) => ""
    case Returned(Some(result)) => Encode(result)
  }

  /** What a turn should add to the conversation: one result a call. */
  function Results(calls: seq<ToolCall>): seq<Message> {
    seq(|calls|, i requires 0 <= i < |calls| => ToolResult(calls[i].ref.id, Saying(calls[i].run.outcome)))
  }

  lemma ResultsSplit(front: seq<ToolCall>, t: ToolCall)
    ensures Results(front + [t]) == Results(front) + [ToolResult(t.ref.id, Saying(t.run.outcome))]
  {
  }

  lemma RunToolMessages(c: Config, a: Agent, t: ToolCall)
    ensures RunTool(c, a, t).messages == a.messages + [ToolResult(t.ref.id, Saying(t.run.outcome))]
  {
  }

  lemma {:induction false} RunToolsMessages(c: Config, a: Agent, calls: seq<ToolCall>)
    ensures RunTools(c, a, calls).messages == a.messages + Results(calls)
    decreases |calls|
  {
    if calls != [] {
      var front, t := calls[..|calls| - 1], calls[|calls| - 1];
      FrontAndLast(calls);
      RunToolsMessages(c, a, front);
      RunToolMessages(c, RunTools(c, a, front), t);
      ResultsSplit(front, t);
      OneMore(a.messages, Results(front), ToolResult(t.ref.id, Saying(t.run.outcome)));
    }
  }

  lemma ResultsAnswer(calls: seq<ToolCall>)
    ensures Answers(Refs(calls), Results(calls))
  {
  }

  lemma FrontAndLast<E>(s: seq<E>)
    requires s != []
    ensures s == s[..|s| - 1] + [s[|s| - 1]]
  {
  }

  // ---- What is recorded ----

  /** Something the agent did: a tool run on an input. */
  datatype Deed = Deed(tool: string, input: Json, run: Execution)

  /** The action says what was done: the tool and its input, the result or the error, when, and the hash of all that. */
  predicate Records(c: Config, x: Action, i: nat, d: Deed) {
    && x.index == i && x.tool == d.tool && x.input == Some(d.input) && x.timestamp == d.run.at
    && (match d.run.outcome
        case Returned(result) => x.result == result && x.error == ""
        case ToolError(message) => x.result == Some(Null) && x.error == message)
    && x.hash == HashAction(c.text, x)
  }

  ghost predicate RecordsAll(c: Config, actions: seq<Action>, deeds: seq<Deed>) {
    |actions| == |deeds| && forall i | 0 <= i < |deeds| :: Records(c, actions[i], i, deeds[i])
  }

  /** A tool call runs on its arguments when they are a JSON object or null, and on an empty object otherwise. */
  function CallDeed(t: ToolCall): Deed {
    Deed(t.ref.name,
         match t.decoded { case Some(Object(fields)) => Object(fields) case Some(Null) => Null case _ => Object([]) },
         t.run)
  }

  function CallDeeds(calls: seq<ToolCall>): seq<Deed> {
    seq(|calls|, i requires 0 <= i < |calls| => CallDeed(calls[i]))
  }

  /** The bootstrap analyses the repository at the URL; unless that fails it selects a provider, whatever comes of it; and if
      there is a plan it asks for its confirmation. */
  function PlanDeeds(c: Config, b: Bootstrap): seq<Deed> {
    [Deed("analyze_repo", Object([Field("github_url", String(c.url))]), b.analyze)]
    + if b.analyze.outcome.ToolError? then []
      else [Deed("select_provider", Object([]), b.select)]
           + if b.isPlan then [Deed("generate_deployment_plan", b.planInput, b.generate)] else []
  }

  lemma RecordDeed(c: Config, a: Agent, deeds: seq<Deed>, tool: string, input: Json, run: Execution)
    requires RecordsAll(c, a.actions, deeds)
    ensures RecordsAll(c, Record(c, a, tool, Some(input), run).actions, deeds + [Deed(tool, input, run)])
  {
    ActionForNumbered(c, |a.actions|, tool, Some(input), run);
  }

  lemma RunToolDeed(c: Config, a: Agent, deeds: seq<Deed>, t: ToolCall)
    requires RecordsAll(c, a.actions, deeds)
    ensures RecordsAll(c, RunTool(c, a, t).actions, deeds + [CallDeed(t)]) && a.actions <= RunTool(c, a, t).actions
  {
    RecordDeed(c, a, deeds, t.ref.name, Input(t.decoded), t.run);
  }

  lemma DeedsSplit(deeds: seq<Deed>, front: seq<ToolCall>, t: ToolCall)
    ensures deeds + CallDeeds(front + [t]) == deeds + CallDeeds(front) + [CallDeed(t)]
  {
  }

  /** A tool turn records each call, in order, after what was recorded before. */
  lemma {:induction false} RunToolsLog(c: Config, a: Agent, deeds: seq<Deed>, calls: seq<ToolCall>)
    requires RecordsAll(c, a.actions, deeds)
    ensures RecordsAll(c, RunTools(c, a, calls).actions, deeds + CallDeeds(calls))
    ensures a.actions <= RunTools(c, a, calls).actions
    decreases |calls|
  {
    if calls == [] {
      assert deeds + CallDeeds(calls) == deeds;
    } else {
      var front, t := calls[..|calls| - 1], calls[|calls| - 1];
      FrontAndLast(calls);
      RunToolsLog(c, a, deeds, front);
      RunToolDeed(c, RunTools(c, a, front), deeds + CallDeeds(front), t);
      DeedsSplit(deeds, front, t);
    }
  }

  /** The bootstrap records each of its runs, in order, also when it fails. */
  lemma RunBootstrapLog(c: Config, a: Agent, deeds: seq<Deed>, b: Bootstrap)
    requires RecordsAll(c, a.actions, deeds)
    ensures RecordsAll(c, RunBootstrap(c, a, b).0.actions, deeds + PlanDeeds(c, b))
    ensures RunBootstrap(c, a, b).1 <==> b.analyze.outcome.Returned? && b.isPlan && b.generate.outcome.Returned?
  {
    var url := Object([Field("github_url", String(c.url))]);
    RecordDeed(c, a, deeds, "analyze_repo", url, b.analyze);
    PlanDeedsAre(c, b, deeds);
    var a1, d1 := Record(c, a, "analyze_repo", Some(url), b.analyze), deeds + [Deed("analyze_repo", url, b.analyze)];
    RecordDeed(c, a1, d1, "select_provider", Object([]), b.select);
    var a2, d2 := Record(c, a1, "select_provider", Some(Object([])), b.select), d1 + [Deed("select_provider", Object([]), b.select)];
    RecordDeed(c, a2, d2, "generate_deployment_plan", b.planInput, b.generate);
  }

  lemma PlanDeedsAre(c: Config, b: Bootstrap, deeds: seq<Deed>)
    ensures var d1 := deeds + [Deed("analyze_repo", Object([Field("github_url", String(c.url))]), b.analyze)];
            var d2 := d1 + [Deed("select_provider", Object([]), b.select)];
            deeds + PlanDeeds(c, b) ==
            if b.analyze.outcome.ToolError? then d1
            else if !b.isPlan then d2 else d2 + [Deed("generate_deployment_plan", b.planInput, b.generate)]
  {
  }

  lemma RunBootstrapRecords(c: Config, a: Agent, b: Bootstrap)
    requires Recorded(c, a)
    ensures var a' := RunBootstrap(c, a, b).0;
            Recorded(c, a') && OnlyRecords(a, a') && a'.actions != [] && a'.messages == a.messages
  {
    RecordOk(c, a, "analyze_repo", AnalyzeInput(c), b.analyze);
    var a1 := Record(c, a, "analyze_repo", AnalyzeInput(c), b.analyze);
    RecordOk(c, a1, "select_provider", Some(Object([])), b.select);
    var a2 := Record(c, a1, "select_provider", Some(Object([])), b.select);
    RecordOk(c, a2, "generate_deployment_plan", Some(b.planInput), b.generate);
  }

  // ---- One turn ----

  lemma TwoMore(messages: seq<Message>, content: string, text: string)
    requires Protocol(messages)
    ensures Protocol(messages + [Assistant(content, []), User(text)])
  {
    PlainProtocol(Assistant(content, []));
    PlainProtocol(User(text));
    ProtocolConcat(messages, [Assistant(content, [])]);
    ProtocolConcat(messages + [Assistant(content, [])], [User(text)]);
    assert messages + [Assistant(content, []), User(text)] == messages + [Assistant(content, [])] + [User(text)];
  }

  lemma NudgeOk(c: Config, a: Agent, content: string)
    requires Recorded(c, a) && Rooted(c, a) && Spoken(a) && a.state.Running? && Counted(a) && a.noToolTurns < 2
    ensures AgentOk(c, Asked(a).(noToolTurns := a.noToolTurns + 1, messages := a.messages + [Assistant(content, []), User(NUDGE)]))
  {
    TwoMore(a.messages, content, NUDGE);
  }

  lemma BootstrapOk(c: Config, a: Agent, a': Agent, content: string, ok: bool)
    requires AgentOk(c, a) && a.state.Running? && a.actions == [] && a.noToolTurns == 2
    requires Recorded(c, a') && OnlyRecords(Asked(a).(noToolTurns := 3), a') && a'.actions != [] && a'.messages == a.messages
    ensures AgentOk(c, if ok then Confirmed(a', content) else a'.(state := Failed))
  {
    TwoMore(a.messages, content, CONFIRMED);
    assert a'.calls == a.calls + 1 <= 3;
  }

  lemma DoneOk(c: Config, a: Agent)
    requires AgentOk(c, a) && a.state.Running? && a.noToolTurns == 2
    ensures var a' := Asked(a).(noToolTurns := 3);
            AgentOk(c, a'.(merkleRoot := Audit.MerkleRoot(c.sha, a'.actions), state := Completed))
  {
  }

  lemma NoToolTurnOk(c: Config, a: Agent, content: string, b: Bootstrap)
    requires AgentOk(c, a) && a.state.Running?
    ensures var a' := NoToolTurn(c, Asked(a).(noToolTurns := a.noToolTurns + 1), content, b);
            AgentOk(c, a') && a.actions <= a'.actions
  {
    var asked := Asked(a).(noToolTurns := a.noToolTurns + 1);
    if a.noToolTurns < 2 {
      NudgeOk(c, a, content);
    } else if a.actions == [] && c.url != "" {
      RunBootstrapRecords(c, asked, b);
      var (a', ok) := RunBootstrap(c, asked, b);
      BootstrapOk(c, a, a', content, ok);
    } else {
      DoneOk(c, a);
    }
  }

  lemma ToolMessages(messages: seq<Message>, content: string, refs: seq<CallRef>, results: seq<Message>)
    requires Protocol(messages) && Answers(refs, results)
    ensures Protocol(messages + [Assistant(content, refs)] + results)
  {
    ToolTurnProtocol(content, refs, results);
    ProtocolConcat(messages, [Assistant(content, refs)] + results);
    assert messages + [Assistant(content, refs)] + results == messages + ([Assistant(content, refs)] + results);
  }

  lemma ToolsOk(c: Config, a: Agent, a': Agent, content: string, refs: seq<CallRef>, results: seq<Message>)
    requires AgentOk(c, a) && a.state.Running? && Answers(refs, results)
    requires Recorded(c, a') && a'.actions != []
    requires OnlyRecords(Turned(a, content, refs), a') && a'.messages == a.messages + [Assistant(content, refs)] + results
    ensures AgentOk(c, a')
  {
    ToolMessages(a.messages, content, refs, results);
    assert Spoken(a');
  }

  lemma ToolTurnOk(c: Config, a: Agent, content: string, calls: seq<ToolCall>)
    requires AgentOk(c, a) && a.state.Running? && calls != []
    ensures var a' := RunTools(c, Turned(a, content, Refs(calls)), calls);
            AgentOk(c, a') && a.actions <= a'.actions
  {
    var turned := Turned(a, content, Refs(calls));
    RunToolsRecords(c, turned, calls);
    RunToolsMessages(c, turned, calls);
    ResultsAnswer(calls);
    ToolsOk(c, a, RunTools(c, turned, calls), content, Refs(calls), Results(calls));
  }

  lemma CallFailsOk(c: Config, a: Agent)
    requires AgentOk(c, a) && a.state.Running?
    ensures AgentOk(c, Asked(a).(state := Failed))
  {
  }

  lemma ToolReplyOk(c: Config, a: Agent, r: Reply) returns (a': Agent)
    requires AgentOk(c, a) && a.state.Running? && r.Reply? && UsesTools(r)
    ensures a' == Turn(c, a, r) && AgentOk(c, a') && a.actions <= a'.actions
  {
    a' := RunTools(c, Turned(a, r.content, Refs(r.toolCalls)), r.toolCalls);
    ToolTurnOk(c, a, r.content, r.toolCalls);
  }

  lemma TurnWithoutTools(c: Config, a: Agent, r: Reply)
    requires a.state.Running? && r.Reply? && !UsesTools(r)
    ensures Turn(c, a, r) == NoToolTurn(c, Asked(a).(noToolTurns := a.noToolTurns + 1), r.content, r.bootstrap)
  {
  }

  lemma NoToolReplyOk(c: Config, a: Agent, asked: Agent, content: string, b: Bootstrap) returns (a': Agent)
    requires AgentOk(c, a) && a.state.Running? && asked == Asked(a).(noToolTurns := a.noToolTurns + 1)
    ensures a' == NoToolTurn(c, asked, content, b) && AgentOk(c, a') && a.actions <= a'.actions
  {
    a' := NoToolTurn(c, asked, content, b);
    NoToolTurnOk(c, a, content, b);
  }

  lemma TurnOk(c: Config, a: Agent, r: Reply) returns (a': Agent)
    requires AgentOk(c, a) && a.state.Running?
    ensures a' == Turn(c, a, r) && AgentOk(c, a') && a.actions <= a'.actions
  {
    if r.CallFails? {
      a' := Asked(a).(state := Failed);
      CallFailsOk(c, a);
    } else if UsesTools(r) {
      a' := ToolReplyOk(c, a, r);
    } else {
      TurnWithoutTools(c, a, r);
      a' := NoToolReplyOk(c, a, Asked(a).(noToolTurns := a.noToolTurns + 1), r.content, r.bootstrap);
    }
  }

  lemma InitialOk(c: Config, log: Blob<Action>)
    requires log.Absent? || log == List([])
    ensures AgentOk(c, Initial(c, log))
  {
    PlainProtocol(System(c.systemPrompt));
    PlainProtocol(User(c.userPrompt));
    ProtocolConcat([System(c.systemPrompt)], [User(c.userPrompt)]);
    assert [System(c.systemPrompt)] + [User(c.userPrompt)] == [System(c.systemPrompt), User(c.userPrompt)];
  }

  /** The log only grows, the state leaves Running exactly once, and everything above holds at the end of every run. */
  lemma {:induction false} CompleteOk(c: Config, a: Agent, replies: seq<Reply>)
    requires AgentOk(c, a)
    ensures AgentOk(c, Complete(c, a, replies)) && a.actions <= Complete(c, a, replies).actions
    ensures !Complete(c, a, replies).state.Running?
    decreases |replies|
  {
    if a.state.Running? {
      if replies == [] {
        var last := TurnOk(c, a, CallFails);
        assert !last.state.Running?;
      } else {
        var next := TurnOk(c, a, replies[0]);
        CompleteOk(c, next, replies[1..]);
      }
    }
  }

  /** Every run makes at most 3T + 6 model calls for T tool turns; the plan is bootstrapped at most once and before any tool
      turn; every conversation sent follows the protocol; actions are numbered in order; the stored log is an in-order
      part of them; and the root is set, to the root of all actions, exactly when the run completes. */
  lemma RunBounds(c: Config, log: Blob<Action>, replies: seq<Reply>)
    requires log.Absent? || log == List([])
    ensures var end := Complete(c, Initial(c, log), replies);
            && end.calls <= 3 * end.toolTurns + 6 && |end.sent| == end.calls && (forall m | m in end.sent :: Protocol(m))
            && (end.bootstraps == [] || end.bootstraps == [0])
            && (forall i | 0 <= i < |end.actions| :: end.actions[i].index == i)
            && !end.state.Running? && (end.merkleRoot != "" <==> end.state.Completed?)
            && (end.state.Completed? ==> end.merkleRoot == Audit.MerkleRoot(c.sha, end.actions))
            && Recorded(c, end)
  {
    InitialOk(c, log);
    CompleteOk(c, Initial(c, log), replies);
    var end := Complete(c, Initial(c, log), replies);
    RootIsText(c, end.actions);
    if end.bootstraps != [] {
      assert end.bootstraps[0] in end.bootstraps;
    }
  }

  lemma RootIsText(c: Config, actions: seq<Action>)
    ensures |Audit.MerkleRoot(c.sha, actions)| == 64
  {
  }

  // ---- A run in which storing never fails ----

  predicate Stores(run: Execution) {
    run.fault.NoFault?
  }

  predicate StoresAll(r: Reply) {
    r.Reply? ==>
      && (forall t | t in r.toolCalls :: Stores(t.run))
      && Stores(r.bootstrap.analyze) && Stores(r.bootstrap.select) && Stores(r.bootstrap.generate)
  }

  ghost predicate LogFull(a: Agent) {
    !a.log.Garbled? && Entries(a.log).value == a.actions
  }

  lemma RecordFull(c: Config, a: Agent, tool: string, input: Option<Json>, run: Execution)
    requires c.hasLog && LogFull(a) && Stores(run)
    ensures LogFull(Record(c, a, tool, input, run))
  {
    AppendedEntries(a.log, ActionFor(c, |a.actions|, tool, input, run), run.fault);
  }

  lemma {:induction false} RunToolsFull(c: Config, a: Agent, calls: seq<ToolCall>)
    requires c.hasLog && LogFull(a) && forall t | t in calls :: Stores(t.run)
    ensures LogFull(RunTools(c, a, calls))
    decreases |calls|
  {
    if calls != [] {
      var front, t := calls[..|calls| - 1], calls[|calls| - 1];
      RunToolsFull(c, a, front);
      RecordFull(c, RunTools(c, a, front), t.ref.name, Some(Input(t.decoded)), t.run);
    }
  }

  lemma RunBootstrapFull(c: Config, a: Agent, b: Bootstrap)
    requires c.hasLog && LogFull(a) && Stores(b.analyze) && Stores(b.select) && Stores(b.generate)
    ensures LogFull(RunBootstrap(c, a, b).0)
  {
    RecordFull(c, a, "analyze_repo", AnalyzeInput(c), b.analyze);
    var a1 := Record(c, a, "analyze_repo", AnalyzeInput(c), b.analyze);
    RecordFull(c, a1, "select_provider", Some(Object([])), b.select);
    var a2 := Record(c, a1, "select_provider", Some(Object([])), b.select);
    RecordFull(c, a2, "generate_deployment_plan", Some(b.planInput), b.generate);
  }

  lemma NoToolTurnFull(c: Config, a: Agent, content: string, b: Bootstrap)
    requires c.hasLog && LogFull(a) && Stores(b.analyze) && Stores(b.select) && Stores(b.generate)
    ensures LogFull(NoToolTurn(c, a, content, b))
  {
    RunBootstrapFull(c, a, b);
  }

  lemma TurnFull(c: Config, a: Agent, r: Reply) returns (a': Agent)
    requires c.hasLog && LogFull(a) && a.state.Running? && StoresAll(r)
    ensures a' == Turn(c, a, r) && LogFull(a')
  {
    if r.CallFails? {
      a' := Asked(a).(state := Failed);
    } else if UsesTools(r) {
      a' := RunTools(c, Turned(a, r.content, Refs(r.toolCalls)), r.toolCalls);
      RunToolsFull(c, Turned(a, r.content, Refs(r.toolCalls)), r.toolCalls);
    } else {
      a' := NoToolTurn(c, Asked(a).(noToolTurns := a.noToolTurns + 1), r.content, r.bootstrap);
      NoToolTurnFull(c, Asked(a).(noToolTurns := a.noToolTurns + 1), r.content, r.bootstrap);
    }
  }

  /** When no append fails the stored log is the action log. */
  lemma {:induction false} StoredLogIsActionLog(c: Config, a: Agent, replies: seq<Reply>)
    requires c.hasLog && LogFull(a) && forall r | r in replies :: StoresAll(r)
    ensures LogFull(Complete(c, a, replies))
    decreases |replies|
  {
    if a.state.Running? {
      if replies == [] {
        var _ := TurnFull(c, a, CallFails);
      } else {
        assert replies[0] in replies && forall r | r in replies[1..] :: r in replies;
        var next := TurnFull(c, a, replies[0]);
        StoredLogIsActionLog(c, next, replies[1..]);
      }
    }
  }

  /** Completing run by run: the audit of the finished session checks out entry by entry. */
  lemma CompletedRunAudits(c: Config, log: Blob<Action>, replies: seq<Reply>, i: nat)
    requires log.Absent? || log == List([])
    requires var end := Complete(c, Initial(c, log), replies); end.state.Completed? && i < |end.actions|
    ensures var end := Complete(c, Initial(c, log), replies);
            Audit.Checks(c.sha, end.actions[i], Audit.MerkleProof(c.sha, end.actions, i), end.merkleRoot)
  {
    InitialOk(c, log);
    CompleteOk(c, Initial(c, log), replies);
    Audit.EntryChecks(c.sha, Complete(c, Initial(c, log), replies).actions, i);
  }
}
