/** The session as the program keeps it: fields updated in place by the loop, equal to the step machine on every run. */
module Sessions {
  import opened Common
  import opened Actions
  import opened JsonText
  import opened ZeroG
  import opened AgentSpec
  import Audit

  class Session {
    const id: string
    const zeroG: Store?<Action>
    var state: SessionState
    var actions: seq<Action>
    var merkleRoot: string

    constructor (id: string, zeroG: Store?<Action>)
      ensures this.id == id && this.zeroG == zeroG
      ensures state == Running && actions == [] && merkleRoot == ""
    {
      this.id := id;
      this.zeroG := zeroG;
      state := Running;
      actions := [];
      merkleRoot := "";
    }

    ghost function Log(): Blob<Action>
      reads this, zeroG
    {
      if zeroG == null then Absent else zeroG.Holds(id)
    }

    /** The fields are those of the step machine. */
    ghost predicate Matches(a: Agent)
      reads this, zeroG
    {
      state == a.state && actions == a.actions && merkleRoot == a.merkleRoot && Log() == a.log
    }

    /** Record one tool run and store the record; a failed append is only logged. */
    method ExecuteToolAndRecord(c: Config, tool: string, input: Option<Json>, run: Execution, ghost a: Agent)
      requires Matches(a) && c.hasLog == (zeroG != null)
      modifies this`actions, zeroG
      ensures Matches(Record(c, a, tool, input, run))
    {
      var action := ActionFor(c, |actions|, tool, input, run);
      actions := actions + [action];
      if zeroG != null {
        var _ := zeroG.Append(id, action, run.fault);
      }
    }

    method BootstrapInitialPlan(c: Config, b: Bootstrap, ghost a: Agent) returns (ok: bool)
      requires Matches(a) && c.hasLog == (zeroG != null)
      modifies this`actions, zeroG
      ensures Matches(RunBootstrap(c, a, b).0) && ok == RunBootstrap(c, a, b).1
    {
      ExecuteToolAndRecord(c, "analyze_repo", AnalyzeInput(c), b.analyze, a);
      ghost var a1 := Record(c, a, "analyze_repo", AnalyzeInput(c), b.analyze);
      if b.analyze.outcome.ToolError? {
        return false;
      }
      ExecuteToolAndRecord(c, "select_provider", Some(Object([])), b.select, a1);
      ghost var a2 := Record(c, a1, "select_provider", Some(Object([])), b.select);
      if !b.isPlan {
        return false;
      }
      ExecuteToolAndRecord(c, "generate_deployment_plan", Some(b.planInput), b.generate, a2);
      ok := b.generate.outcome.Returned?;
    }

    /** Run every tool call of one reply; the messages grow by one result a call. */
    method ExecuteToolCalls(c: Config, calls: seq<ToolCall>, sofar: seq<Message>, ghost a: Agent) returns (messages: seq<Message>)
      requires Matches(a) && c.hasLog == (zeroG != null) && sofar == a.messages
      modifies this`actions, zeroG
      ensures Matches(RunTools(c, a, calls)) && messages == RunTools(c, a, calls).messages
    {
      messages := sofar;
      for i := 0 to |calls|
        invariant Matches(RunTools(c, a, calls[..i])) && messages == RunTools(c, a, calls[..i]).messages
      {
        assert calls[..i + 1][..i] == calls[..i];
        var t := calls[i];
        var toolInput := Input(t.decoded);
        ExecuteToolAndRecord(c, t.ref.name, Some(toolInput), t.run, RunTools(c, a, calls[..i]));
        messages := messages + [ToolResult(t.ref.id, ResultContent(t.run.outcome))];
      }
      assert calls[..|calls|] == calls;
    }

    /** A turn without tool calls: ask again, bootstrap a plan once, or finish. */
    method WithoutTools(c: Config, content: string, b: Bootstrap, sofar: seq<Message>, turns: nat, ghost a: Agent)
      returns (messages: seq<Message>, consecutiveNoToolTurns: nat, finished: bool)
      requires Matches(a) && state == Running && c.hasLog == (zeroG != null) && sofar == a.messages && turns == a.noToolTurns
      modifies this`actions, this`state, zeroG
      ensures finished <==> NoToolTurn(c, a, content, b).state.Completed?
      ensures if finished then Matches(a) && NoToolTurn(c, a, content, b) == Finished(c, a) else Matches(NoToolTurn(c, a, content, b))
      ensures state == Running && !finished ==>
                messages == NoToolTurn(c, a, content, b).messages && consecutiveNoToolTurns == NoToolTurn(c, a, content, b).noToolTurns
    {
      messages, consecutiveNoToolTurns, finished := sofar, turns, false;
      if consecutiveNoToolTurns <= 2 {
        messages := messages + [Assistant(content, []), User(NUDGE)];
        return;
      }
      if actions == [] && c.url != "" {
        var ok := BootstrapInitialPlan(c, b, a);
        if !ok {
          state := Failed;
          return;
        }
        consecutiveNoToolTurns := 0;
        messages := messages + [Assistant(content, []), User(CONFIRMED)];
        return;
      }
      finished := true;
    }

    /** What one reply does. */
    method HandleReply(c: Config, reply: Reply, sofar: seq<Message>, turns: nat, ghost a: Agent)
      returns (messages: seq<Message>, consecutiveNoToolTurns: nat, finished: bool)
      requires reply.Reply? && a.state == state == Running && Matches(a)
      requires c.hasLog == (zeroG != null) && sofar == a.messages && turns == a.noToolTurns
      modifies this`actions, this`state, zeroG
      ensures Handled(c, a, Turn(c, a, reply), finished)
      ensures state == Running && !finished ==>
                messages == Turn(c, a, reply).messages && consecutiveNoToolTurns == Turn(c, a, reply).noToolTurns
    {
      if UsesTools(reply) {
        consecutiveNoToolTurns, finished := 0, false;
        messages := sofar + [Assistant(reply.content, Refs(reply.toolCalls))];
        messages := ExecuteToolCalls(c, reply.toolCalls, messages, Turned(a, reply.content, Refs(reply.toolCalls)));
        RunToolsFrame(c, Turned(a, reply.content, Refs(reply.toolCalls)), reply.toolCalls);
      } else {
        messages, consecutiveNoToolTurns, finished :=
          WithoutTools(c, reply.content, reply.bootstrap, sofar, turns + 1, Asked(a).(noToolTurns := a.noToolTurns + 1));
      }
    }

    /** The loop. The model's replies and the tools' outcomes come from outside; when they run out, the context has ended. */
    method Run(c: Config, replies: seq<Reply>)
      requires state == Running && actions == [] && merkleRoot == "" && c.hasLog == (zeroG != null)
      modifies this, zeroG
      ensures Matches(Complete(c, Initial(c, old(Log())), replies))
    {
      var messages := [System(c.systemPrompt), User(c.userPrompt)];
      var consecutiveNoToolTurns := 0;
      var n := 0;
      ghost var start := Initial(c, Log());
      ghost var a := start;
      while true
        invariant 0 <= n <= |replies| && state == Running
        invariant Matches(a) && a.messages == messages && a.noToolTurns == consecutiveNoToolTurns
        invariant Complete(c, a, replies[n..]) == Complete(c, start, replies)
        decreases |replies| - n
      {
        if n == |replies| || replies[n].CallFails? {
          FailedCallEnds(c, a, replies[n..]);
          state := Failed;
          return;
        }
        ghost var next := ReplyGoesOn(c, a, replies[n..]);
        var finished;
        messages, consecutiveNoToolTurns, finished := HandleReply(c, replies[n], messages, consecutiveNoToolTurns, a);
        if finished {
          break;
        }
        if state == Failed {
          return;
        }
        a, n := next, n + 1;
      }
      merkleRoot := Audit.ComputeMerkleRoot(c.sha, actions);
      state := Completed;
    }

    /** The fields are those of the next agent, except that a finished one still lacks its root and its state. */
    ghost predicate Handled(c: Config, a: Agent, next: Agent, finished: bool)
      reads this, zeroG
    {
      if finished then
        state == Running && next.state == Completed && actions == next.actions && Log() == next.log
        && next.merkleRoot == Audit.MerkleRoot(c.sha, actions)
      else Matches(next) && next.state != Completed
    }
  }

  lemma {:induction false} RunToolsFrame(c: Config, a: Agent, calls: seq<ToolCall>)
    ensures var a' := RunTools(c, a, calls); a'.state == a.state && a'.noToolTurns == a.noToolTurns && a'.merkleRoot == a.merkleRoot
    decreases |calls|
  {
    if calls != [] {
      RunToolsFrame(c, a, calls[..|calls| - 1]);
    }
  }

  lemma FailedCallEnds(c: Config, a: Agent, replies: seq<Reply>)
    requires a.state.Running? && (replies == [] || replies[0].CallFails?)
    ensures Complete(c, a, replies) == Asked(a).(state := Failed)
  {
    if replies != [] {
      assert Complete(c, a, replies) == Complete(c, Turn(c, a, replies[0]), replies[1..]);
    }
  }

  lemma ReplyGoesOn(c: Config, a: Agent, replies: seq<Reply>) returns (next: Agent)
    requires a.state.Running? && replies != []
    ensures next == Turn(c, a, replies[0]) && Complete(c, a, replies) == Complete(c, next, replies[1..])
    ensures !next.state.Running? ==> Complete(c, a, replies) == next
  {
    next := Turn(c, a, replies[0]);
  }
}
