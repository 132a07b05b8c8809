/** How a run of the agent ends, and what it leaves, read off the model's replies alone. */
module AgentRuns {
  import opened Common
  import opened Actions
  import opened ZeroG
  import opened AgentSpec
  import opened AgentSound
  import Audit

  // ---- The replies ----

  /** A reply that has its tool calls run. */
  predicate Tooled(r: Reply) {
    r.Reply? && r.finishReason == "tool_calls" && r.toolCalls != []
  }

  /** A reply that does not. */
  predicate Plain(r: Reply) {
    r.Reply? && (r.finishReason != "tool_calls" || r.toolCalls == [])
  }

  /** Three replies in a row, from k on, without tools. */
  predicate Quiet(replies: seq<Reply>, k: nat) {
    k + 3 <= |replies| && Plain(replies[k]) && Plain(replies[k + 1]) && Plain(replies[k + 2])
  }

  predicate Answered(replies: seq<Reply>, n: nat) {
    n <= |replies| && forall j | 0 <= j < n :: replies[j].Reply?
  }

  /** No call fails before k, and k is where, from `from` on, the first three replies in a row without tools begin. */
  predicate FirstQuiet(replies: seq<Reply>, from: nat, k: nat) {
    from <= k && Quiet(replies, k) && Answered(replies, k) && forall j | from <= j < k :: !Quiet(replies, j)
  }

  /** The first three replies use no tools although there is a URL: the loop makes the plan itself. */
  predicate Bootstraps(c: Config, replies: seq<Reply>) {
    c.url != "" && Quiet(replies, 0)
  }

  predicate MakesPlan(b: Bootstrap) {
    b.analyze.outcome.Returned? && b.isPlan && b.generate.outcome.Returned?
  }

  // ---- How a run ends ----

  /** Three replies in a row without tools, the n-th being the last, end the run well; unless they are the first three and
      there is a URL, when a plan is made and the count begins again. */
  predicate CompletesAt(c: Config, replies: seq<Reply>, n: nat) {
    n >= 3 &&
    if Bootstraps(c, replies) then MakesPlan(replies[2].bootstrap) && FirstQuiet(replies, 3, n - 3) else FirstQuiet(replies, 0, n - 3)
  }

  /** There is no plan to be had. */
  predicate PlanFails(c: Config, replies: seq<Reply>) {
    Bootstraps(c, replies) && !MakesPlan(replies[2].bootstrap)
  }

  /** After n replies the next call fails, or the context has ended, and nothing has ended the run before. */
  predicate CallFailsAt(c: Config, replies: seq<Reply>, n: nat) {
    && Answered(replies, n) && (n == |replies| || replies[n].CallFails?) && !PlanFails(c, replies)
    && forall m: nat | m <= n :: !CompletesAt(c, replies, m)
  }

  // ---- A loop, reply by reply ----

  /** One round of a loop: what it makes of a state that is still running. */
  type Round = (Agent, Reply) -> Agent

  function RoundOf(c: Config): Round {
    (a: Agent, r: Reply) => if a.state.Running? then Turn(c, a, r) else a
  }

  ghost function After(round: Round, a: Agent, replies: seq<Reply>, i: nat): Agent
    requires i <= |replies|
  {
    if i == 0 then a
    else
      var before := After(round, a, replies, i - 1);
      if before.state.Running? then round(before, replies[i - 1]) else before
  }

  ghost function Whole(round: Round, a: Agent, replies: seq<Reply>): Agent
    decreases |replies|
  {
    if !a.state.Running? then a
    else if replies == [] then round(a, CallFails)
    else Whole(round, round(a, replies[0]), replies[1..])
  }

  lemma {:induction false} CompleteIsWhole(c: Config, a: Agent, replies: seq<Reply>)
    ensures Complete(c, a, replies) == Whole(RoundOf(c), a, replies)
    decreases |replies|
  {
    if a.state.Running? && replies != [] {
      var next := Turn(c, a, replies[0]);
      assert RoundOf(c)(a, replies[0]) == next;
      CompleteIsWhole(c, next, replies[1..]);
    }
  }

  lemma {:induction false} AfterShift(round: Round, a: Agent, replies: seq<Reply>, i: nat)
    requires a.state.Running? && replies != [] && i < |replies|
    ensures After(round, a, replies, i + 1) == After(round, round(a, replies[0]), replies[1..], i)
    decreases i
  {
    if i == 0 {
      assert After(round, a, replies, 0) == a;
    } else {
      AfterShift(round, a, replies, i - 1);
    }
  }

  lemma {:induction false} AfterEnded(round: Round, a: Agent, replies: seq<Reply>, i: nat)
    requires !a.state.Running? && i <= |replies|
    ensures After(round, a, replies, i) == a
    decreases i
  {
    if i > 0 {
      AfterEnded(round, a, replies, i - 1);
    }
  }

  lemma {:induction false} WholeIsAfter(round: Round, a: Agent, replies: seq<Reply>)
    ensures var e := After(round, a, replies, |replies|);
            Whole(round, a, replies) == if e.state.Running? then round(e, CallFails) else e
    decreases |replies|
  {
    if !a.state.Running? {
      AfterEnded(round, a, replies, |replies|);
    } else if replies != [] {
      WholeIsAfter(round, round(a, replies[0]), replies[1..]);
      AfterShift(round, a, replies, |replies| - 1);
    }
  }

  /** What every round keeps of a running state holds wherever the loop has got to. */
  lemma {:induction false} AfterHolds(round: Round, start: Agent, replies: seq<Reply>, holds: (nat, Agent) -> bool, i: nat)
    requires i <= |replies| && holds(0, start)
    requires forall k: nat, e | k < |replies| && holds(k, e) :: holds(k + 1, if e.state.Running? then round(e, replies[k]) else e)
    ensures holds(i, After(round, start, replies, i))
    decreases i
  {
    if i > 0 {
      AfterHolds(round, start, replies, holds, i - 1);
    }
  }

  // ---- Where the loop stands ----

  /** Where the count of replies without tools last began afresh for good. */
  function Base(c: Config, replies: seq<Reply>, i: nat): nat {
    if Bootstraps(c, replies) && i >= 3 then 3 else 0
  }

  /** Still running after i replies: the last few had no tools, the one before them had, and never three in a row. */
  ghost predicate Standing(c: Config, replies: seq<Reply>, i: nat, e: Agent) {
    var base, t := Base(c, replies, i), e.noToolTurns;
    && Answered(replies, i) && e.calls == i && t <= 2 && base + t <= i
    && (forall j | i - t <= j < i :: Plain(replies[j])) && (i - t > base ==> Tooled(replies[i - t - 1]))
    && (forall j | base <= j && j + 3 <= i :: !Quiet(replies, j)) && !PlanFailed(c, replies, i)
    && (e.actions == [] <==> base == 0 && t == i)
  }

  predicate PlanFailed(c: Config, replies: seq<Reply>, i: nat) {
    i >= 3 && PlanFails(c, replies)
  }

  /** Over, as the replies say, no later than after i of them. */
  ghost predicate Ended(c: Config, replies: seq<Reply>, i: nat, e: Agent) {
    && !e.state.Running?
    && (e.state.Completed? ==> CompletesAt(c, replies, e.calls))
    && (e.state.Failed? ==> (e.calls == 3 && PlanFails(c, replies)) || (e.calls > 0 && CallFailsAt(c, replies, e.calls - 1)))
  }

  /** While the loop stands, no earlier reply has completed it. */
  lemma NotYet(c: Config, replies: seq<Reply>, i: nat, e: Agent, m: nat)
    requires Standing(c, replies, i, e) && m <= i
    ensures !CompletesAt(c, replies, m)
  {
    assert m >= 3 && Base(c, replies, i) <= m - 3 ==> !Quiet(replies, m - 3);
  }

  lemma FailsNow(c: Config, replies: seq<Reply>, i: nat, e: Agent)
    requires Standing(c, replies, i, e) && (i == |replies| || (i < |replies| && replies[i].CallFails?))
    ensures CallFailsAt(c, replies, i)
  {
    forall m: nat | m <= i
      ensures !CompletesAt(c, replies, m)
    {
      NotYet(c, replies, i, e, m);
    }
  }

  lemma ToolsKeepStanding(c: Config, replies: seq<Reply>, i: nat, e: Agent, e': Agent)
    requires Standing(c, replies, i, e) && i < |replies| && Tooled(replies[i])
    requires e'.calls == i + 1 && e'.noToolTurns == 0 && e'.actions != []
    ensures Standing(c, replies, i + 1, e')
  {
    forall j | Base(c, replies, i + 1) <= j && j + 3 <= i + 1
      ensures !Quiet(replies, j)
    {
      if j + 3 == i + 1 {
        assert replies[j + 2] == replies[i];
      }
    }
  }

  lemma NudgeKeepsStanding(c: Config, replies: seq<Reply>, i: nat, e: Agent, e': Agent)
    requires Standing(c, replies, i, e) && i < |replies| && Plain(replies[i]) && e.noToolTurns < 2
    requires e'.calls == i + 1 && e'.noToolTurns == e.noToolTurns + 1 && e'.actions == e.actions
    ensures Standing(c, replies, i + 1, e')
  {
    var base, t := Base(c, replies, i), e.noToolTurns;
    if base + 3 <= i + 1 && i >= t + 1 {
      assert i - t > base;
    }
    forall j | Base(c, replies, i + 1) <= j && j + 3 <= i + 1
      ensures !Quiet(replies, j)
    {
      if j + 3 == i + 1 {
        assert !Plain(replies[i - t - 1]) && j <= i - t - 1 < i;
      }
    }
  }

  /** The third in a row: it is the first place where that happens, so only the bootstrap can go on from here. */
  lemma ThirdInARow(c: Config, replies: seq<Reply>, i: nat, e: Agent)
    requires Standing(c, replies, i, e) && i < |replies| && Plain(replies[i]) && e.noToolTurns == 2
    ensures FirstQuiet(replies, Base(c, replies, i), i - 2)
    ensures e.actions == [] && c.url != "" <==> i == 2 && Bootstraps(c, replies)
    ensures !(e.actions == [] && c.url != "") ==> CompletesAt(c, replies, i + 1)
  {
    assert Quiet(replies, i - 2);
  }

  lemma PlanKeepsStanding(c: Config, replies: seq<Reply>, e': Agent)
    requires Bootstraps(c, replies) && MakesPlan(replies[2].bootstrap)
    requires e'.calls == 3 && e'.noToolTurns == 0 && e'.actions != []
    ensures Standing(c, replies, 3, e')
  {
  }

  lemma ToolsFrame(c: Config, a: Agent, calls: seq<ToolCall>)
    requires calls != []
    ensures var a' := RunTools(c, a, calls);
            OnlyMoves(a, a') && a'.actions != []
  {
    RunToolsMoves(c, a, calls);
    RunToolsMoves(c, a, calls[..|calls| - 1]);
  }

  predicate OnlyMoves(a: Agent, a': Agent) {
    a' == a.(actions := a'.actions, log := a'.log, messages := a'.messages)
  }

  lemma {:induction false} RunToolsMoves(c: Config, a: Agent, calls: seq<ToolCall>)
    ensures OnlyMoves(a, RunTools(c, a, calls))
    decreases |calls|
  {
    if calls != [] {
      RunToolsMoves(c, a, calls[..|calls| - 1]);
    }
  }

  lemma BootstrapFrame(c: Config, a: Agent, b: Bootstrap)
    ensures var (a', ok) := RunBootstrap(c, a, b);
            OnlyMoves(a, a') && a'.messages == a.messages && a'.actions != [] && (ok <==> MakesPlan(b))
  {
  }

  /** What a reply without tools comes to. */
  predicate PlainEffect(c: Config, e: Agent, b: Bootstrap, e': Agent) {
    && e'.calls == e.calls + 1
    && if e.noToolTurns < 2 then e'.state.Running? && e'.noToolTurns == e.noToolTurns + 1 && e'.actions == e.actions
       else if e.actions == [] && c.url != "" then
         e'.actions != [] && if MakesPlan(b) then e'.state.Running? && e'.noToolTurns == 0 else e'.state.Failed?
       else e'.state.Completed?
  }

  lemma PlainTurn(c: Config, e: Agent, r: Reply)
    requires e.state.Running? && Plain(r)
    ensures PlainEffect(c, e, r.bootstrap, Turn(c, e, r))
  {
    var asked := Asked(e).(noToolTurns := e.noToolTurns + 1);
    TurnWithoutTools(c, e, r);
    BootstrapFrame(c, asked, r.bootstrap);
  }

  /** What holds of the state after i replies. */
  ghost predicate Told(c: Config, replies: seq<Reply>, i: nat, e: Agent) {
    if e.state.Running? then Standing(c, replies, i, e) else Ended(c, replies, i, e)
  }

  lemma PlainStands(c: Config, replies: seq<Reply>, i: nat, e: Agent, e': Agent)
    requires Standing(c, replies, i, e) && e.state.Running? && i < |replies| && Plain(replies[i])
    requires PlainEffect(c, e, replies[i].bootstrap, e')
    ensures Told(c, replies, i + 1, e')
  {
    if e.noToolTurns < 2 {
      NudgeKeepsStanding(c, replies, i, e, e');
    } else {
      ThirdInARow(c, replies, i, e);
      if i == 2 && Bootstraps(c, replies) && MakesPlan(replies[2].bootstrap) {
        PlanKeepsStanding(c, replies, e');
      }
    }
  }

  lemma TurnStands(c: Config, replies: seq<Reply>, i: nat, e: Agent)
    requires Standing(c, replies, i, e) && e.state.Running? && i < |replies|
    ensures Told(c, replies, i + 1, RoundOf(c)(e, replies[i]))
  {
    var r := replies[i];
    if r.CallFails? {
      FailsNow(c, replies, i, e);
    } else if Tooled(r) {
      ToolsFrame(c, Turned(e, r.content, Refs(r.toolCalls)), r.toolCalls);
      ToolsKeepStanding(c, replies, i, e, Turn(c, e, r));
    } else {
      PlainTurn(c, e, r);
      PlainStands(c, replies, i, e, Turn(c, e, r));
    }
  }

  // ---- The endings exclude each other ----

  lemma QuietAnswered(replies: seq<Reply>, from: nat, k: nat)
    requires FirstQuiet(replies, from, k)
    ensures Answered(replies, k + 3)
  {
  }

  lemma OneCompletion(c: Config, replies: seq<Reply>, m: nat, n: nat)
    requires CompletesAt(c, replies, m) && CompletesAt(c, replies, n)
    ensures m == n
  {
    assert Quiet(replies, m - 3) && Quiet(replies, n - 3);
  }

  lemma CompletedOrFailed(c: Config, replies: seq<Reply>, m: nat, n: nat)
    requires CompletesAt(c, replies, m)
    ensures !PlanFails(c, replies) && !CallFailsAt(c, replies, n)
  {
    QuietAnswered(replies, Base(c, replies, m), m - 3);
    assert n < m ==> replies[n].Reply?;
  }

  lemma OneFailure(c: Config, replies: seq<Reply>, m: nat, n: nat)
    requires CallFailsAt(c, replies, m) && CallFailsAt(c, replies, n)
    ensures m == n
  {
    assert (m < |replies| ==> !replies[m].Reply?) && (n < |replies| ==> !replies[n].Reply?);
  }

  /** How every run ends, read off the replies alone. It completes, with as many calls as that took, exactly at the third
      reply in a row without tools that does not start a bootstrap; it fails exactly when the bootstrap makes no plan, or when
      a call fails or the context ends before any of that. */
  lemma RunFate(c: Config, log: Blob<Action>, replies: seq<Reply>)
    ensures var end := Complete(c, Initial(c, log), replies);
            && (forall n: nat :: CompletesAt(c, replies, n) <==> end.state.Completed? && end.calls == n)
            && (PlanFails(c, replies) <==> end.state.Failed? && end.calls == 3 && Bootstraps(c, replies))
            && (forall n: nat :: CallFailsAt(c, replies, n) <==> end.state.Failed? && end.calls == n + 1 && !PlanFails(c, replies))
            && !end.state.Running?
  {
    var end := Complete(c, Initial(c, log), replies);
    RunEnds(c, log, replies);
    forall n: nat
      ensures CompletesAt(c, replies, n) <==> end.state.Completed? && end.calls == n
      ensures CallFailsAt(c, replies, n) <==> end.state.Failed? && end.calls == n + 1 && !PlanFails(c, replies)
    {
      Exclusive(c, replies, end, n);
    }
  }

  /** What is told of the loop, as a property of where it has got to. */
  ghost function Story(c: Config, replies: seq<Reply>): (nat, Agent) -> bool {
    (k: nat, e: Agent) => Told(c, replies, k, e)
  }

  lemma RoundStands(c: Config, replies: seq<Reply>, k: nat, e: Agent)
    requires k < |replies| && Told(c, replies, k, e)
    ensures Story(c, replies)(k + 1, if e.state.Running? then RoundOf(c)(e, replies[k]) else e)
  {
    if e.state.Running? {
      TurnStands(c, replies, k, e);
    }
  }

  lemma AfterTold(c: Config, start: Agent, replies: seq<Reply>)
    requires Story(c, replies)(0, start)
    ensures Story(c, replies)(|replies|, After(RoundOf(c), start, replies, |replies|))
  {
    forall k: nat, e | k < |replies| && Story(c, replies)(k, e)
      ensures Story(c, replies)(k + 1, if e.state.Running? then RoundOf(c)(e, replies[k]) else e)
    {
      RoundStands(c, replies, k, e);
    }
    AfterHolds(RoundOf(c), start, replies, Story(c, replies), |replies|);
  }

  lemma StartTold(c: Config, log: Blob<Action>, replies: seq<Reply>)
    ensures Story(c, replies)(0, Initial(c, log))
  {
    assert Told(c, replies, 0, Initial(c, log));
  }

  lemma RunEnds(c: Config, log: Blob<Action>, replies: seq<Reply>)
    ensures Ended(c, replies, |replies|, Complete(c, Initial(c, log), replies))
  {
    StartTold(c, log, replies);
    AfterTold(c, Initial(c, log), replies);
    CompleteIsWhole(c, Initial(c, log), replies);
    WholeIsAfter(RoundOf(c), Initial(c, log), replies);
    LastCall(c, replies, After(RoundOf(c), Initial(c, log), replies, |replies|));
  }

  lemma LastCall(c: Config, replies: seq<Reply>, e: Agent)
    requires Story(c, replies)(|replies|, e)
    ensures Ended(c, replies, |replies|, if e.state.Running? then RoundOf(c)(e, CallFails) else e)
  {
    if e.state.Running? {
      FailsNow(c, replies, |replies|, e);
    }
  }

  lemma Exclusive(c: Config, replies: seq<Reply>, end: Agent, n: nat)
    requires Ended(c, replies, |replies|, end)
    ensures CompletesAt(c, replies, n) <==> end.state.Completed? && end.calls == n
    ensures CallFailsAt(c, replies, n) <==> end.state.Failed? && end.calls == n + 1 && !PlanFails(c, replies)
  {
    if end.state.Completed? {
      CompletedOrFailed(c, replies, end.calls, n);
      if CompletesAt(c, replies, n) {
        OneCompletion(c, replies, end.calls, n);
      }
    } else {
      if CompletesAt(c, replies, n) {
        CompletedOrFailed(c, replies, n, if end.calls > 0 then end.calls - 1 else 0);
      } else if CallFailsAt(c, replies, n) && !PlanFails(c, replies) {
        OneFailure(c, replies, n, end.calls - 1);
      }
    }
  }

  // ---- What a run leaves ----

  /** The first n parts, one after the other. */
  function Gather<E>(parts: nat -> seq<E>, n: nat): seq<E> {
    if n == 0 then [] else Gather(parts, n - 1) + parts(n - 1)
  }

  lemma {:induction false} GatherSome<E>(parts: nat -> seq<E>, k: nat, n: nat)
    requires k < n && parts(k) != []
    ensures Gather(parts, n) != []
    decreases n
  {
    if k < n - 1 {
      GatherSome(parts, k, n - 1);
    }
  }

  /** What a reply has done: its tool calls, or, when it is the one that starts the bootstrap, the bootstrap's runs. */
  function DoneBy(c: Config, replies: seq<Reply>, i: nat): seq<Deed> {
    if i >= |replies| then []
    else if Tooled(replies[i]) then CallDeeds(replies[i].toolCalls)
    else if i == 2 && Bootstraps(c, replies) then PlanDeeds(c, replies[i].bootstrap) else []
  }

  function Doings(c: Config, replies: seq<Reply>): nat -> seq<Deed> {
    (i: nat) => DoneBy(c, replies, i)
  }

  /** What the first n replies have done. */
  function Deeds(c: Config, replies: seq<Reply>, n: nat): seq<Deed> {
    Gather(Doings(c, replies), n)
  }

  /** The calls as the model made them. */
  function Asks(calls: seq<ToolCall>): seq<CallRef> {
    seq(|calls|, i requires 0 <= i < |calls| => calls[i].ref)
  }

  /** What a reply adds to the conversation: its calls with their results, or the loop's answer to a reply without any. */
  function SaidAfter(c: Config, replies: seq<Reply>, i: nat): seq<Message> {
    if i >= |replies| || replies[i].CallFails? then [] else
    var r := replies[i];
    if Tooled(r) then [Assistant(r.content, Asks(r.toolCalls))] + Results(r.toolCalls)
    else
      [Assistant(r.content, []),
       User(if i == 2 && Bootstraps(c, replies) then "Planning is confirmed. Continue deployment by calling tools only."
            else "Use at least one tool call now. If a GitHub URL exists, call analyze_repo first.")]
  }

  function Sayings(c: Config, replies: seq<Reply>): nat -> seq<Message> {
    (i: nat) => SaidAfter(c, replies, i)
  }

  /** The conversation that n replies lead to. */
  function Said(c: Config, replies: seq<Reply>, n: nat): seq<Message> {
    [System(c.systemPrompt), User(c.userPrompt)] + Gather(Sayings(c, replies), n)
  }

  /** One round: the conversation so far was sent, and this much was said and done. */
  ghost predicate Adds(c: Config, e: Agent, e': Agent, more: seq<Message>, deeds: seq<Deed>) {
    && e'.calls == e.calls + 1 && e'.sent == e.sent + [e.messages] && RecordsAll(c, e'.actions, deeds)
    && (e'.state.Running? ==> e'.messages == e.messages + more)
  }

  lemma ToolTurnAdds(c: Config, e: Agent, r: Reply, deeds: seq<Deed>)
    requires e.state.Running? && Tooled(r) && RecordsAll(c, e.actions, deeds)
    ensures Adds(c, e, Turn(c, e, r), [Assistant(r.content, Asks(r.toolCalls))] + Results(r.toolCalls), deeds + CallDeeds(r.toolCalls))
  {
    assert Refs(r.toolCalls) == Asks(r.toolCalls);
    var turned := Turned(e, r.content, Refs(r.toolCalls));
    RunToolsLog(c, turned, deeds, r.toolCalls);
    RunToolsMessages(c, turned, r.toolCalls);
    ToolsFrame(c, turned, r.toolCalls);
    ToolCallsAdd(c, e, turned, Turn(c, e, r), [Assistant(r.content, Asks(r.toolCalls))], Results(r.toolCalls), deeds + CallDeeds(r.toolCalls));
  }

  lemma ToolCallsAdd(c: Config, e: Agent, turned: Agent, e': Agent, first: seq<Message>, results: seq<Message>, deeds: seq<Deed>)
    requires OnlyMoves(turned, e') && RecordsAll(c, e'.actions, deeds) && e'.messages == turned.messages + results
    requires turned.messages == e.messages + first && turned.calls == e.calls + 1 && turned.sent == e.sent + [e.messages]
    ensures Adds(c, e, e', first + results, deeds)
  {
    assert e.messages + first + results == e.messages + (first + results);
  }

  /** A reply without tools adds the loop's answer, and the runs of the bootstrap if it starts one. */
  lemma PlainTurnAdds(c: Config, e: Agent, r: Reply, deeds: seq<Deed>)
    requires e.state.Running? && Plain(r) && RecordsAll(c, e.actions, deeds)
    ensures var plans := e.noToolTurns >= 2 && e.actions == [] && c.url != "";
            Adds(c, e, Turn(c, e, r),
                 [Assistant(r.content, []),
                  User(if plans then "Planning is confirmed. Continue deployment by calling tools only."
                       else "Use at least one tool call now. If a GitHub URL exists, call analyze_repo first.")],
                 if plans then deeds + PlanDeeds(c, r.bootstrap) else deeds)
  {
    var asked := Asked(e).(noToolTurns := e.noToolTurns + 1);
    TurnWithoutTools(c, e, r);
    BootstrapFrame(c, asked, r.bootstrap);
    RunBootstrapLog(c, asked, deeds, r.bootstrap);
  }

  lemma TurnAdds(c: Config, replies: seq<Reply>, i: nat, e: Agent, deeds: seq<Deed>)
    requires Standing(c, replies, i, e) && e.state.Running? && i < |replies| && RecordsAll(c, e.actions, deeds)
    ensures Adds(c, e, RoundOf(c)(e, replies[i]), SaidAfter(c, replies, i), deeds + DoneBy(c, replies, i))
  {
    var r := replies[i];
    assert deeds + [] == deeds;
    if Tooled(r) {
      ToolTurnAdds(c, e, r, deeds);
    } else if Plain(r) {
      PlainTurnAdds(c, e, r, deeds);
      if e.noToolTurns == 2 {
        ThirdInARow(c, replies, i, e);
      }
    }
  }

  /** Where the run stands or has ended: every run of a tool is recorded, and every conversation sent was the one the replies
      had led to. */
  ghost predicate Kept(c: Config, replies: seq<Reply>, i: nat, e: Agent) {
    && i <= |replies| && e.calls <= i && (e.state.Running? ==> e.calls == i && e.messages == Said(c, replies, i))
    && RecordsAll(c, e.actions, Deeds(c, replies, e.calls)) && e.sent == Conversations(c, replies, e.calls)
  }

  function Sending(c: Config, replies: seq<Reply>): nat -> seq<seq<Message>> {
    (k: nat) => [Said(c, replies, k)]
  }

  /** The conversations sent with the first n calls. */
  function Conversations(c: Config, replies: seq<Reply>, n: nat): seq<seq<Message>> {
    Gather(Sending(c, replies), n)
  }

  lemma OneMoreConversation(c: Config, replies: seq<Reply>, n: nat)
    ensures Conversations(c, replies, n + 1) == Conversations(c, replies, n) + [Said(c, replies, n)]
  {
    GatherAfter([], Sending(c, replies), n);
  }

  lemma OneMoreSaying(c: Config, replies: seq<Reply>, n: nat)
    ensures Said(c, replies, n + 1) == Said(c, replies, n) + SaidAfter(c, replies, n)
  {
    GatherAfter([System(c.systemPrompt), User(c.userPrompt)], Sayings(c, replies), n);
  }

  lemma OneMoreDeed(c: Config, replies: seq<Reply>, n: nat)
    ensures Deeds(c, replies, n + 1) == Deeds(c, replies, n) + DoneBy(c, replies, n)
  {
    GatherAfter([], Doings(c, replies), n);
  }

  lemma GatherAfter<E>(first: seq<E>, parts: nat -> seq<E>, n: nat)
    ensures Gather(parts, n + 1) == Gather(parts, n) + parts(n)
    ensures first + Gather(parts, n + 1) == first + Gather(parts, n) + parts(n)
  {
  }

  lemma AddsKeeps(c: Config, replies: seq<Reply>, i: nat, e: Agent, e': Agent, more: seq<Message>, deeds: seq<Deed>)
    requires i < |replies| && Kept(c, replies, i, e) && e.state.Running? && Adds(c, e, e', more, deeds)
    requires Said(c, replies, i + 1) == e.messages + more && Deeds(c, replies, i + 1) == deeds
    requires Conversations(c, replies, i + 1) == e.sent + [e.messages]
    ensures Kept(c, replies, i + 1, e')
  {
  }

  lemma RoundKeeps(c: Config, replies: seq<Reply>, i: nat, e: Agent)
    requires i < |replies| && Told(c, replies, i, e) && Kept(c, replies, i, e)
    ensures Kept(c, replies, i + 1, if e.state.Running? then RoundOf(c)(e, replies[i]) else e)
  {
    if e.state.Running? {
      TurnAdds(c, replies, i, e, Deeds(c, replies, i));
      OneMoreConversation(c, replies, i);
      OneMoreSaying(c, replies, i);
      OneMoreDeed(c, replies, i);
      AddsKeeps(c, replies, i, e, RoundOf(c)(e, replies[i]), SaidAfter(c, replies, i), Deeds(c, replies, i) + DoneBy(c, replies, i));
    }
  }

  ghost function Memory(c: Config, replies: seq<Reply>): (nat, Agent) -> bool {
    (k: nat, e: Agent) => Told(c, replies, k, e) && Kept(c, replies, k, e)
  }

  lemma RoundRecords(c: Config, replies: seq<Reply>, k: nat, e: Agent)
    requires k < |replies| && Memory(c, replies)(k, e)
    ensures Memory(c, replies)(k + 1, if e.state.Running? then RoundOf(c)(e, replies[k]) else e)
  {
    RoundStands(c, replies, k, e);
    RoundKeeps(c, replies, k, e);
  }

  lemma StartRecords(c: Config, log: Blob<Action>, replies: seq<Reply>)
    ensures Memory(c, replies)(0, Initial(c, log))
  {
    StartTold(c, log, replies);
    assert Kept(c, replies, 0, Initial(c, log));
  }

  lemma AfterRecords(c: Config, start: Agent, replies: seq<Reply>)
    requires Memory(c, replies)(0, start)
    ensures Memory(c, replies)(|replies|, After(RoundOf(c), start, replies, |replies|))
  {
    forall k: nat, e | k < |replies| && Memory(c, replies)(k, e)
      ensures Memory(c, replies)(k + 1, if e.state.Running? then RoundOf(c)(e, replies[k]) else e)
    {
      RoundRecords(c, replies, k, e);
    }
    AfterHolds(RoundOf(c), start, replies, Memory(c, replies), |replies|);
  }

  /** What a run has left when it is over. */
  ghost predicate Leaves(c: Config, replies: seq<Reply>, end: Agent) {
    && end.calls <= |replies| + 1 && end.sent == Conversations(c, replies, end.calls)
    && RecordsAll(c, end.actions, Deeds(c, replies, Min(end.calls, |replies|)))
  }

  /** What every run leaves, read off the replies alone: one action for each run of a tool, in order, saying what was run, when,
      and what came of it; and one conversation sent for each call, the one the replies before had led to. */
  lemma RunLeaves(c: Config, log: Blob<Action>, replies: seq<Reply>)
    ensures Leaves(c, replies, Complete(c, Initial(c, log), replies))
  {
    StartRecords(c, log, replies);
    AfterRecords(c, Initial(c, log), replies);
    CompleteIsWhole(c, Initial(c, log), replies);
    WholeIsAfter(RoundOf(c), Initial(c, log), replies);
    LastLeaves(c, replies, After(RoundOf(c), Initial(c, log), replies, |replies|));
  }

  lemma LastLeaves(c: Config, replies: seq<Reply>, e: Agent)
    requires Memory(c, replies)(|replies|, e)
    ensures Leaves(c, replies, if e.state.Running? then RoundOf(c)(e, CallFails) else e)
  {
    assert Kept(c, replies, |replies|, e);
    if e.state.Running? {
      FailureLeaves(c, replies, e, Asked(e).(state := Failed));
    }
  }

  lemma FailureLeaves(c: Config, replies: seq<Reply>, e: Agent, end: Agent)
    requires e.calls == |replies| && e.messages == Said(c, replies, |replies|) && e.sent == Conversations(c, replies, |replies|)
    requires RecordsAll(c, e.actions, Deeds(c, replies, |replies|))
    requires end.calls == e.calls + 1 && end.sent == e.sent + [e.messages] && end.actions == e.actions
    ensures Leaves(c, replies, end)
  {
    OneMoreConversation(c, replies, |replies|);
  }

  // ---- What follows ----

  /** With a URL to work on, no run completes without having done something. */
  lemma NothingForNothing(c: Config, log: Blob<Action>, replies: seq<Reply>)
    requires Complete(c, Initial(c, log), replies).state.Completed? && c.url != ""
    ensures Complete(c, Initial(c, log), replies).actions != []
  {
    RunFate(c, log, replies);
    RunLeaves(c, log, replies);
    SomethingDone(c, replies, Complete(c, Initial(c, log), replies).calls);
  }

  lemma SomethingDone(c: Config, replies: seq<Reply>, n: nat)
    requires CompletesAt(c, replies, n) && c.url != ""
    ensures n <= |replies| && Deeds(c, replies, n) != []
  {
    var k := SomeDoing(c, replies, n);
    GatherSome(Doings(c, replies), k, n);
  }

  /** The bootstrap's reply, or the reply with tools before the three without. */
  lemma SomeDoing(c: Config, replies: seq<Reply>, n: nat) returns (k: nat)
    requires CompletesAt(c, replies, n) && c.url != ""
    ensures k < n <= |replies| && DoneBy(c, replies, k) != []
  {
    if Bootstraps(c, replies) {
      k := 2;
    } else {
      assert Quiet(replies, n - 3) && !Quiet(replies, 0);
      k := n - 4;
      assert !Quiet(replies, k) && replies[k].Reply?;
      CallDone(c, replies, k);
    }
  }

  lemma CallDone(c: Config, replies: seq<Reply>, k: nat)
    requires k < |replies| && Tooled(replies[k])
    ensures DoneBy(c, replies, k) != []
  {
    assert |DoneBy(c, replies, k)| == |replies[k].toolCalls|;
  }

  /** For instance, a run that uses tools once and then answers three times without completes. */
  lemma ToolsThenTalk(c: Config, log: Blob<Action>, replies: seq<Reply>)
    requires |replies| == 4 && Tooled(replies[0]) && Plain(replies[1]) && Plain(replies[2]) && Plain(replies[3])
    ensures var end := Complete(c, Initial(c, log), replies); end.state.Completed? && end.calls == 4
  {
    assert !Quiet(replies, 0) && Quiet(replies, 1);
    assert CompletesAt(c, replies, 4);
    RunFate(c, log, replies);
  }

  /** Every entry of a completed run's audit says what was done at that point of the run, and folds to the root. */
  lemma AuditTellsRun(c: Config, log: Blob<Action>, replies: seq<Reply>, i: nat)
    requires log.Absent? || log == List([])
    requires var end := Complete(c, Initial(c, log), replies); end.state.Completed? && i < |end.actions|
    ensures var end := Complete(c, Initial(c, log), replies);
            && end.calls <= |replies| && i < |Deeds(c, replies, end.calls)|
            && Records(c, end.actions[i], i, Deeds(c, replies, end.calls)[i])
            && Audit.Checks(c.sha, end.actions[i], Audit.MerkleProof(c.sha, end.actions, i), end.merkleRoot)
  {
    RunFate(c, log, replies);
    RunLeaves(c, log, replies);
    CompletedRunAudits(c, log, replies, i);
    assert CompletesAt(c, replies, Complete(c, Initial(c, log), replies).calls);
  }
}
