/** Theorems about whole runs of the MCP server. */
module McpServerRuns {
  import opened Wrappers
  import opened Counting
  import opened Values
  import opened McpServer
  import opened McpServerProofs

  datatype Event =
    | Receive(message: Dictionary)
    | Complete(content: seq<Value>, isError: bool)
    | SetController(present: bool)
    | RegisterTool(tool: Tool)

  /** One event on the main thread. A completion can only happen while a handler is outstanding. */
  function Step(s: Server, e: Event, handlers: Handlers): Server {
    match e
    case Receive(message) => OnMessage(s, message, handlers)
    case Complete(content, isError) =>
      if s.running.Some? then HandlerCompletes(s, content, isError, handlers) else s
    case SetController(present) => s.(hasController := present)
    case RegisterTool(tool) => s.(tools := s.tools + [tool])
  }

  function Run(s: Server, events: seq<Event>, handlers: Handlers): Server
    decreases |events|
  {
    if events == [] then s else Run(Step(s, events[0], handlers), events[1..], handlers)
  }

  lemma StepKeeps(s: Server, e: Event, handlers: Handlers)
    requires Invariant(s)
    ensures Invariant(Step(s, e, handlers))
  {
    hide Balanced, OnMessage, HandlerCompletes;
    match e
    case Receive(message) => OnMessageKeeps(s, message, handlers);
    case Complete(content, isError) =>
      if s.running.Some? {
        HandlerCompletesKeeps(s, content, isError, handlers);
      }
    case SetController(present) => SettingsKeep(s, present, s.tools);
    case RegisterTool(tool) => SettingsKeep(s, s.hasController, s.tools + [tool]);
  }

  lemma {:induction false} RunKeeps(s: Server, events: seq<Event>, handlers: Handlers)
    requires Invariant(s)
    ensures Invariant(Run(s, events, handlers))
    decreases |events|
  {
    hide Invariant, Step;
    if events != [] {
      StepKeeps(s, events[0], handlers);
      RunKeeps(Step(s, events[0], handlers), events[1..], handlers);
    }
  }

  /**
   In any run, the named tool calls in arrival order are the answered ones in the order of their
   answers, then the one whose handler is outstanding, then the queue; the server is busy exactly
   while a handler is outstanding, and idle only with an empty queue.
   */
  lemma CallsAnsweredInOrder(events: seq<Event>, handlers: Handlers)
    ensures var s := Run(INITIAL, events, handlers);
            && Known(s.replies, s.messages)
            && ToolCalls(s.messages) ==
                 Answered(s.replies, s.messages) + CallTokens(ToSeq(s.running)) + CallTokens(s.toolCallQueue)
            && (s.toolCallInProgress <==> s.running.Some?)
            && (!s.toolCallInProgress ==> s.toolCallQueue == [])
  {
    hide Invariant, Run, Known, ToolCalls, Answered, CallTokens;
    InitialInvariant();
    RunKeeps(INITIAL, events, handlers);
    QueueInOrder(Run(INITIAL, events, handlers));
  }

  lemma QueueInOrder(s: Server)
    requires Invariant(s)
    ensures Known(s.replies, s.messages)
    ensures ToolCalls(s.messages) ==
              Answered(s.replies, s.messages) + CallTokens(ToSeq(s.running)) + CallTokens(s.toolCallQueue)
    ensures s.toolCallInProgress <==> s.running.Some?
    ensures !s.toolCallInProgress ==> s.toolCallQueue == []
  {
    hide ToolCalls, Answered, Conforming, AllMatch, Counted, Initialized, CallTokens;
    assert Pending(s, []) == ToSeq(s.running) + s.toolCallQueue;
    CallTokensConcat(ToSeq(s.running), s.toolCallQueue);
  }

  /** In any run, no callback is used twice, and every message is answered or still waits its turn. */
  lemma AnsweredAtMostOnce(events: seq<Event>, handlers: Handlers)
    ensures var s := Run(INITIAL, events, handlers);
            && (forall i, j :: 0 <= i < j < |s.replies| ==> s.replies[i].callback != s.replies[j].callback)
            && (forall t: nat :: t < |s.messages| ==>
                  (t in ReplyTokens(s.replies) <==> t !in CallTokens(Pending(s, []))))
  {
    InitialInvariant();
    RunKeeps(INITIAL, events, handlers);
    var s := Run(INITIAL, events, handlers);
    OnceEach(s.replies, CallTokens(Pending(s, [])), |s.messages|);
  }

  lemma OnceEach(replies: seq<Reply>, owed: seq<nat>, n: nat)
    requires multiset(ReplyTokens(replies)) + multiset(owed) == multiset(Upto(n))
    ensures forall i, j :: 0 <= i < j < |replies| ==> replies[i].callback != replies[j].callback
    ensures forall t: nat :: t < n ==> (t in ReplyTokens(replies) <==> t !in owed)
    ensures forall t: nat :: t in ReplyTokens(replies) || t in owed ==> t < n
  {
    var tokens: seq<nat> := ReplyTokens(replies);
    forall t: nat
      ensures multiset(tokens)[t] + multiset(owed)[t] == if t < n then 1 else 0
    {
      UptoCounts(n, t);
      assert (multiset(tokens) + multiset(owed))[t] == multiset(tokens)[t] + multiset(owed)[t];
    }
    forall i, j | 0 <= i < j < |replies|
      ensures replies[i].callback != replies[j].callback
    {
      if replies[i].callback == replies[j].callback {
        TwiceCounts(tokens, i, j);
      }
    }
    forall t: nat
      ensures t in tokens <==> multiset(tokens)[t] > 0
      ensures t in owed <==> multiset(owed)[t] > 0
    {
      assert t in tokens <==> t in multiset(tokens);
      assert t in owed <==> t in multiset(owed);
    }
  }

  /** In any run, each reply has the shape its message deserves by the message history alone. */
  lemma RepliesConform(events: seq<Event>, handlers: Handlers)
    ensures var s := Run(INITIAL, events, handlers);
            forall i :: 0 <= i < |s.replies| ==>
              s.replies[i].callback < |s.messages| && Conforms(s.messages, s.replies[i])
  {
    InitialInvariant();
    RunKeeps(INITIAL, events, handlers);
    hide Conforms;
  }

  /** A handler runs, and a tool call is answered, only after a message that initializes the server. */
  lemma NoCallBeforeInitialization(events: seq<Event>, handlers: Handlers, t: nat)
    requires var s := Run(INITIAL, events, handlers);
             t in CallTokens(Pending(s, [])) || (t < |s.messages| && VerdictAt(s.messages, t).ToolCall?)
    ensures var s := Run(INITIAL, events, handlers);
            exists k :: 0 <= k < t < |s.messages| && Initializes(s.messages[k])
  {
    hide Invariant, Run, Pending, CallTokens, VerdictAt, Initializes;
    InitialInvariant();
    RunKeeps(INITIAL, events, handlers);
    CallNeedsInitialization(Run(INITIAL, events, handlers), t);
  }

  lemma CallNeedsInitialization(s: Server, t: nat)
    requires Invariant(s)
    requires t in CallTokens(Pending(s, [])) || (t < |s.messages| && VerdictAt(s.messages, t).ToolCall?)
    ensures exists k :: 0 <= k < t < |s.messages| && Initializes(s.messages[k])
  {
    hide Conforming, Counted, Ordered, Matches, Initializes, VerdictOn;
    if t in CallTokens(Pending(s, [])) {
      var i :| 0 <= i < |Pending(s, [])| && Pending(s, [])[i].callback == t;
      MatchedVerdict(s.messages, Pending(s, [])[i]);
    }
    ToolCallDoesNotInitialize(s.messages[t], Initialized(s.messages[..t]));
    var k :| 0 <= k < t && Initializes(s.messages[..t][k]);
    assert Initializes(s.messages[k]);
  }

  // ---------- Draining ----------

  /** What the handlers outstanding one after the other report, as long as there is one. */
  function Completions(s: Server, reports: seq<(seq<Value>, bool)>, handlers: Handlers): Server
    decreases |reports|
  {
    if reports == [] then s
    else Completions(Step(s, Complete(reports[0].0, reports[0].1), handlers), reports[1..], handlers)
  }

  function Waiting(s: Server): nat {
    |ToSeq(s.running)| + |s.toolCallQueue|
  }

  lemma {:induction false} ExecuteWaiting(s: Server, handlers: Handlers)
    requires s.running.None?
    ensures Waiting(ExecuteNextToolCall(s, handlers)) <= |s.toolCallQueue|
    decreases |s.toolCallQueue|, 0
  {
    if s.toolCallQueue != [] {
      var call := s.toolCallQueue[0];
      var s' := s.(toolCallInProgress := true, toolCallQueue := s.toolCallQueue[1..]);
      if !s.hasController {
        CompleteWaiting(s', call, TextContent("No browser controller"), true, handlers);
      } else if ToolPosition(s.tools, call.name) < |s.tools| {
        match handlers(s.tools[ToolPosition(s.tools, call.name)], call.args, call.callback)
        case Defers =>
        case CompletesNow(content, isError) => CompleteWaiting(s', call, content, isError, handlers);
      } else {
        ExecuteWaiting(SendError(s', call.id, -32602, "Unknown tool: " + call.name, call.callback), handlers);
      }
    }
  }

  lemma {:induction false} CompleteWaiting(s: Server, call: PendingToolCall, content: seq<Value>, isError: bool,
                                           handlers: Handlers)
    requires s.running.None?
    ensures Waiting(OnToolCallComplete(s, call, content, isError, handlers)) <= |s.toolCallQueue|
    decreases |s.toolCallQueue|, 1
  {
    ExecuteWaiting(SendResult(s, call.id, ToolResult(content, isError), call.callback), handlers);
  }

  /**
   As many completions as there are outstanding and queued calls leave the server idle, whatever
   mix of immediate and deferred handlers runs; then every message received has been answered
   exactly once.
   */
  lemma {:induction false} Drain(s: Server, reports: seq<(seq<Value>, bool)>, handlers: Handlers)
    requires Invariant(s)
    requires |reports| >= Waiting(s)
    ensures var s' := Completions(s, reports, handlers);
            && s'.toolCallQueue == [] && s'.running.None? && !s'.toolCallInProgress
            && s'.messages == s.messages
            && multiset(ReplyTokens(s'.replies)) == multiset(Upto(|s'.messages|))
    decreases |reports|
  {
    if reports == [] || Waiting(s) == 0 {
      hide Conforming, Ordered, AllMatch, Initialized;
      IdleStays(s, reports, handlers);
      assert Pending(s, []) == [];
    } else {
      assert s.running.Some?;
      hide Balanced, ReplyTokens;
      CompleteWaiting(s.(running := None), s.running.value, reports[0].0, reports[0].1, handlers);
      HandlerCompletesKeeps(s, reports[0].0, reports[0].1, handlers);
      Drain(Step(s, Complete(reports[0].0, reports[0].1), handlers), reports[1..], handlers);
    }
  }

  lemma {:induction false} IdleStays(s: Server, reports: seq<(seq<Value>, bool)>, handlers: Handlers)
    requires s.running.None?
    ensures Completions(s, reports, handlers) == s
    decreases |reports|
  {
    if reports != [] {
      IdleStays(s, reports[1..], handlers);
    }
  }

  // ---------- Replies are only ever added ----------

  lemma {:induction false} ExecuteAppends(s: Server, handlers: Handlers)
    ensures s.replies <= ExecuteNextToolCall(s, handlers).replies
    decreases |s.toolCallQueue|, 0
  {
    hide ToolPosition;
    if s.toolCallQueue != [] {
      var call := s.toolCallQueue[0];
      var s' := s.(toolCallInProgress := true, toolCallQueue := s.toolCallQueue[1..]);
      if !s.hasController {
        CompleteAppends(s', call, TextContent("No browser controller"), true, handlers);
      } else if ToolPosition(s.tools, call.name) < |s.tools| {
        match handlers(s.tools[ToolPosition(s.tools, call.name)], call.args, call.callback)
        case Defers =>
        case CompletesNow(content, isError) => CompleteAppends(s', call, content, isError, handlers);
      } else {
        ExecuteAppends(SendError(s', call.id, -32602, "Unknown tool: " + call.name, call.callback), handlers);
      }
    }
  }

  /** The first reply after a completion is the running call's, with the content reported. */
  lemma {:induction false} CompleteAppends(s: Server, call: PendingToolCall, content: seq<Value>, isError: bool,
                                           handlers: Handlers)
    ensures s.replies + [Reply(call.callback, Some(ResultMessage(call.id, ToolResult(content, isError))))] <=
              OnToolCallComplete(s, call, content, isError, handlers).replies
    decreases |s.toolCallQueue|, 1
  {
    ExecuteAppends(SendResult(s, call.id, ToolResult(content, isError), call.callback), handlers);
  }

  lemma OnMessageAppends(s: Server, message: Dictionary, handlers: Handlers)
    requires s.initialized == Initialized(s.messages)
    ensures s.replies <= OnMessage(s, message, handlers).replies
  {
    hide Initialized;
    if VerdictOn(message, s.initialized).ToolCall? {
      var params := Params(message);
      var arguments := FindDict(params, "arguments");
      var args := if arguments.Some? then arguments.value else map[];
      var call := PendingToolCall(params["name"].s, args, message["id"], |s.messages|);
      ExecuteAppends(s.(messages := s.messages + [message], toolCallQueue := s.toolCallQueue + [call]), handlers);
    } else {
      AtOnceReply(s, message, handlers);
    }
  }
}
