/**
 What becomes of each tool call: which handler it runs, with which arguments, and why it got the answer
 it got. Registered names and replies are read off the tools and the messages themselves.
 */
module McpToolCalls {
  import opened Wrappers
  import opened Values
  import opened McpServer
  import opened McpServerProofs
  import opened McpServerRuns

  // ---------- What an answer says ----------

  predicate Registered(tools: seq<Tool>, name: string) {
    exists i :: 0 <= i < |tools| && tools[i].name == name
  }

  predicate FirstNamed(tools: seq<Tool>, k: int, name: string) {
    0 <= k < |tools| && tools[k].name == name && forall j :: 0 <= j < k ==> tools[j].name != name
  }

  /** The call is answered with this content, marked as an error or not. */
  predicate Reports(reply: Reply, call: PendingToolCall, content: seq<Value>, isError: bool) {
    && reply.callback == call.callback && reply.response.Some? && IsResult(reply.response.value, call.id)
    && var result := reply.response.value["result"].entries;
       && result.Keys == (if isError then {"content", "isError"} else {"content"})
       && result["content"] == List(content) && (isError ==> result["isError"] == Bool(true))
  }

  predicate SaysUnknown(reply: Reply, call: PendingToolCall) {
    && reply.callback == call.callback && reply.response.Some? && IsError(reply.response.value, call.id, -32602)
    && reply.response.value["error"].entries["message"] == Str("Unknown tool: " + call.name)
  }

  const NO_CONTROLLER := [Dict(map["type" := Str("text"), "text" := Str("No browser controller")])]

  /** The answer that a call deserves when it is taken off the queue, unless its handler keeps the callback. */
  ghost predicate Deserved(tools: seq<Tool>, hasController: bool, handlers: Handlers, call: PendingToolCall,
                           reply: Reply)
  {
    if !hasController then Reports(reply, call, NO_CONTROLLER, true)
    else if !Registered(tools, call.name) then SaysUnknown(reply, call)
    else exists k ::
      && FirstNamed(tools, k, call.name)
      && handlers(tools[k], call.args, call.callback).CompletesNow?
      && var outcome := handlers(tools[k], call.args, call.callback);
         Reports(reply, call, outcome.content, outcome.isError)
  }

  /** The handler of the first tool with the call's name was run with the call's arguments, and keeps the callback. */
  ghost predicate Kept(tools: seq<Tool>, hasController: bool, handlers: Handlers, call: PendingToolCall) {
    hasController && exists k :: FirstNamed(tools, k, call.name) && handlers(tools[k], call.args, call.callback).Defers?
  }

  // ---------- Running the queue ----------

  /**
   The first n calls of the queue have been answered as they deserve; then either the queue was empty, or
   the next call's handler keeps its callback.
   */
  ghost predicate Worked(s: Server, after: Server, n: nat, handlers: Handlers) {
    var queue := s.toolCallQueue;
    && n <= |queue|
    && s.replies <= after.replies && |after.replies| == |s.replies| + n
    && (forall i :: 0 <= i < n ==>
          Deserved(s.tools, s.hasController, handlers, queue[i], after.replies[|s.replies| + i]))
    && (if n == |queue| then
          after == s.(toolCallInProgress := false, toolCallQueue := [], replies := after.replies)
        else
          && Kept(s.tools, s.hasController, handlers, queue[n])
          && after == s.(toolCallInProgress := true, toolCallQueue := queue[n + 1..], running := Some(queue[n]),
                         replies := after.replies))
  }

  lemma WorkedOneMore(s: Server, reply: Reply, after: Server, n: nat, handlers: Handlers)
    requires s.toolCallQueue != [] && Deserved(s.tools, s.hasController, handlers, s.toolCallQueue[0], reply)
    requires Worked(s.(toolCallInProgress := true, toolCallQueue := s.toolCallQueue[1..],
                       replies := s.replies + [reply]), after, n, handlers)
    ensures Worked(s, after, n + 1, handlers)
  {
    hide Deserved, Kept;
    forall i | 0 <= i < n + 1
      ensures Deserved(s.tools, s.hasController, handlers, s.toolCallQueue[i], after.replies[|s.replies| + i])
    {
      if i > 0 {
        assert s.toolCallQueue[1..][i - 1] == s.toolCallQueue[i];
      }
    }
  }

  lemma ReportsResult(call: PendingToolCall, content: seq<Value>, isError: bool)
    ensures Reports(Reply(call.callback, Some(ResultMessage(call.id, ToolResult(content, isError)))),
                    call, content, isError)
  {
  }

  lemma SaysUnknownTool(call: PendingToolCall)
    ensures SaysUnknown(Reply(call.callback,
                              Some(ErrorMessage(call.id, -32602, "Unknown tool: " + call.name))), call)
  {
  }

  lemma DeservedNoController(tools: seq<Tool>, handlers: Handlers, call: PendingToolCall)
    ensures Deserved(tools, false, handlers, call,
                     Reply(call.callback,
                           Some(ResultMessage(call.id, ToolResult(TextContent("No browser controller"), true)))))
  {
    ReportsResult(call, TextContent("No browser controller"), true);
  }

  lemma PositionIsFirst(tools: seq<Tool>, name: string)
    ensures var k := ToolPosition(tools, name);
            if k < |tools| then FirstNamed(tools, k, name) && Registered(tools, name) else !Registered(tools, name)
  {
  }

  /** Running the queue answers calls in order, each as it deserves, until a handler keeps a callback. */
  lemma {:induction false} ExecuteWorks(s: Server, handlers: Handlers) returns (n: nat)
    requires s.running.None?
    ensures Worked(s, ExecuteNextToolCall(s, handlers), n, handlers)
    decreases |s.toolCallQueue|
  {
    hide Reports, SaysUnknown, ToolPosition, FirstNamed, Registered, ResultMessage, ErrorMessage, ToolResult, Worked;
    if s.toolCallQueue == [] {
      n := 0;
      WorkedNothing(s, handlers);
    } else {
      var call := s.toolCallQueue[0];
      var k := ToolPosition(s.tools, call.name);
      PositionIsFirst(s.tools, call.name);
      if s.hasController && k < |s.tools| && handlers(s.tools[k], call.args, call.callback).Defers? {
        n := 0;
        WorkedKept(s, handlers);
      } else {
        var content, isError := TextContent("No browser controller"), true;
        if s.hasController && k < |s.tools| {
          var outcome := handlers(s.tools[k], call.args, call.callback);
          content, isError := outcome.content, outcome.isError;
        }
        var response := if s.hasController && k == |s.tools| then
                          ErrorMessage(call.id, -32602, "Unknown tool: " + call.name)
                        else ResultMessage(call.id, ToolResult(content, isError));
        var reply := Reply(call.callback, Some(response));
        DeservedNoController(s.tools, handlers, call);
        ReportsResult(call, content, isError);
        SaysUnknownTool(call);
        assert Deserved(s.tools, s.hasController, handlers, call, reply);
        var next := s.(toolCallInProgress := true, toolCallQueue := s.toolCallQueue[1..],
                       replies := s.replies + [reply]);
        var m := ExecuteWorks(next, handlers);
        assert ExecuteNextToolCall(s, handlers) == ExecuteNextToolCall(next, handlers);
        WorkedOneMore(s, reply, ExecuteNextToolCall(s, handlers), m, handlers);
        n := m + 1;
      }
    }
  }

  lemma WorkedNothing(s: Server, handlers: Handlers)
    requires s.toolCallQueue == []
    ensures Worked(s, s.(toolCallInProgress := false), 0, handlers)
  {
  }

  lemma WorkedKept(s: Server, handlers: Handlers)
    requires s.toolCallQueue != [] && Kept(s.tools, s.hasController, handlers, s.toolCallQueue[0])
    ensures Worked(s, s.(toolCallInProgress := true, toolCallQueue := s.toolCallQueue[1..],
                         running := Some(s.toolCallQueue[0])), 0, handlers)
  {
    hide Kept;
  }

  // ---------- One message ----------

  /** A named tool call of an initialized server joins the queue, with the name and arguments it asks for. */
  lemma CallJoinsQueue(s: Server, message: Dictionary, name: string, args: Dictionary, handlers: Handlers)
    requires s.initialized && "id" in message && AsksFor(message, name, args)
    ensures var call := PendingToolCall(name, args, message["id"], |s.messages|);
            var queued := s.(messages := s.messages + [message], toolCallQueue := s.toolCallQueue + [call]);
            OnMessage(s, message, handlers) ==
            if s.toolCallInProgress then queued else ExecuteNextToolCall(queued, handlers)
  {
    hide ExecuteNextToolCall;
  }

  function ParamsOf(message: Dictionary): Dictionary {
    if "params" in message && message["params"].Dict? then message["params"].entries else map[]
  }

  function Named(message: Dictionary): string {
    var params := ParamsOf(message);
    if "name" in params && params["name"].Str? then params["name"].s else ""
  }

  function Arguments(message: Dictionary): Dictionary {
    var params := ParamsOf(message);
    if "arguments" in params && params["arguments"].Dict? then params["arguments"].entries else map[]
  }

  /** Conversely, only such a message is a tool call. */
  lemma OnlyCallsJoin(message: Dictionary, initialized: bool)
    ensures VerdictOn(message, initialized).ToolCall? <==>
            initialized && "id" in message && AsksFor(message, Named(message), Arguments(message))
    ensures VerdictOn(message, initialized).ToolCall? ==> VerdictOn(message, initialized).name == Named(message)
  {
  }

  /** What an idle server with a controller does with a named tool call. */
  lemma IdleServerTakesCall(s: Server, message: Dictionary, name: string, args: Dictionary, handlers: Handlers)
    returns (call: PendingToolCall)
    requires Invariant(s) && s.initialized && !s.toolCallInProgress && s.hasController
    requires "id" in message && AsksFor(message, name, args)
    ensures call == PendingToolCall(name, args, message["id"], |s.messages|)
    ensures var after := OnMessage(s, message, handlers);
            if !Registered(s.tools, name) then
              && after.running.None? && !after.toolCallInProgress && |after.replies| == |s.replies| + 1
              && s.replies <= after.replies && SaysUnknown(after.replies[|s.replies|], call)
            else
              exists k :: FirstNamed(s.tools, k, name) &&
                          TakenBy(s, after, call, handlers(s.tools[k], args, |s.messages|))
  {
    call := PendingToolCall(name, args, message["id"], |s.messages|);
    var queued := s.(messages := s.messages + [message], toolCallQueue := [call]);
    assert s.toolCallQueue == [] && s.toolCallQueue + [call] == [call];
    CallJoinsQueue(s, message, name, args, handlers);
    hide Invariant, AsksFor, Reports, SaysUnknown, FirstNamed, Registered, ExecuteNextToolCall, OnMessage;
    var n := ExecuteWorks(queued, handlers);
    assert queued.toolCallQueue[0] == call;
  }

  /** With the handler's outcome: answered with what it reports, or outstanding and nothing answered. */
  predicate TakenBy(s: Server, after: Server, call: PendingToolCall, outcome: HandlerOutcome) {
    && s.replies <= after.replies
    && match outcome
       case Defers => after.running == Some(call) && after.toolCallInProgress && after.replies == s.replies
       case CompletesNow(content, isError) =>
         && after.running.None? && !after.toolCallInProgress && |after.replies| == |s.replies| + 1
         && Reports(after.replies[|s.replies|], call, content, isError)
  }

  /** A handler that kept its callback: the next reply is its call's, with what it reports. */
  lemma CompletionReports(s: Server, content: seq<Value>, isError: bool, handlers: Handlers) returns (n: nat)
    requires s.running.Some?
    ensures var after := HandlerCompletes(s, content, isError, handlers);
            && s.replies < after.replies && Reports(after.replies[|s.replies|], s.running.value, content, isError)
            && Worked(s.(running := None, replies := after.replies[..|s.replies| + 1]), after, n, handlers)
    ensures s.toolCallQueue == [] ==> |HandlerCompletes(s, content, isError, handlers).replies| == |s.replies| + 1
  {
    hide Reports, Deserved, Kept, ExecuteNextToolCall, ResultMessage, ToolResult;
    var call := s.running.value;
    var reply := Reply(call.callback, Some(ResultMessage(call.id, ToolResult(content, isError))));
    var answered := s.(running := None, replies := s.replies + [reply]);
    ReportsResult(call, content, isError);
    n := ExecuteWorks(answered, handlers);
    assert HandlerCompletes(s, content, isError, handlers) == ExecuteNextToolCall(answered, handlers);
    var after := ExecuteNextToolCall(answered, handlers);
    assert after.replies[|s.replies|] == reply;
    assert after.replies[..|s.replies| + 1] == answered.replies;
  }

  // ---------- Over runs ----------

  /** Whether the event is the outstanding handler's completion, whose reply comes first. */
  predicate CompletesFirst(s: Server, e: Event, i: nat) {
    e.Complete? && s.running.Some? && i == |s.replies|
  }

  /** Reply i, added by the event in this state, is what its call deserves there. */
  ghost predicate Explains(s: Server, e: Event, i: nat, call: PendingToolCall, reply: Reply, handlers: Handlers) {
    if CompletesFirst(s, e, i) then s.running == Some(call) && Reports(reply, call, e.content, e.isError)
    else Deserved(s.tools, s.hasController, handlers, call, reply)
  }

  /** A reply of the queue's answers its call in the queue. */
  lemma WorkedReply(s: Server, after: Server, n: nat, i: nat, handlers: Handlers)
    requires Worked(s, after, n, handlers) && |s.replies| <= i < |after.replies|
    ensures i - |s.replies| < |s.toolCallQueue|
    ensures Deserved(s.tools, s.hasController, handlers, s.toolCallQueue[i - |s.replies|], after.replies[i])
  {
    hide Deserved, Kept;
  }

  /** Every reply that a completion adds answers the outstanding call or one of the queue, as it deserves. */
  lemma CompletionExplained(s: Server, content: seq<Value>, isError: bool, handlers: Handlers, i: nat)
    returns (call: PendingToolCall)
    requires Invariant(s) && s.running.Some?
    requires |s.replies| <= i < |HandlerCompletes(s, content, isError, handlers).replies|
    ensures Matches(s.messages, call)
    ensures Explains(s, Complete(content, isError), i, call,
                     HandlerCompletes(s, content, isError, handlers).replies[i], handlers)
  {
    hide Reports, Deserved, Worked, HandlerCompletes, Matches, Balanced;
    var after := HandlerCompletes(s, content, isError, handlers);
    var n := CompletionReports(s, content, isError, handlers);
    if i == |s.replies| {
      call := s.running.value;
      PendingMatches(s, 0);
    } else {
      var answered := s.(running := None, replies := after.replies[..|s.replies| + 1]);
      WorkedReply(answered, after, n, i, handlers);
      call := s.toolCallQueue[i - |s.replies| - 1];
      PendingMatches(s, i - |s.replies|);
    }
  }

  lemma PendingMatches(s: Server, j: nat)
    requires Invariant(s) && s.running.Some? && j <= |s.toolCallQueue|
    ensures Matches(s.messages, if j == 0 then s.running.value else s.toolCallQueue[j - 1])
  {
    hide Conforming, Counted, Ordered, Initialized, Matches;
    assert Pending(s, [])[j] == if j == 0 then s.running.value else s.toolCallQueue[j - 1];
  }

  /** Every reply to a tool call that a message adds answers that message itself, as it deserves. */
  lemma MessageExplained(s: Server, message: Dictionary, handlers: Handlers, i: nat) returns (call: PendingToolCall)
    requires Invariant(s) && VerdictOn(message, s.initialized).ToolCall?
    requires |s.replies| <= i < |OnMessage(s, message, handlers).replies|
    ensures call == PendingToolCall(Named(message), Arguments(message), message["id"], |s.messages|)
    ensures Deserved(s.tools, s.hasController, handlers, call, OnMessage(s, message, handlers).replies[i])
  {
    OnlyCallsJoin(message, s.initialized);
    call := PendingToolCall(Named(message), Arguments(message), message["id"], |s.messages|);
    CallJoinsQueue(s, message, Named(message), Arguments(message), handlers);
    hide Balanced, Deserved, Worked, OnMessage, Named, Arguments, ExecuteNextToolCall, VerdictOn, AsksFor;
    if !s.toolCallInProgress {
      var queued := s.(messages := s.messages + [message], toolCallQueue := s.toolCallQueue + [call]);
      assert s.toolCallQueue == [] && queued.toolCallQueue == [call];
      var n := ExecuteWorks(queued, handlers);
      WorkedReply(queued, ExecuteNextToolCall(queued, handlers), n, i, handlers);
    }
  }

  /**
   Every reply to a tool call that an event adds is explained by the state in which the event finds the
   server: the outstanding call gets what its handler reports, any other call what the tools, the
   controller and its handler make of its own name and arguments.
   */
  lemma StepExplained(s: Server, e: Event, handlers: Handlers, i: nat) returns (call: PendingToolCall)
    requires Invariant(s) && |s.replies| <= i < |Step(s, e, handlers).replies|
    requires Step(s, e, handlers).replies[i].callback < |Step(s, e, handlers).messages|
    requires VerdictAt(Step(s, e, handlers).messages, Step(s, e, handlers).replies[i].callback).ToolCall?
    ensures Matches(Step(s, e, handlers).messages, call)
    ensures Explains(s, e, i, call, Step(s, e, handlers).replies[i], handlers)
  {
    hide Balanced, Matches, Deserved, Reports, OnMessage, HandlerCompletes, VerdictOn;
    match e
    case Receive(message) =>
      ReceivedVerdict(s, message);
      OnMessageKeeps(s, message, handlers);
      if VerdictOn(message, s.initialized).ToolCall? {
        call := MessageExplained(s, message, handlers, i);
        CallMatches(s, message);
      } else {
        AtOnceReply(s, message, handlers);
      }
    case Complete(content, isError) =>
      call := CompletionExplained(s, content, isError, handlers, i);
      HandlerCompletesKeeps(s, content, isError, handlers);
    case _ =>
  }

  lemma ReceivedVerdict(s: Server, message: Dictionary)
    requires Invariant(s)
    ensures VerdictAt(s.messages + [message], |s.messages|) == VerdictOn(message, s.initialized)
  {
    assert (s.messages + [message])[..|s.messages|] == s.messages;
  }

  lemma CallMatches(s: Server, message: Dictionary)
    requires Invariant(s) && VerdictOn(message, s.initialized).ToolCall?
    ensures Matches(s.messages + [message],
                    PendingToolCall(Named(message), Arguments(message), message["id"], |s.messages|))
  {
    hide Balanced, Named, Arguments, VerdictOn, AsksFor;
    ReceivedVerdict(s, message);
    OnlyCallsJoin(message, s.initialized);
  }

  /** The state after the first k events of a run. */
  function At(events: seq<Event>, k: nat, handlers: Handlers): Server
    requires k <= |events|
  {
    Run(INITIAL, events[..k], handlers)
  }

  lemma {:induction false} RunSnoc(s: Server, events: seq<Event>, e: Event, handlers: Handlers)
    ensures Run(s, events + [e], handlers) == Step(Run(s, events, handlers), e, handlers)
    decreases |events|
  {
    hide Step;
    if events == [] {
      assert events + [e] == [e] && [e][1..] == [];
      assert Run(Step(s, e, handlers), [], handlers) == Step(s, e, handlers);
    } else {
      assert (events + [e])[1..] == events[1..] + [e];
      RunSnoc(Step(s, events[0], handlers), events[1..], e, handlers);
    }
  }

  lemma AtNext(events: seq<Event>, k: nat, handlers: Handlers)
    requires k < |events|
    ensures At(events, k + 1, handlers) == Step(At(events, k, handlers), events[k], handlers)
    ensures Invariant(At(events, k, handlers)) && Invariant(At(events, k + 1, handlers))
  {
    hide Invariant, Step, Run;
    assert events[..k + 1] == events[..k] + [events[k]];
    RunSnoc(INITIAL, events[..k], events[k], handlers);
    InitialInvariant();
    RunKeeps(INITIAL, events[..k], handlers);
    RunKeeps(INITIAL, events[..k + 1], handlers);
  }

  /** What a run adds to stays: messages, replies and tools. */
  predicate Grows(s: Server, t: Server) {
    s.messages <= t.messages && s.replies <= t.replies && s.tools <= t.tools
  }

  lemma StepGrows(s: Server, e: Event, handlers: Handlers)
    requires Invariant(s)
    ensures Grows(s, Step(s, e, handlers))
  {
    hide Conforming, AllMatch, Counted, Ordered, Initialized, OnMessage, HandlerCompletes;
    match e
    case Receive(message) =>
      OnMessageKeeps(s, message, handlers);
      OnMessageAppends(s, message, handlers);
      MessageKeepsTools(s, message, handlers);
    case Complete(content, isError) =>
      if s.running.Some? {
        var n := CompletionReports(s, content, isError, handlers);
        CompletionKeepsTools(s, content, isError, handlers);
      }
    case _ =>
  }

  lemma MessageKeepsTools(s: Server, message: Dictionary, handlers: Handlers)
    requires Invariant(s)
    ensures OnMessage(s, message, handlers).tools == s.tools
    ensures OnMessage(s, message, handlers).hasController == s.hasController
  {
    if VerdictOn(message, s.initialized).ToolCall? {
      OnlyCallsJoin(message, s.initialized);
      CallJoinsQueue(s, message, Named(message), Arguments(message), handlers);
      hide Balanced, Deserved, Kept, Named, Arguments, OnMessage, ExecuteNextToolCall, VerdictOn, AsksFor;
      if !s.toolCallInProgress {
        var call := PendingToolCall(Named(message), Arguments(message), message["id"], |s.messages|);
        var queued := s.(messages := s.messages + [message], toolCallQueue := s.toolCallQueue + [call]);
        var n := ExecuteWorks(queued, handlers);
      }
    } else {
      AtOnceReply(s, message, handlers);
      hide OnMessage, VerdictOn, AtOnceResponse;
    }
  }

  lemma CompletionKeepsTools(s: Server, content: seq<Value>, isError: bool, handlers: Handlers)
    requires s.running.Some?
    ensures var after := HandlerCompletes(s, content, isError, handlers);
            after.tools == s.tools && after.hasController == s.hasController && after.messages == s.messages
  {
    hide Deserved, Kept, Reports, HandlerCompletes;
    var n := CompletionReports(s, content, isError, handlers);
  }

  lemma {:induction false} AtGrows(events: seq<Event>, k: nat, m: nat, handlers: Handlers)
    requires k <= m <= |events|
    ensures Grows(At(events, k, handlers), At(events, m, handlers))
    decreases m - k
  {
    hide Invariant, Step, At;
    if k < m {
      AtNext(events, k, handlers);
      StepGrows(At(events, k, handlers), events[k], handlers);
      AtGrows(events, k + 1, m, handlers);
    }
  }

  /** The event that added reply i. */
  lemma {:induction false} AddedAt(events: seq<Event>, m: nat, handlers: Handlers, i: nat) returns (k: nat)
    requires m <= |events| && i < |At(events, m, handlers).replies|
    ensures k < m && |At(events, k, handlers).replies| <= i < |At(events, k + 1, handlers).replies|
  {
    hide Step, Invariant;
    assert m > 0;
    if i < |At(events, m - 1, handlers).replies| {
      k := AddedAt(events, m - 1, handlers, i);
    } else {
      k := m - 1;
    }
  }

  lemma SameVerdict(messages: seq<Dictionary>, all: seq<Dictionary>, t: nat)
    requires messages <= all && t < |messages|
    ensures VerdictAt(all, t) == VerdictAt(messages, t)
  {
    assert all[..t] == messages[..t];
  }

  /**
   In any run, every reply to a tool call is what its call deserved in the state in which event k found the
   server: the call is its message's, with the name and the arguments the message asks for. The tools
   registered then are still registered at the end.
   */
  lemma {:induction false} EveryAnswerExplained(events: seq<Event>, handlers: Handlers, i: nat)
    returns (k: nat, call: PendingToolCall)
    requires var s := Run(INITIAL, events, handlers);
             && i < |s.replies| && s.replies[i].callback < |s.messages|
             && VerdictAt(s.messages, s.replies[i].callback).ToolCall?
    ensures var s := Run(INITIAL, events, handlers);
            && k < |events| && Matches(s.messages, call) && call.callback == s.replies[i].callback
            && Explains(At(events, k, handlers), events[k], i, call, s.replies[i], handlers)
            && At(events, k, handlers).tools <= s.tools
  {
    hide Invariant, Step, Run, Explains, Matches, VerdictAt;
    assert events[..|events|] == events;
    var s := Run(INITIAL, events, handlers);
    k := AddedAt(events, |events|, handlers, i);
    AtNext(events, k, handlers);
    AtGrows(events, k, |events|, handlers);
    AtGrows(events, k + 1, |events|, handlers);
    var after := At(events, k + 1, handlers);
    CallbackKnown(after, i);
    SameVerdict(after.messages, s.messages, s.replies[i].callback);
    call := StepExplained(At(events, k, handlers), events[k], handlers, i);
    ExplainsItsCall(At(events, k, handlers), events[k], i, call, s.replies[i], handlers);
    MatchesOnward(after.messages, s.messages, call);
  }

  lemma CallbackKnown(s: Server, i: nat)
    requires Invariant(s) && i < |s.replies|
    ensures s.replies[i].callback < |s.messages|
  {
    hide Counted, Ordered, AllMatch, Initialized, Conforms;
  }

  lemma ExplainsItsCall(s: Server, e: Event, i: nat, call: PendingToolCall, reply: Reply, handlers: Handlers)
    requires Explains(s, e, i, call, reply, handlers)
    ensures reply.callback == call.callback
  {
  }

  lemma MatchesOnward(messages: seq<Dictionary>, all: seq<Dictionary>, call: PendingToolCall)
    requires Matches(messages, call) && messages <= all
    ensures Matches(all, call)
  {
    SameVerdict(messages, all, call.callback);
    hide VerdictAt;
  }

  // ---------- The outstanding call ----------

  /** A registered tool has the outstanding call's name. */
  predicate RunsRegistered(s: Server) {
    s.running.Some? ==> exists i :: 0 <= i < |s.tools| && s.tools[i].name == s.running.value.name
  }

  lemma WorkedRunsRegistered(s: Server, after: Server, n: nat, handlers: Handlers)
    requires Worked(s, after, n, handlers) && s.running.None?
    ensures RunsRegistered(after)
  {
    hide Deserved;
  }

  lemma StepRunsRegistered(s: Server, e: Event, handlers: Handlers)
    requires Invariant(s) && RunsRegistered(s)
    ensures RunsRegistered(Step(s, e, handlers))
  {
    match e
    case Receive(message) => MessageRunsRegistered(s, message, handlers);
    case Complete(content, isError) =>
      hide Deserved, Kept, Reports, HandlerCompletes, Worked, Balanced;
      if s.running.Some? {
        var n := CompletionReports(s, content, isError, handlers);
        var after := HandlerCompletes(s, content, isError, handlers);
        WorkedRunsRegistered(s.(running := None, replies := after.replies[..|s.replies| + 1]), after, n, handlers);
      }
    case SetController(_) =>
    case RegisterTool(tool) =>
      if s.running.Some? {
        var i :| 0 <= i < |s.tools| && s.tools[i].name == s.running.value.name;
        assert (s.tools + [tool])[i].name == s.running.value.name;
      }
  }

  lemma MessageRunsRegistered(s: Server, message: Dictionary, handlers: Handlers)
    requires Invariant(s) && RunsRegistered(s)
    ensures RunsRegistered(OnMessage(s, message, handlers))
  {
    if VerdictOn(message, s.initialized).ToolCall? {
      OnlyCallsJoin(message, s.initialized);
      CallJoinsQueue(s, message, Named(message), Arguments(message), handlers);
      hide Balanced, Worked, Named, Arguments, OnMessage, ExecuteNextToolCall, VerdictOn, AsksFor;
      if !s.toolCallInProgress {
        var call := PendingToolCall(Named(message), Arguments(message), message["id"], |s.messages|);
        var queued := s.(messages := s.messages + [message], toolCallQueue := s.toolCallQueue + [call]);
        var n := ExecuteWorks(queued, handlers);
        WorkedRunsRegistered(queued, ExecuteNextToolCall(queued, handlers), n, handlers);
      }
    } else {
      AtOnceReply(s, message, handlers);
      hide OnMessage, VerdictOn, AtOnceResponse;
    }
  }

  /**
   In any run, a registered tool has the name of the outstanding call, and the call has the name, the
   arguments and the id of its message.
   */
  lemma {:induction false} OutstandingIsRegistered(events: seq<Event>, handlers: Handlers)
    ensures var s := Run(INITIAL, events, handlers);
            s.running.Some? ==>
              && (exists i :: 0 <= i < |s.tools| && s.tools[i].name == s.running.value.name)
              && Matches(s.messages, s.running.value)
  {
    hide Invariant, Run, Matches;
    assert events[..|events|] == events;
    AlwaysRunsRegistered(events, |events|, handlers);
    InitialInvariant();
    RunKeeps(INITIAL, events, handlers);
    if Run(INITIAL, events, handlers).running.Some? {
      PendingMatches(Run(INITIAL, events, handlers), 0);
    }
  }

  lemma {:induction false} AlwaysRunsRegistered(events: seq<Event>, k: nat, handlers: Handlers)
    requires k <= |events|
    ensures RunsRegistered(At(events, k, handlers))
  {
    hide Invariant, Step;
    if k == 0 {
      assert At(events, 0, handlers) == INITIAL;
    } else {
      AlwaysRunsRegistered(events, k - 1, handlers);
      AtNext(events, k - 1, handlers);
      StepRunsRegistered(At(events, k - 1, handlers), events[k - 1], handlers);
    }
  }

  // ---------- The tools and the controller ----------

  /** The tools registered by the events, in order. */
  function Registrations(events: seq<Event>): seq<Tool> {
    if events == [] then []
    else
      var n := |events| - 1;
      Registrations(events[..n]) + if events[n].RegisterTool? then [events[n].tool] else []
  }

  /** Whether there is a controller, by the last event that says so. */
  predicate Controlled(events: seq<Event>) {
    if events == [] then false
    else
      var n := |events| - 1;
      if events[n].SetController? then events[n].present else Controlled(events[..n])
  }

  /** In any run, the tools are those registered so far, in order, and the controller is the one last set. */
  lemma {:induction false} ToolsAndController(events: seq<Event>, handlers: Handlers)
    ensures Run(INITIAL, events, handlers).tools == Registrations(events)
    ensures Run(INITIAL, events, handlers).hasController == Controlled(events)
    decreases |events|
  {
    hide Invariant, Run, OnMessage, HandlerCompletes;
    if events == [] {
      assert Run(INITIAL, [], handlers) == INITIAL by { NoEvents(handlers); }
    } else {
      var n := |events| - 1;
      ToolsAndController(events[..n], handlers);
      AtNext(events, n, handlers);
      assert events[..n + 1] == events;
      var s := At(events, n, handlers);
      match events[n]
      case Receive(message) => MessageKeepsTools(s, message, handlers);
      case Complete(content, isError) =>
        if s.running.Some? {
          CompletionKeepsTools(s, content, isError, handlers);
        }
      case _ =>
    }
  }

  lemma NoEvents(handlers: Handlers)
    ensures Run(INITIAL, [], handlers) == INITIAL
  {
  }
}
