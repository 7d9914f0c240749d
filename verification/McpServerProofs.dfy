/** What every run of the MCP server keeps: each message is answered once, calls in arrival order. */
module McpServerProofs {
  import opened Wrappers
  import opened Counting
  import opened Values
  import opened McpServer

  // ---------- The account of callbacks ----------

  function ReplyTokens(replies: seq<Reply>): seq<nat> {
    seq(|replies|, i requires 0 <= i < |replies| => replies[i].callback)
  }

  function CallTokens(calls: seq<PendingToolCall>): seq<nat> {
    seq(|calls|, i requires 0 <= i < |calls| => calls[i].callback)
  }

  /** Calls not yet answered, oldest first; `hand` is a call just taken off the queue. */
  function Pending(s: Server, hand: seq<PendingToolCall>): seq<PendingToolCall> {
    hand + ToSeq(s.running) + s.toolCallQueue
  }

  predicate Known(replies: seq<Reply>, messages: seq<Dictionary>) {
    forall i :: 0 <= i < |replies| ==> replies[i].callback < |messages|
  }

  /** The tool calls among the answered messages, in the order of their answers. */
  function Answered(replies: seq<Reply>, messages: seq<Dictionary>): seq<nat>
    requires Known(replies, messages)
  {
    if replies == [] then []
    else
      var n := |replies| - 1;
      var t := replies[n].callback;
      Answered(replies[..n], messages) + if VerdictAt(messages, t).ToolCall? then [t] else []
  }

  // ---------- The shape of a response (JSON-RPC 2.0, sections 4.1 and 5) ----------

  predicate IsResult(d: Dictionary, id: Value) {
    && d.Keys == {"jsonrpc", "id", "result"}
    && d["jsonrpc"] == Str("2.0") && d["id"] == id && d["result"].Dict?
  }

  predicate IsError(d: Dictionary, id: Value, code: int) {
    && d.Keys == {"jsonrpc", "id", "error"}
    && d["jsonrpc"] == Str("2.0") && d["id"] == id && d["error"].Dict?
    && d["error"].entries.Keys == {"code", "message"}
    && d["error"].entries["code"] == Int(code) && d["error"].entries["message"].Str?
  }

  /** A result that carries the content list of a tool, marked as an error or not. */
  predicate IsToolResult(result: Dictionary) {
    && "content" in result && result["content"].List?
    && result.Keys <= {"content", "isError"}
    && ("isError" in result ==> result["isError"] == Bool(true))
  }

  predicate Conforms(messages: seq<Dictionary>, reply: Reply)
    requires reply.callback < |messages|
  {
    var message := messages[reply.callback];
    match VerdictAt(messages, reply.callback)
    case Silence => reply.response.None?
    case Failure(code) => reply.response.Some? && IsError(reply.response.value, message["id"], code)
    case Success => reply.response.Some? && IsResult(reply.response.value, message["id"])
    case ToolCall(name) =>
      reply.response.Some? &&
      var d := reply.response.value;
      || (IsResult(d, message["id"]) && IsToolResult(d["result"].entries))
      || (IsError(d, message["id"], -32602) && d["error"].entries["message"] == Str("Unknown tool: " + name))
  }

  /** The message is a tools/call with this name and these arguments. */
  predicate AsksFor(message: Dictionary, name: string, args: Dictionary) {
    && "method" in message && message["method"] == Str("tools/call")
    && "params" in message && message["params"].Dict?
    && var params := message["params"].entries;
       && "name" in params && params["name"] == Str(name)
       && args == if "arguments" in params && params["arguments"].Dict? then params["arguments"].entries else map[]
  }

  predicate Matches(messages: seq<Dictionary>, call: PendingToolCall) {
    && call.callback < |messages|
    && AsksFor(messages[call.callback], call.name, call.args)
    && "id" in messages[call.callback] && call.id == messages[call.callback]["id"]
    && VerdictAt(messages, call.callback) == ToolCall(call.name)
  }

  // ---------- The invariant ----------

  /** Every answer given has the shape its message deserves. */
  ghost predicate Conforming(s: Server) {
    && Known(s.replies, s.messages)
    && forall i :: 0 <= i < |s.replies| ==> Conforms(s.messages, s.replies[i])
  }

  ghost predicate AllMatch(messages: seq<Dictionary>, calls: seq<PendingToolCall>) {
    forall i :: 0 <= i < |calls| ==> Matches(messages, calls[i])
  }

  /** Every message received is answered once or owed one answer. */
  ghost predicate Counted(s: Server, pending: seq<PendingToolCall>) {
    multiset(ReplyTokens(s.replies)) + multiset(CallTokens(pending)) == multiset(Upto(|s.messages|))
  }

  /** Tool calls, in arrival order, are the answered ones followed by the pending ones. */
  ghost predicate Ordered(s: Server, pending: seq<PendingToolCall>) {
    && Known(s.replies, s.messages)
    && ToolCalls(s.messages) == Answered(s.replies, s.messages) + CallTokens(pending)
  }

  ghost predicate Balanced(s: Server, hand: seq<PendingToolCall>) {
    && Conforming(s)
    && AllMatch(s.messages, Pending(s, hand))
    && Counted(s, Pending(s, hand))
    && Ordered(s, Pending(s, hand))
    && s.initialized == Initialized(s.messages)
  }

  ghost predicate Invariant(s: Server) {
    && Balanced(s, [])
    && (s.toolCallInProgress <==> s.running.Some?)
    && (!s.toolCallInProgress ==> s.toolCallQueue == [])
  }

  lemma InitialInvariant()
    ensures Invariant(INITIAL)
  {
  }

  // ---------- One answer ----------

  lemma AnsweredSnoc(replies: seq<Reply>, reply: Reply, messages: seq<Dictionary>)
    requires Known(replies, messages) && reply.callback < |messages|
    ensures Known(replies + [reply], messages)
    ensures Answered(replies + [reply], messages) ==
              Answered(replies, messages) +
              if VerdictAt(messages, reply.callback).ToolCall? then [reply.callback] else []
    ensures ReplyTokens(replies + [reply]) == ReplyTokens(replies) + [reply.callback]
  {
    assert (replies + [reply])[..|replies|] == replies;
  }

  lemma CallTokensConcat(a: seq<PendingToolCall>, b: seq<PendingToolCall>)
    ensures CallTokens(a + b) == CallTokens(a) + CallTokens(b)
  {
  }

  lemma {:induction false} AnsweredExtends(replies: seq<Reply>, messages: seq<Dictionary>, message: Dictionary)
    requires Known(replies, messages)
    ensures Known(replies, messages + [message])
    ensures Answered(replies, messages + [message]) == Answered(replies, messages)
  {
    if replies != [] {
      AnsweredExtends(replies[..|replies| - 1], messages, message);
      VerdictExtends(messages, message, replies[|replies| - 1].callback);
    }
  }

  lemma CountedMoves(done: seq<nat>, t: nat, owed: seq<nat>)
    ensures multiset(done) + multiset([t] + owed) == multiset(done + [t]) + multiset(owed)
  {
  }

  lemma ConformingSnoc(s: Server, reply: Reply)
    requires Conforming(s) && reply.callback < |s.messages| && Conforms(s.messages, reply)
    ensures Conforming(s.(replies := s.replies + [reply]))
  {
    hide Conforms;
  }

  lemma AllMatchTail(messages: seq<Dictionary>, call: PendingToolCall, rest: seq<PendingToolCall>)
    requires AllMatch(messages, [call] + rest)
    ensures Matches(messages, call) && AllMatch(messages, rest)
  {
    hide Matches;
    assert ([call] + rest)[0] == call;
    forall i | 0 <= i < |rest| ensures Matches(messages, rest[i]) {
      assert ([call] + rest)[i + 1] == rest[i];
    }
  }

  lemma CountedAnswer(s: Server, call: PendingToolCall, rest: seq<PendingToolCall>, reply: Reply)
    requires Counted(s, [call] + rest) && reply.callback == call.callback
    ensures Counted(s.(replies := s.replies + [reply]), rest)
  {
    assert CallTokens([call] + rest) == [call.callback] + CallTokens(rest);
    assert ReplyTokens(s.replies + [reply]) == ReplyTokens(s.replies) + [reply.callback];
    CountedMoves(ReplyTokens(s.replies), call.callback, CallTokens(rest));
  }

  lemma MoveBoundary(a: seq<nat>, t: nat, b: seq<nat>)
    ensures a + ([t] + b) == (a + [t]) + b
  {
  }

  lemma OrderedAnswer(s: Server, call: PendingToolCall, rest: seq<PendingToolCall>, reply: Reply)
    requires Ordered(s, [call] + rest) && reply.callback == call.callback && Matches(s.messages, call)
    ensures Ordered(s.(replies := s.replies + [reply]), rest)
  {
    hide VerdictAt, Matches, Answered, ToolCalls, ReplyTokens;
    CallTokensConcat([call], rest);
    assert CallTokens([call]) == [call.callback];
    hide CallTokens;
    MatchedVerdict(s.messages, call);
    AnsweredSnoc(s.replies, reply, s.messages);
    var answered := Answered(s.replies, s.messages);
    MoveBoundary(answered, reply.callback, CallTokens(rest));
  }

  /** Answering the call in hand: it moves from pending to answered, at the end of both orders. */
  lemma AnswerHand(s: Server, call: PendingToolCall, response: Dictionary)
    requires Balanced(s, [call]) && s.running.None?
    requires call.callback < |s.messages| && Conforms(s.messages, Reply(call.callback, Some(response)))
    ensures Balanced(s.(replies := s.replies + [Reply(call.callback, Some(response))]), [])
  {
    hide Conforms, Conforming, AllMatch, Matches, Counted, Ordered, Initialized;
    var reply := Reply(call.callback, Some(response));
    var rest := s.toolCallQueue;
    assert Pending(s, [call]) == [call] + rest;
    assert Pending(s.(replies := s.replies + [reply]), []) == rest;
    AllMatchTail(s.messages, call, rest);
    ConformingSnoc(s, reply);
    CountedAnswer(s, call, rest, reply);
    OrderedAnswer(s, call, rest, reply);
  }

  /** The account only depends on what was received, what was answered, and who is waiting. */
  lemma SameAccount(s: Server, hand: seq<PendingToolCall>, s': Server, hand': seq<PendingToolCall>)
    requires Balanced(s, hand)
    requires s'.messages == s.messages && s'.replies == s.replies && s'.initialized == s.initialized
    requires Pending(s', hand') == Pending(s, hand)
    ensures Balanced(s', hand')
  {
    hide Conforms, ToolCalls, Answered, Initialized, VerdictOn, Pending, Matches;
  }

  /** The controller and the tools play no part in the account. */
  lemma SettingsKeep(s: Server, hasController: bool, tools: seq<Tool>)
    requires Invariant(s)
    ensures Invariant(s.(hasController := hasController, tools := tools))
  {
    hide Balanced;
    SameAccount(s, [], s.(hasController := hasController, tools := tools), []);
  }

  lemma ToolResultConforms(messages: seq<Dictionary>, call: PendingToolCall, content: seq<Value>, isError: bool)
    requires Matches(messages, call)
    ensures Conforms(messages, Reply(call.callback, Some(ResultMessage(call.id, ToolResult(content, isError)))))
  {
  }

  lemma UnknownToolConforms(messages: seq<Dictionary>, call: PendingToolCall)
    requires Matches(messages, call)
    ensures Conforms(messages,
                     Reply(call.callback, Some(ErrorMessage(call.id, -32602, "Unknown tool: " + call.name))))
  {
  }

  lemma {:induction false} ExecuteKeeps(s: Server, handlers: Handlers)
    requires Balanced(s, []) && s.running.None?
    ensures Invariant(ExecuteNextToolCall(s, handlers))
    ensures ExecuteNextToolCall(s, handlers).messages == s.messages
    decreases |s.toolCallQueue|, 0
  {
    hide Balanced, ToolPosition, Matches, Conforms;
    if s.toolCallQueue == [] {
      SameAccount(s, [], s.(toolCallInProgress := false), []);
    } else {
      var call := s.toolCallQueue[0];
      var s' := s.(toolCallInProgress := true, toolCallQueue := s.toolCallQueue[1..]);
      assert Pending(s', [call]) == Pending(s, []);
      SameAccount(s, [], s', [call]);
      if !s.hasController {
        CompleteKeeps(s', call, TextContent("No browser controller"), true, handlers);
      } else if ToolPosition(s.tools, call.name) < |s.tools| {
        match handlers(s.tools[ToolPosition(s.tools, call.name)], call.args, call.callback)
        case Defers =>
          assert Pending(s'.(running := Some(call)), []) == Pending(s', [call]);
          SameAccount(s', [call], s'.(running := Some(call)), []);
        case CompletesNow(content, isError) => CompleteKeeps(s', call, content, isError, handlers);
      } else {
        HandMatches(s', call);
        UnknownToolConforms(s.messages, call);
        var response := ErrorMessage(call.id, -32602, "Unknown tool: " + call.name);
        AnswerHand(s', call, response);
        ExecuteKeeps(s'.(replies := s'.replies + [Reply(call.callback, Some(response))]), handlers);
      }
    }
  }

  lemma HandMatches(s: Server, call: PendingToolCall)
    requires Balanced(s, [call])
    ensures call.callback < |s.messages| && Matches(s.messages, call)
  {
    assert Pending(s, [call])[0] == call;
  }

  lemma {:induction false} CompleteKeeps(s: Server, call: PendingToolCall, content: seq<Value>, isError: bool,
                                         handlers: Handlers)
    requires Balanced(s, [call]) && s.running.None?
    ensures Invariant(OnToolCallComplete(s, call, content, isError, handlers))
    ensures OnToolCallComplete(s, call, content, isError, handlers).messages == s.messages
    decreases |s.toolCallQueue|, 1
  {
    hide Balanced, Matches, Conforms;
    HandMatches(s, call);
    ToolResultConforms(s.messages, call, content, isError);
    var response := ResultMessage(call.id, ToolResult(content, isError));
    AnswerHand(s, call, response);
    ExecuteKeeps(s.(replies := s.replies + [Reply(call.callback, Some(response))]), handlers);
  }

  lemma HandlerCompletesKeeps(s: Server, content: seq<Value>, isError: bool, handlers: Handlers)
    requires Invariant(s) && s.running.Some?
    ensures Invariant(HandlerCompletes(s, content, isError, handlers))
    ensures HandlerCompletes(s, content, isError, handlers).messages == s.messages
  {
    hide Balanced;
    var s' := s.(running := None);
    assert Pending(s', [s.running.value]) == Pending(s, []);
    SameAccount(s, [], s', [s.running.value]);
    CompleteKeeps(s', s.running.value, content, isError, handlers);
  }

  // ---------- One message ----------

  lemma ReceiveKeepsPast(s: Server, message: Dictionary)
    requires Balanced(s, [])
    ensures var messages := s.messages + [message];
            && Known(s.replies, messages)
            && Answered(s.replies, messages) == Answered(s.replies, s.messages)
            && (forall i :: 0 <= i < |s.replies| ==> Conforms(messages, s.replies[i]))
            && (forall i :: 0 <= i < |Pending(s, [])| ==> Matches(messages, Pending(s, [])[i]))
            && VerdictAt(messages, |s.messages|) == VerdictOn(message, s.initialized)
            && messages[|s.messages|] == message
  {
    var messages := s.messages + [message];
    AnsweredExtends(s.replies, s.messages, message);
    forall t: nat | t < |s.messages| ensures VerdictAt(messages, t) == VerdictAt(s.messages, t) {
      VerdictExtends(s.messages, message, t);
    }
    assert messages[..|s.messages|] == s.messages;
  }

  lemma CountedAtOnce(s: Server, message: Dictionary, pending: seq<PendingToolCall>, reply: Reply)
    requires Counted(s, pending) && reply.callback == |s.messages|
    ensures Counted(s.(messages := s.messages + [message], replies := s.replies + [reply]), pending)
  {
    hide Upto, ReplyTokens, CallTokens;
    ReplyTokensSnoc(s.replies, reply);
    CountsSnoc(ReplyTokens(s.replies), reply.callback);
    UptoSnoc(|s.messages|);
    CountsSnoc(Upto(|s.messages|), |s.messages|);
  }

  lemma ReplyTokensSnoc(replies: seq<Reply>, reply: Reply)
    ensures ReplyTokens(replies + [reply]) == ReplyTokens(replies) + [reply.callback]
  {
  }

  lemma OrderedAtOnce(s: Server, message: Dictionary, pending: seq<PendingToolCall>, reply: Reply)
    requires Ordered(s, pending) && reply.callback == |s.messages|
    requires !VerdictOn(message, Initialized(s.messages)).ToolCall?
    ensures Ordered(s.(messages := s.messages + [message], replies := s.replies + [reply]), pending)
  {
    hide VerdictOn, Initialized, Answered, ToolCalls, CallTokens, ReplyTokens;
    var messages := s.messages + [message];
    AnsweredExtends(s.replies, s.messages, message);
    AnsweredSnoc(s.replies, reply, messages);
    ToolCallsExtend(s.messages, message);
    assert messages[..|s.messages|] == s.messages;
  }

  /** A message that is answered on the spot. */
  lemma ReplyAtOnce(s: Server, message: Dictionary, response: Option<Dictionary>)
    requires Balanced(s, [])
    requires !VerdictOn(message, s.initialized).ToolCall?
    requires Conforms(s.messages + [message], Reply(|s.messages|, response))
    ensures Balanced(s.(messages := s.messages + [message],
                        initialized := s.initialized || Initializes(message),
                        replies := s.replies + [Reply(|s.messages|, response)]), [])
  {
    var reply := Reply(|s.messages|, response);
    var pending := Pending(s, []);
    ReceiveKeepsPast(s, message);
    InitializedExtends(s.messages, message);
    hide Conforms, Matches, Counted, Ordered, Initialized, Initializes, VerdictOn;
    ConformingSnoc(s.(messages := s.messages + [message]), reply);
    CountedAtOnce(s, message, pending, reply);
    OrderedAtOnce(s, message, pending, reply);
  }

  lemma ToolCallDoesNotInitialize(message: Dictionary, initialized: bool)
    requires VerdictOn(message, initialized).ToolCall?
    ensures !Initializes(message) && initialized
  {
  }

  lemma MatchedVerdict(messages: seq<Dictionary>, call: PendingToolCall)
    requires Matches(messages, call)
    ensures call.callback < |messages| && VerdictAt(messages, call.callback).ToolCall?
  {
  }

  /** A named tool call joins the end of the queue. */
  lemma CountedEnqueued(s: Server, message: Dictionary, pending: seq<PendingToolCall>, call: PendingToolCall)
    requires Counted(s, pending) && call.callback == |s.messages|
    ensures Counted(s.(messages := s.messages + [message]), pending + [call])
  {
    hide Upto, ReplyTokens, CallTokens;
    CallTokensSnoc(pending, call);
    CountsSnoc(CallTokens(pending), call.callback);
    UptoSnoc(|s.messages|);
    CountsSnoc(Upto(|s.messages|), |s.messages|);
  }

  lemma CallTokensSnoc(pending: seq<PendingToolCall>, call: PendingToolCall)
    ensures CallTokens(pending + [call]) == CallTokens(pending) + [call.callback]
  {
  }

  lemma OrderedEnqueued(s: Server, message: Dictionary, pending: seq<PendingToolCall>, call: PendingToolCall)
    requires Ordered(s, pending) && call.callback == |s.messages|
    requires VerdictOn(message, Initialized(s.messages)).ToolCall?
    ensures Ordered(s.(messages := s.messages + [message]), pending + [call])
  {
    hide VerdictOn, Initialized, Answered, ToolCalls, ReplyTokens;
    AnsweredExtends(s.replies, s.messages, message);
    ToolCallsExtend(s.messages, message);
    CallTokensConcat(pending, [call]);
    assert CallTokens([call]) == [call.callback];
  }

  lemma SameLedger(s: Server, t: Server, pending: seq<PendingToolCall>)
    requires Counted(s, pending) && Ordered(s, pending) && t.messages == s.messages && t.replies == s.replies
    ensures Counted(t, pending) && Ordered(t, pending)
  {
    hide Answered, ToolCalls, CallTokens, ReplyTokens;
  }

  lemma Enqueue(s: Server, message: Dictionary, call: PendingToolCall)
    requires Balanced(s, [])
    requires call.callback == |s.messages|
    requires Matches(s.messages + [message], call)
    ensures Balanced(s.(messages := s.messages + [message],
                        toolCallQueue := s.toolCallQueue + [call]), [])
  {
    hide Conforms, Counted, Ordered, Initialized, VerdictOn, Matches, Initializes;
    var messages := s.messages + [message];
    var s' := s.(messages := messages, toolCallQueue := s.toolCallQueue + [call]);
    ReceiveKeepsPast(s, message);
    InitializedExtends(s.messages, message);
    MatchedVerdict(messages, call);
    assert messages[..|s.messages|] == s.messages;
    ToolCallDoesNotInitialize(message, Initialized(s.messages));
    CountedEnqueued(s, message, Pending(s, []), call);
    OrderedEnqueued(s, message, Pending(s, []), call);
    assert Pending(s', []) == Pending(s, []) + [call];
    SameLedger(s.(messages := messages), s', Pending(s', []));
  }

  lemma OnMessageKeeps(s: Server, message: Dictionary, handlers: Handlers)
    requires Invariant(s)
    ensures Invariant(OnMessage(s, message, handlers))
    ensures OnMessage(s, message, handlers).messages == s.messages + [message]
  {
    if VerdictOn(message, s.initialized).ToolCall? {
      ToolCallMessageKeeps(s, message, handlers);
    } else {
      AtOnceMessageKeeps(s, message, handlers);
    }
  }

  lemma ToolCallMessageKeeps(s: Server, message: Dictionary, handlers: Handlers)
    requires Invariant(s) && VerdictOn(message, s.initialized).ToolCall?
    ensures Invariant(OnMessage(s, message, handlers))
    ensures OnMessage(s, message, handlers).messages == s.messages + [message]
  {
    hide Balanced, ExecuteNextToolCall, Initialized;
    ReceiveKeepsPast(s, message);
    var params := Params(message);
    var arguments := FindDict(params, "arguments");
    var args := if arguments.Some? then arguments.value else map[];
    var call := PendingToolCall(params["name"].s, args, message["id"], |s.messages|);
    Enqueue(s, message, call);
    var s' := s.(messages := s.messages + [message], toolCallQueue := s.toolCallQueue + [call]);
    assert OnMessage(s, message, handlers) == if s.toolCallInProgress then s' else ExecuteNextToolCall(s', handlers);
    if !s.toolCallInProgress {
      ExecuteKeeps(s', handlers);
    }
  }

  /** The answer to a message that is no tool call. */
  function AtOnceResponse(s: Server, message: Dictionary): Option<Dictionary>
    requires !VerdictOn(message, s.initialized).ToolCall?
  {
    var r := Route(s.(replies := []), message, 0, (_, _, _) => Defers);
    if r.replies == [] then None else r.replies[0].response
  }

  /** A message that is no tool call gets exactly one reply at once and changes nothing else. */
  lemma AtOnceReply(s: Server, message: Dictionary, handlers: Handlers)
    requires !VerdictOn(message, s.initialized).ToolCall?
    ensures OnMessage(s, message, handlers) ==
            s.(messages := s.messages + [message],
               initialized := s.initialized || Initializes(message),
               replies := s.replies + [Reply(|s.messages|, AtOnceResponse(s, message))])
  {
    hide MethodOf, InitializeResult, ToolsListResult, ResultMessage, ErrorMessage, Params, FindString,
         ExecuteNextToolCall;
    if "id" in message && MethodOf(message).ToolsCall? && s.initialized {
      assert FindString(Params(message), "name").None?;
    }
  }

  lemma ResultShape(id: Value, result: Dictionary)
    ensures IsResult(ResultMessage(id, result), id)
  {
  }

  lemma ErrorShape(id: Value, code: int, text: string)
    ensures IsError(ErrorMessage(id, code, text), id, code)
  {
  }

  lemma AtOnceSucceeds(s: Server, message: Dictionary)
    requires VerdictOn(message, s.initialized).Success?
    ensures var response := AtOnceResponse(s, message);
            response.Some? && IsResult(response.value, message["id"])
  {
    hide MethodOf, InitializeResult, ToolsListResult, Params, FindString, ResultMessage, IsResult, ExecuteNextToolCall;
    forall result: Dictionary ensures IsResult(ResultMessage(message["id"], result), message["id"]) {
      ResultShape(message["id"], result);
    }
  }

  lemma AtOnceFails(s: Server, message: Dictionary)
    requires VerdictOn(message, s.initialized).Failure?
    ensures var response := AtOnceResponse(s, message);
            response.Some? && IsError(response.value, message["id"], VerdictOn(message, s.initialized).code)
  {
    hide MethodOf, InitializeResult, ToolsListResult, Params, FindString, ErrorMessage, IsError, ExecuteNextToolCall;
    forall code, text ensures IsError(ErrorMessage(message["id"], code, text), message["id"], code) {
      ErrorShape(message["id"], code, text);
    }
  }

  lemma AtOnceSilent(s: Server, message: Dictionary)
    requires VerdictOn(message, s.initialized).Silence?
    ensures AtOnceResponse(s, message).None?
  {
    hide MethodOf, Params, FindString, ExecuteNextToolCall;
  }

  lemma AtOnceConforms(s: Server, message: Dictionary)
    requires !VerdictOn(message, s.initialized).ToolCall?
    ensures var response := AtOnceResponse(s, message);
            match VerdictOn(message, s.initialized)
            case Silence => response.None?
            case Failure(code) => response.Some? && IsError(response.value, message["id"], code)
            case Success => response.Some? && IsResult(response.value, message["id"])
  {
    hide AtOnceResponse, VerdictOn, IsResult, IsError;
    match VerdictOn(message, s.initialized)
    case Silence => AtOnceSilent(s, message);
    case Failure(_) => AtOnceFails(s, message);
    case Success => AtOnceSucceeds(s, message);
  }

  lemma AtOnceMessageKeeps(s: Server, message: Dictionary, handlers: Handlers)
    requires Invariant(s) && !VerdictOn(message, s.initialized).ToolCall?
    ensures Invariant(OnMessage(s, message, handlers))
    ensures OnMessage(s, message, handlers).messages == s.messages + [message]
  {
    hide OnMessage, Balanced, AtOnceResponse, VerdictOn, IsError, IsResult, Initialized;
    AtOnceReply(s, message, handlers);
    AtOnceConforms(s, message);
    ReceiveKeepsPast(s, message);
    ReplyAtOnce(s, message, AtOnceResponse(s, message));
  }
}
