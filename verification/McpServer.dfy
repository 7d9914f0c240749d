/**
 The MCP server as a state machine on values: message routing, and the queue that runs one tool
 call at a time.

 A response callback is named by the index of the message it came with. What a tool handler does
 when it is run is the environment's choice: `handlers(tool, args, c)` says whether the handler of a
 tool, started with these arguments for callback `c`, completes before it returns or later.
 */
module McpServer {
  import opened Wrappers
  import opened Values

  datatype Tool = Tool(name: string, description: string, inputSchema: Dictionary)

  datatype PendingToolCall = PendingToolCall(name: string, args: Dictionary, id: Value, callback: nat)

  datatype HandlerOutcome = CompletesNow(content: seq<Value>, isError: bool) | Defers

  type Handlers = (Tool, Dictionary, nat) -> HandlerOutcome

  datatype Reply = Reply(callback: nat, response: Option<Dictionary>)

  /**
   The first five fields are the program's. `running` is the call whose completion callback a
   handler holds; `messages` and `replies` record everything received and answered.
   */
  datatype Server = Server(
    initialized: bool,
    toolCallInProgress: bool,
    toolCallQueue: seq<PendingToolCall>,
    hasController: bool,
    tools: seq<Tool>,
    running: Option<PendingToolCall>,
    messages: seq<Dictionary>,
    replies: seq<Reply>)

  const INITIAL := Server(false, false, [], false, [], None, [], [])

  // ---------- Responses ----------

  function TextContent(text: string): seq<Value> {
    [Dict(map["type" := Str("text"), "text" := Str(text)])]
  }

  function ResultMessage(id: Value, result: Dictionary): Dictionary {
    map["jsonrpc" := Str("2.0"), "id" := id, "result" := Dict(result)]
  }

  function ErrorMessage(id: Value, code: int, message: string): Dictionary {
    map["jsonrpc" := Str("2.0"), "id" := id,
        "error" := Dict(map["code" := Int(code), "message" := Str(message)])]
  }

  function ToolResult(content: seq<Value>, isError: bool): Dictionary {
    var result := map["content" := List(content)];
    if isError then result["isError" := Bool(true)] else result
  }

  function InitializeResult(): Dictionary {
    map["serverInfo" := Dict(map["name" := Str("browserd"), "version" := Str("1.0.0")]),
        "protocolVersion" := Str("2024-11-05"),
        "capabilities" := Dict(map["tools" := Dict(map["listChanged" := Bool(false)])])]
  }

  function ToolInfo(tool: Tool): Value {
    Dict(map["name" := Str(tool.name), "description" := Str(tool.description),
             "inputSchema" := Dict(tool.inputSchema)])
  }

  function ToolInfos(tools: seq<Tool>): seq<Value> {
    seq(|tools|, i requires 0 <= i < |tools| => ToolInfo(tools[i]))
  }

  function ToolsListResult(tools: seq<Tool>): Dictionary {
    map["tools" := List(ToolInfos(tools))]
  }

  function SendNoResponse(s: Server, callback: nat): Server {
    s.(replies := s.replies + [Reply(callback, None)])
  }

  function SendResult(s: Server, id: Value, result: Dictionary, callback: nat): Server {
    s.(replies := s.replies + [Reply(callback, Some(ResultMessage(id, result)))])
  }

  function SendError(s: Server, id: Value, code: int, message: string, callback: nat): Server {
    s.(replies := s.replies + [Reply(callback, Some(ErrorMessage(id, code, message)))])
  }

  // ---------- The tool call queue ----------

  /** The position of the first tool with the name, or the number of tools. */
  function ToolPosition(tools: seq<Tool>, name: string): (k: nat)
    ensures k <= |tools|
    ensures k < |tools| ==> tools[k].name == name
    ensures forall j :: 0 <= j < k ==> tools[j].name != name
  {
    if tools == [] || tools[0].name == name then 0
    else
      var rest := ToolPosition(tools[1..], name);
      assert forall j :: 1 <= j < rest + 1 ==> tools[j] == tools[1..][j - 1];
      rest + 1
  }

  function ExecuteNextToolCall(s: Server, handlers: Handlers): Server
    decreases |s.toolCallQueue|, 0
  {
    if s.toolCallQueue == [] then
      s.(toolCallInProgress := false)
    else
      var call := s.toolCallQueue[0];
      var s' := s.(toolCallInProgress := true, toolCallQueue := s.toolCallQueue[1..]);
      if !s.hasController then
        OnToolCallComplete(s', call, TextContent("No browser controller"), true, handlers)
      else if ToolPosition(s.tools, call.name) < |s.tools| then
        match handlers(s.tools[ToolPosition(s.tools, call.name)], call.args, call.callback)
        case Defers => s'.(running := Some(call))
        case CompletesNow(content, isError) => OnToolCallComplete(s', call, content, isError, handlers)
      else
        ExecuteNextToolCall(
          SendError(s', call.id, -32602, "Unknown tool: " + call.name, call.callback), handlers)
  }

  function OnToolCallComplete(s: Server, call: PendingToolCall, content: seq<Value>, isError: bool,
                              handlers: Handlers): Server
    decreases |s.toolCallQueue|, 1
  {
    ExecuteNextToolCall(SendResult(s, call.id, ToolResult(content, isError), call.callback), handlers)
  }

  /** The handler holding the completion callback of the running call runs it. */
  function HandlerCompletes(s: Server, content: seq<Value>, isError: bool, handlers: Handlers): Server
    requires s.running.Some?
  {
    OnToolCallComplete(s.(running := None), s.running.value, content, isError, handlers)
  }

  // ---------- Message routing ----------

  function HandleToolsCall(s: Server, params: Dictionary, id: Value, callback: nat, handlers: Handlers): Server {
    match FindString(params, "name")
    case None => SendError(s, id, -32602, "Missing tool name", callback)
    case Some(name) =>
      var arguments := FindDict(params, "arguments");
      var args := if arguments.Some? then arguments.value else map[];
      var s' := s.(toolCallQueue := s.toolCallQueue + [PendingToolCall(name, args, id, callback)]);
      if s'.toolCallInProgress then s' else ExecuteNextToolCall(s', handlers)
  }

  function Params(message: Dictionary): Dictionary {
    var params := FindDict(message, "params");
    if params.Some? then params.value else map[]
  }

  /** The methods the server tells apart. */
  datatype Method =
    | Missing
    | Initialize
    | NotifyInitialized
    | Ping
    | ToolsList
    | ToolsCall
    | Other(name: string)

  function MethodOf(message: Dictionary): Method {
    match FindString(message, "method")
    case None => Missing
    case Some(name) =>
      if name == "initialize" then Initialize
      else if name == "notifications/initialized" then NotifyInitialized
      else if name == "ping" then Ping
      else if name == "tools/list" then ToolsList
      else if name == "tools/call" then ToolsCall
      else Other(name)
  }

  function Route(s: Server, message: Dictionary, callback: nat, handlers: Handlers): Server {
    var kind := MethodOf(message);
    match Find(message, "id")
    case None =>
      SendNoResponse(if kind.NotifyInitialized? then s.(initialized := true) else s, callback)
    case Some(id) =>
      match kind
      case Missing => SendError(s, id, -32600, "Invalid Request", callback)
      case Initialize => SendResult(s.(initialized := true), id, InitializeResult(), callback)
      case NotifyInitialized => SendNoResponse(s.(initialized := true), callback)
      case Ping => SendResult(s, id, map[], callback)
      case _ =>
        if !s.initialized then SendError(s, id, -32002, "Server not initialized", callback)
        else match kind
          case ToolsList => SendResult(s, id, ToolsListResult(s.tools), callback)
          case ToolsCall => HandleToolsCall(s, Params(message), id, callback, handlers)
          case Other(name) => SendError(s, id, -32601, "Method not found: " + name, callback)
  }

  function OnMessage(s: Server, message: Dictionary, handlers: Handlers): Server {
    Route(s.(messages := s.messages + [message]), message, |s.messages|, handlers)
  }

  // ---------- What each message deserves, judged from the messages alone ----------

  datatype Verdict = Silence | Failure(code: int) | Success | ToolCall(name: string)

  /** Messages after which the server counts as initialized. */
  predicate Initializes(message: Dictionary) {
    MethodOf(message).NotifyInitialized? || (MethodOf(message).Initialize? && "id" in message)
  }

  predicate Initialized(messages: seq<Dictionary>) {
    exists k :: 0 <= k < |messages| && Initializes(messages[k])
  }

  function VerdictOn(message: Dictionary, initialized: bool): Verdict {
    var kind := MethodOf(message);
    if "id" !in message || kind.NotifyInitialized? then Silence
    else if kind.Missing? then Failure(-32600)
    else if kind.Initialize? || kind.Ping? then Success
    else if !initialized then Failure(-32002)
    else if kind.ToolsList? then Success
    else if kind.Other? then Failure(-32601)
    else match FindString(Params(message), "name")
      case None => Failure(-32602)
      case Some(tool) => ToolCall(tool)
  }

  function VerdictAt(messages: seq<Dictionary>, t: nat): Verdict
    requires t < |messages|
  {
    VerdictOn(messages[t], Initialized(messages[..t]))
  }

  /** The indices of the messages that are named tool calls, in arrival order. */
  function ToolCalls(messages: seq<Dictionary>): (calls: seq<nat>)
    ensures forall i :: 0 <= i < |calls| ==> calls[i] < |messages|
    ensures forall i, j :: 0 <= i < j < |calls| ==> calls[i] < calls[j]
    ensures forall t :: 0 <= t < |messages| ==> (t in calls <==> VerdictAt(messages, t).ToolCall?)
  {
    if messages == [] then []
    else
      var n := |messages| - 1;
      var before := ToolCalls(messages[..n]);
      assert forall t :: 0 <= t < n ==> messages[..n][..t] == messages[..t];
      assert forall t :: 0 <= t < n ==> VerdictAt(messages[..n], t) == VerdictAt(messages, t);
      if VerdictAt(messages, n).ToolCall? then before + [n] else before
  }

  lemma VerdictExtends(messages: seq<Dictionary>, message: Dictionary, t: nat)
    requires t < |messages|
    ensures VerdictAt(messages + [message], t) == VerdictAt(messages, t)
  {
    assert (messages + [message])[..t] == messages[..t];
  }

  lemma ToolCallsExtend(messages: seq<Dictionary>, message: Dictionary)
    ensures ToolCalls(messages + [message]) == ToolCalls(messages) +
              if VerdictOn(message, Initialized(messages)).ToolCall? then [|messages|] else []
  {
    var all := messages + [message];
    assert all[..|messages|] == messages;
  }

  lemma InitializedExtends(messages: seq<Dictionary>, message: Dictionary)
    ensures Initialized(messages + [message]) == (Initialized(messages) || Initializes(message))
  {
    var all := messages + [message];
    if Initialized(messages) {
      var k :| 0 <= k < |messages| && Initializes(messages[k]);
      assert Initializes(all[k]);
    }
    if Initializes(message) {
      assert Initializes(all[|messages|]);
    }
  }
}
