/**
 The whole server: the IPC thread, the HTTP thread, standard input, and the main thread with the MCP
 server, interleaved step by step.

 Messages posted to the main thread run in the order they were posted, so the posted history and the
 number of messages the server has received stand for the task queue. The replies of a main-thread
 task go out one by one before the next task runs.
 */
module McpSystem {
  import opened Wrappers
  import opened Values
  import opened Framing
  import IpcTransport
  import Ipc = IpcMachine
  import Http = HttpTransport
  import Server = McpServer

  datatype Origin = FromIpc(clientGeneration: nat) | FromHttp(connection: int, request: nat) | FromStdio

  datatype Posted = Posted(origin: Origin, message: Dictionary)

  /** JSON reading and writing, and what the tool handlers do. */
  datatype Env = Env(
    read: string -> Option<Dictionary>,
    write: Dictionary -> Option<string>,
    handlers: Server.Handlers)

  /** Serialized JSON holds no raw newline. */
  ghost predicate WritesOneLine(env: Env) {
    forall d :: env.write(d).Some? ==> OneLine(env.write(d).value)
  }

  datatype System = System(
    ipc: Ipc.Ipc,
    http: Http.Transport,
    server: Server.Server,
    posted: seq<Posted>,
    sentCount: nat,
    stdout: string)

  datatype Event =
    | IpcThread(e: Ipc.Event)
    | StdinLine(line: string)
    | HttpConnect(connection: int)
    | HttpRequest(connection: int, info: Http.RequestInfo)
    | HttpWebSocket(connection: int, info: Http.RequestInfo)
    | HttpClose(connection: int)
    | HttpRespond
    | HttpStop
    | RunMessage
    | RunCompletion(content: seq<Value>, isError: bool)
    | ControllerSet(present: bool)
    | ToolRegistered(tool: Server.Tool)
    | DeliverReply(outcomes: seq<IpcTransport.SendReturn>)
    | StopIpc

  function Started(listenerFd: int, token: string): System {
    System(Ipc.Started(listenerFd), Http.Started(token), Server.INITIAL, [], 0, "")
  }

  // ---------- Messages in ----------

  function ParseLine(line: string, env: Env): Option<Dictionary> {
    if line == "" then None else env.read(line)
  }

  function Post(posted: seq<Posted>, origin: Origin, message: Option<Dictionary>): seq<Posted> {
    if message.None? then posted else posted + [Posted(origin, message.value)]
  }

  // ---------- Replies out ----------

  function Serialize(response: Option<Dictionary>, env: Env): Option<string> {
    if response.None? then None else env.write(response.value)
  }

  predicate Shaped(s: System) {
    && Ipc.Shaped(s.ipc)
    && |s.server.messages| <= |s.posted|
    && s.sentCount <= |s.server.replies|
    && (forall i :: 0 <= i < |s.server.replies| ==> s.server.replies[i].callback < |s.posted|)
  }

  /** The main thread is between tasks: every reply so far has been handed to its transport. */
  predicate Idle(s: System) {
    s.sentCount == |s.server.replies|
  }

  function NextReply(s: System): Server.Reply
    requires s.sentCount < |s.server.replies|
  {
    s.server.replies[s.sentCount]
  }

  function NextOrigin(s: System): Origin
    requires Shaped(s) && s.sentCount < |s.server.replies|
  {
    s.posted[NextReply(s).callback].origin
  }

  /** A reply is due, and the returns of send(2) decide what becomes of it if it goes to the IPC client. */
  predicate Deliverable(s: System, outcomes: seq<IpcTransport.SendReturn>, env: Env)
    requires Shaped(s)
  {
    s.sentCount < |s.server.replies| &&
    (NextOrigin(s).FromIpc? && Serialize(NextReply(s).response, env).Some? ==>
       IpcTransport.Decides(|Serialize(NextReply(s).response, env).value| + 1, outcomes))
  }

  function Deliver(s: System, outcomes: seq<IpcTransport.SendReturn>, env: Env): System
    requires Shaped(s) && Deliverable(s, outcomes, env)
  {
    var response := NextReply(s).response;
    var json := Serialize(response, env);
    var s' := s.(sentCount := s.sentCount + 1);
    match NextOrigin(s)
    case FromIpc(g) =>
      if json.None? then s'
      else s'.(ipc := Ipc.Step(s.ipc, Ipc.Send(g, json.value + "\n", outcomes)))
    case FromHttp(connection, request) =>
      s'.(http := Http.PostResponse(s.http, Http.Pending(request, connection, response)))
    case FromStdio =>
      if json.None? then s' else s'.(stdout := s.stdout + json.value + "\n")
  }

  // ---------- Steps ----------

  predicate Enabled(s: System, e: Event, env: Env)
    requires Shaped(s)
  {
    match e
    case IpcThread(e) => !e.Send? && !e.StopRequested? && Ipc.Enabled(s.ipc, e)
    case StdinLine(line) => OneLine(line)
    case HttpConnect(c) => c !in s.http.seen
    case HttpRequest(c, _) => c in s.http.open
    case HttpWebSocket(c, _) => c in s.http.open
    case HttpClose(c) => c in s.http.open
    case HttpRespond => s.http.inbox != []
    case HttpStop => true
    case RunMessage => Idle(s) && |s.server.messages| < |s.posted|
    case RunCompletion(_, _) => Idle(s) && s.server.running.Some?
    case ControllerSet(_) => Idle(s)
    case ToolRegistered(_) => Idle(s)
    case DeliverReply(outcomes) => Deliverable(s, outcomes, env)
    case StopIpc => true
  }

  function Step(s: System, e: Event, env: Env): System
    requires Shaped(s) && Enabled(s, e, env)
  {
    match e
    case IpcThread(e) =>
      s.(ipc := Ipc.Step(s.ipc, e),
         posted := if e.SplitLine? then
                     Post(s.posted, FromIpc(s.ipc.pc.clientGeneration),
                          ParseLine(StripCR(s.ipc.buffer[..FindNewline(s.ipc.buffer)]), env))
                   else s.posted)
    case StdinLine(line) => s.(posted := Post(s.posted, FromStdio, ParseLine(line, env)))
    case HttpConnect(c) => s.(http := Http.OnConnect(s.http, c))
    case HttpRequest(c, info) =>
      var (http, message) := Http.OnHttpRequest(s.http, c, info, env.read);
      s.(http := http, posted := Post(s.posted, FromHttp(c, |s.http.requests|), message))
    case HttpWebSocket(c, info) => s.(http := Http.OnWebSocket(s.http, c, info))
    case HttpClose(c) => s.(http := Http.OnClose(s.http, c))
    case HttpRespond => s.(http := Http.SendMCPResponse(s.http, env.write))
    case HttpStop => s.(http := Http.StopOnHttpThread(s.http))
    case RunMessage =>
      s.(server := Server.OnMessage(s.server, s.posted[|s.server.messages|].message, env.handlers))
    case RunCompletion(content, isError) =>
      s.(server := Server.HandlerCompletes(s.server, content, isError, env.handlers))
    case ControllerSet(present) => s.(server := s.server.(hasController := present))
    case ToolRegistered(tool) => s.(server := s.server.(tools := s.server.tools + [tool]))
    case DeliverReply(outcomes) => Deliver(s, outcomes, env)
    case StopIpc => s.(ipc := Ipc.Step(s.ipc, Ipc.StopRequested))
  }
}
