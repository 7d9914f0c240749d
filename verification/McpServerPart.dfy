/** The MCP server within the whole server: what it goes through is one of its own runs. */
module McpServerPart {
  import opened Wrappers
  import opened McpSystem
  import opened McpSystemRuns
  import Ipc = IpcMachine
  import Http = HttpTransport
  import Server = McpServer
  import ServerRuns = McpServerRuns

  /** The server's part of an event, if it has one. */
  function PartOf(s: System, e: Event, env: Env): Option<ServerRuns.Event>
    requires Shaped(s) && Enabled(s, e, env)
  {
    match e
    case RunMessage => Some(ServerRuns.Receive(s.posted[|s.server.messages|].message))
    case RunCompletion(content, isError) => Some(ServerRuns.Complete(content, isError))
    case ControllerSet(present) => Some(ServerRuns.SetController(present))
    case ToolRegistered(tool) => Some(ServerRuns.RegisterTool(tool))
    case _ => None
  }

  lemma StepsServer(s: System, e: Event, env: Env)
    requires Shaped(s) && Enabled(s, e, env)
    ensures var part := PartOf(s, e, env);
            Step(s, e, env).server ==
            if part.Some? then ServerRuns.Step(s.server, part.value, env.handlers) else s.server
  {
    hide Ipc.Step, Ipc.Enabled, Ipc.Shaped, Serialize, Server.OnMessage, Server.HandlerCompletes, Http.OnHttpRequest,
         Http.OnWebSocket, Http.SendMCPResponse, ParseLine;
  }

  /** In any run of the whole server, the MCP server goes through the run made of its own events. */
  lemma {:induction false} ServerRun(s: System, events: seq<Event>, env: Env) returns (own: seq<ServerRuns.Event>)
    requires Possible(s, events, env)
    ensures After(s, events, env).server == ServerRuns.Run(s.server, own, env.handlers)
    ensures |own| <= |events|
    decreases |events|
  {
    hide Step, Enabled, Shaped, ServerRuns.Step;
    if events == [] {
      own := [];
    } else {
      StepsServer(s, events[0], env);
      own := ServerRun(Step(s, events[0], env), events[1..], env);
      var part := PartOf(s, events[0], env);
      if part.Some? {
        assert ([part.value] + own)[1..] == own;
        own := [part.value] + own;
      }
    }
  }

  lemma ReachableServerRun(s: System, listenerFd: int, token: string, env: Env) returns (own: seq<ServerRuns.Event>)
    requires Reachable(s, listenerFd, token, env)
    ensures s.server == ServerRuns.Run(Server.INITIAL, own, env.handlers)
  {
    hide Possible, After, ServerRuns.Run;
    var events: seq<Event> :| Possible(Started(listenerFd, token), events, env) &&
                              After(Started(listenerFd, token), events, env) == s;
    own := ServerRun(Started(listenerFd, token), events, env);
  }
}
