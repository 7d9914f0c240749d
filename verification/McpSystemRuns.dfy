/** Runs of the whole server, from the moment it listens. */
module McpSystemRuns {
  import opened Wrappers
  import opened Values
  import opened McpSystem
  import opened McpSystemProofs
  import HttpProofs = McpHttpProofs
  import Http = HttpTransport
  import Ipc = IpcMachine
  import IpcProofs
  import Server = McpServer
  import ServerProofs = McpServerProofs
  import ServerRuns = McpServerRuns

  ghost predicate Sound(s: System, env: Env) {
    Inv(s, env) && HttpProofs.HttpInv(s, env)
  }

  lemma StartedSound(listenerFd: int, token: string, env: Env)
    requires listenerFd >= 0
    ensures Sound(Started(listenerFd, token), env)
  {
    StartedInv(listenerFd, token, env);
    HttpProofs.StartedHttpInv(listenerFd, token, env);
  }

  lemma InvShaped(s: System, env: Env)
    requires Inv(s, env)
    ensures Shaped(s)
  {
  }

  lemma MessageAddsReplies(s: System, env: Env)
    requires Shaped(s) && Enabled(s, RunMessage, env) && Inv(s, env)
    ensures s.server.replies <= Step(s, RunMessage, env).server.replies
  {
    hide Inv, Ipc.Shaped, Server.OnMessage, Server.Initialized;
    ServerInitialized(s, env);
    ServerRuns.OnMessageAppends(s.server, s.posted[|s.server.messages|].message, env.handlers);
  }

  lemma ServerInitialized(s: System, env: Env)
    requires Inv(s, env)
    ensures s.server.initialized == Server.Initialized(s.server.messages)
  {
    hide IpcProofs.Inv, LinesPosted, OwnRepliesOnly, Server.Initialized, ServerProofs.Invariant;
    RepliesKnown(s.server);
  }

  lemma CompletionAddsReplies(s: System, content: seq<Value>, isError: bool, env: Env)
    requires Shaped(s) && Enabled(s, RunCompletion(content, isError), env)
    ensures s.server.replies <= Step(s, RunCompletion(content, isError), env).server.replies
  {
    hide Server.OnToolCallComplete;
    ServerRuns.CompleteAppends(s.server.(running := None), s.server.running.value, content, isError, env.handlers);
  }

  /** Only the main thread's two kinds of task add replies, and none of them removes one. */
  lemma RepliesStay(s: System, e: Event, env: Env)
    requires Shaped(s) && Enabled(s, e, env) && Inv(s, env)
    ensures s.server.replies <= Step(s, e, env).server.replies
  {
    hide Inv, Ipc.Step, Server.OnMessage, Server.HandlerCompletes, Serialize, Http.OnHttpRequest, Http.OnWebSocket,
         Http.SendMCPResponse, Ipc.Enabled;
    match e
    case RunMessage => MessageAddsReplies(s, env);
    case RunCompletion(content, isError) => CompletionAddsReplies(s, content, isError, env);
    case _ =>
  }

  predicate TouchesHttp(e: Event) {
    e.HttpConnect? || e.HttpRequest? || e.HttpWebSocket? || e.HttpClose? || e.HttpStop? || e.HttpRespond?
    || e.DeliverReply?
  }

  lemma HttpStepKeeps(s: System, e: Event, env: Env)
    requires Shaped(s) && Enabled(s, e, env) && Sound(s, env)
    ensures HttpProofs.HttpInv(Step(s, e, env), env)
  {
    hide Inv, HttpProofs.HttpInv, Enabled, Step;
    StepKeeps(s, e, env);
    InvShaped(Step(s, e, env), env);
    RepliesStay(s, e, env);
    if TouchesHttp(e) {
      OnHttpKeeps(s, e, env);
    } else {
      OutsideHttpKeeps(s, e, env);
    }
  }

  lemma OnHttpKeeps(s: System, e: Event, env: Env)
    requires Shaped(s) && Enabled(s, e, env) && HttpProofs.HttpInv(s, env)
    requires Shaped(Step(s, e, env)) && TouchesHttp(e)
    ensures HttpProofs.HttpInv(Step(s, e, env), env)
  {
    hide HttpProofs.HttpInv, Ipc.Step, Ipc.Shaped, Serialize, Deliver, Http.SendMCPResponse;
    match e
    case HttpConnect(c) => HttpProofs.ConnectKeeps(s, c, env);
    case HttpRequest(c, info) => RequestKeeps(s, c, info, env);
    case HttpWebSocket(c, info) => HttpProofs.RejectKeeps(s, Http.Request(c, info, true), 405, env);
    case HttpClose(c) => HttpProofs.CloseKeeps(s, s.http.open - {c}, env);
    case HttpStop => HttpProofs.CloseKeeps(s, {}, env);
    case HttpRespond => HttpProofs.RespondKeeps(s, env);
    case DeliverReply(outcomes) => HttpProofs.DeliverKeeps(s, outcomes, env);
  }

  lemma RequestKeeps(s: System, c: int, info: Http.RequestInfo, env: Env)
    requires Shaped(s) && Enabled(s, HttpRequest(c, info), env) && HttpProofs.HttpInv(s, env)
    ensures HttpProofs.HttpInv(Step(s, HttpRequest(c, info), env), env)
  {
    hide HttpProofs.HttpInv, Http.Judge, Http.RejectionBody;
    var r := Http.Request(c, info, false);
    match HttpProofs.VerdictOf(r, s.http.token, env.read)
    case Reject(status) => HttpProofs.RejectKeeps(s, r, status, env);
    case Forward(message) => HttpProofs.ForwardKeeps(s, r, message, env);
  }

  lemma OutsideHttpKeeps(s: System, e: Event, env: Env)
    requires Shaped(s) && Enabled(s, e, env) && HttpProofs.HttpInv(s, env)
    requires Shaped(Step(s, e, env)) && s.server.replies <= Step(s, e, env).server.replies
    requires e.IpcThread? || e.StdinLine? || e.RunMessage? || e.RunCompletion? || e.ControllerSet? || e.ToolRegistered?
             || e.StopIpc?
    ensures HttpProofs.HttpInv(Step(s, e, env), env)
  {
    hide HttpProofs.HttpInv, Ipc.Step, Server.OnMessage, Server.HandlerCompletes, ParseLine, Ipc.Shaped, Ipc.Enabled;
    var s' := Step(s, e, env);
    assert s'.server.replies[..s.sentCount] == s.server.replies[..s.sentCount];
    HttpProofs.ElsewhereKeeps(s, s', env);
  }

  lemma SoundStep(s: System, e: Event, env: Env)
    requires Shaped(s) && Enabled(s, e, env) && Sound(s, env)
    ensures Sound(Step(s, e, env), env)
  {
    StepKeeps(s, e, env);
    HttpStepKeeps(s, e, env);
    hide Inv, HttpProofs.HttpInv, Step;
  }

  // ---------- Runs ----------

  /** Every event is enabled when its turn comes. States of runs are always well formed: see AfterSound. */
  predicate Possible(s: System, events: seq<Event>, env: Env)
    decreases |events|
  {
    events == [] ||
    (Shaped(s) && Enabled(s, events[0], env) && Possible(Step(s, events[0], env), events[1..], env))
  }

  function After(s: System, events: seq<Event>, env: Env): System
    requires Possible(s, events, env)
    decreases |events|
  {
    if events == [] then s else After(Step(s, events[0], env), events[1..], env)
  }

  lemma {:induction false} AfterSound(s: System, events: seq<Event>, env: Env)
    requires Possible(s, events, env) && Sound(s, env)
    ensures Shaped(After(s, events, env)) && Sound(After(s, events, env), env)
    decreases |events|
  {
    hide Sound, Shaped, Enabled, Step;
    if events == [] {
      SoundShaped(s, env);
    } else {
      SoundStep(s, events[0], env);
      AfterSound(Step(s, events[0], env), events[1..], env);
    }
  }

  /** `s` is reached from the start by some run. */
  ghost predicate Reachable(s: System, listenerFd: int, token: string, env: Env) {
    exists events: seq<Event> ::
      Possible(Started(listenerFd, token), events, env) && After(Started(listenerFd, token), events, env) == s
  }

  lemma ReachableSound(s: System, listenerFd: int, token: string, env: Env)
    requires listenerFd >= 0 && Reachable(s, listenerFd, token, env)
    ensures Shaped(s) && Sound(s, env)
  {
    hide Sound, Shaped, Possible, After;
    var events: seq<Event> :| Possible(Started(listenerFd, token), events, env) &&
                              After(Started(listenerFd, token), events, env) == s;
    StartedSound(listenerFd, token, env);
    AfterSound(Started(listenerFd, token), events, env);
  }

  lemma SoundShaped(s: System, env: Env)
    requires Sound(s, env)
    ensures Shaped(s)
  {
  }
}
