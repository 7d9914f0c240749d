/** What every interleaving of the whole server keeps. */
module McpSystemProofs {
  import opened Wrappers
  import opened Values
  import opened Framing
  import opened McpSystem
  import IpcTransport
  import Ipc = IpcMachine
  import IpcProofs
  import Http = HttpTransport
  import Server = McpServer
  import ServerProofs = McpServerProofs
  import ServerRuns = McpServerRuns

  // ---------- Sequences picked out of the histories ----------

  predicate KnownReplies(replies: seq<Server.Reply>, posted: seq<Posted>) {
    forall i :: 0 <= i < |replies| ==> replies[i].callback < |posted|
  }

  predicate GoesTo(reply: Server.Reply, posted: seq<Posted>, to: Origin, env: Env)
    requires reply.callback < |posted|
  {
    posted[reply.callback].origin == to && Serialize(reply.response, env).Some?
  }

  /** The serialized replies to the requests of one origin, in the order they are sent. */
  function Outgoing(replies: seq<Server.Reply>, posted: seq<Posted>, to: Origin, env: Env): seq<string>
    requires KnownReplies(replies, posted)
  {
    if replies == [] then []
    else
      var n := |replies| - 1;
      Outgoing(replies[..n], posted, to, env) +
      if GoesTo(replies[n], posted, to, env) then [Serialize(replies[n].response, env).value] else []
  }

  /** The messages posted by one origin, in order. */
  function PostedBy(posted: seq<Posted>, origin: Origin): seq<Dictionary> {
    if posted == [] then []
    else
      var n := |posted| - 1;
      PostedBy(posted[..n], origin) + if posted[n].origin == origin then [posted[n].message] else []
  }

  /** The messages in a sequence of lines: the lines that parse. */
  function ParseAll(lines: seq<string>, env: Env): seq<Dictionary> {
    if lines == [] then []
    else
      var n := |lines| - 1;
      ParseAll(lines[..n], env) + ToSeq(ParseLine(lines[n], env))
  }

  lemma OutgoingSnoc(replies: seq<Server.Reply>, reply: Server.Reply, posted: seq<Posted>, to: Origin, env: Env)
    requires KnownReplies(replies, posted) && reply.callback < |posted|
    ensures KnownReplies(replies + [reply], posted)
    ensures Outgoing(replies + [reply], posted, to, env) ==
              Outgoing(replies, posted, to, env) +
              if GoesTo(reply, posted, to, env) then [Serialize(reply.response, env).value] else []
  {
    assert (replies + [reply])[..|replies|] == replies;
  }

  lemma {:induction false} OutgoingExtends(replies: seq<Server.Reply>, posted: seq<Posted>, p: Posted, to: Origin,
          env: Env)
    requires KnownReplies(replies, posted)
    ensures KnownReplies(replies, posted + [p])
    ensures Outgoing(replies, posted + [p], to, env) == Outgoing(replies, posted, to, env)
  {
    if replies != [] {
      OutgoingExtends(replies[..|replies| - 1], posted, p, to, env);
    }
  }

  lemma {:induction false} OutgoingNothing(replies: seq<Server.Reply>, posted: seq<Posted>, to: Origin, env: Env)
    requires KnownReplies(replies, posted)
    requires forall i :: 0 <= i < |posted| ==> posted[i].origin != to
    ensures Outgoing(replies, posted, to, env) == []
  {
    if replies != [] {
      OutgoingNothing(replies[..|replies| - 1], posted, to, env);
    }
  }

  lemma {:induction false} OutgoingOneLine(replies: seq<Server.Reply>, posted: seq<Posted>, to: Origin, env: Env)
    requires KnownReplies(replies, posted) && WritesOneLine(env)
    ensures AllOneLine(Outgoing(replies, posted, to, env))
  {
    if replies != [] {
      OutgoingOneLine(replies[..|replies| - 1], posted, to, env);
    }
  }

  lemma PostedBySnoc(posted: seq<Posted>, p: Posted, origin: Origin)
    ensures PostedBy(posted + [p], origin) ==
              PostedBy(posted, origin) + if p.origin == origin then [p.message] else []
  {
    assert (posted + [p])[..|posted|] == posted;
  }

  lemma {:induction false} PostedByNobody(posted: seq<Posted>, origin: Origin)
    requires forall i :: 0 <= i < |posted| ==> posted[i].origin != origin
    ensures PostedBy(posted, origin) == []
  {
    if posted != [] {
      PostedByNobody(posted[..|posted| - 1], origin);
    }
  }

  lemma ParseAllSnoc(lines: seq<string>, line: string, env: Env)
    ensures ParseAll(lines + [line], env) == ParseAll(lines, env) + ToSeq(ParseLine(line, env))
  {
    assert (lines + [line])[..|lines|] == lines;
  }

  // ---------- The invariant ----------

  /** The server has received a prefix of what was posted. */
  predicate Mirrors(s: System) {
    && |s.server.messages| <= |s.posted|
    && forall i :: 0 <= i < |s.server.messages| ==> s.server.messages[i] == s.posted[i].message
  }

  predicate OriginsKnown(s: System) {
    forall i :: 0 <= i < |s.posted| && s.posted[i].origin.FromIpc? ==>
      1 <= s.posted[i].origin.clientGeneration <= s.ipc.shared.generation
  }

  /** Each generation's posted messages are those of its dispatched lines, in line order. */
  predicate LinesPosted(s: System, env: Env)
    requires Shaped(s)
  {
    forall i: nat :: i < s.ipc.shared.generation ==>
      PostedBy(s.posted, FromIpc(i + 1)) == ParseAll(s.ipc.dispatched[i], env)
  }

  /** The replies handed to one origin's transport so far. */
  function SentTo(s: System, to: Origin, env: Env): seq<string>
    requires Shaped(s)
  {
    Outgoing(s.server.replies[..s.sentCount], s.posted, to, env)
  }

  /**
   The client of generation i + 1 has been sent a prefix of the joined replies to its own requests,
   and all of them while it is connected.
   */
  predicate OwnReplies(s: System, i: nat, env: Env)
    requires Shaped(s) && IpcProofs.InstalledInOrder(s.ipc) && i < s.ipc.shared.generation
  {
    var replies := Join(SentTo(s, FromIpc(i + 1), env));
    var sent := IpcProofs.ConnectionAt(s.ipc, i).sent;
    sent <= replies && (IpcProofs.Live(s.ipc, i + 1) ==> sent == replies)
  }

  predicate OwnRepliesOnly(s: System, env: Env)
    requires Shaped(s) && IpcProofs.InstalledInOrder(s.ipc)
  {
    forall i: nat :: i < s.ipc.shared.generation ==> OwnReplies(s, i, env)
  }

  ghost predicate Inv(s: System, env: Env) {
    && Shaped(s)
    && IpcProofs.Inv(s.ipc)
    && ServerProofs.Invariant(s.server)
    && Mirrors(s) && OriginsKnown(s)
    && LinesPosted(s, env)
    && OwnRepliesOnly(s, env)
    && s.stdout == Join(SentTo(s, FromStdio, env))
  }

  lemma StartedInv(listenerFd: int, token: string, env: Env)
    requires listenerFd >= 0
    ensures Inv(Started(listenerFd, token), env)
  {
    IpcProofs.StartedInv(listenerFd);
    ServerProofs.InitialInvariant();
  }

  lemma InvInOrder(ipc: Ipc.Ipc)
    requires IpcProofs.Inv(ipc)
    ensures Ipc.Shaped(ipc) && IpcProofs.InstalledInOrder(ipc)
  {
  }

  lemma OwnUnchanged(s: System, s': System, i: nat, env: Env)
    requires Shaped(s) && Shaped(s') && IpcProofs.InstalledInOrder(s.ipc) && IpcProofs.InstalledInOrder(s'.ipc)
    requires i < s.ipc.shared.generation <= s'.ipc.shared.generation && OwnReplies(s, i, env)
    requires SentTo(s', FromIpc(i + 1), env) == SentTo(s, FromIpc(i + 1), env)
    requires IpcProofs.ConnectionAt(s'.ipc, i).sent == IpcProofs.ConnectionAt(s.ipc, i).sent
    requires IpcProofs.Live(s'.ipc, i + 1) ==> IpcProofs.Live(s.ipc, i + 1)
    ensures OwnReplies(s', i, env)
  {
  }

  /** Nothing was sent to a client, and no generation came back to life. */
  predicate NothingSent(s: System, s': System)
    requires Shaped(s) && Shaped(s') && IpcProofs.InstalledInOrder(s.ipc) && IpcProofs.InstalledInOrder(s'.ipc)
  {
    && s.ipc.shared.generation <= s'.ipc.shared.generation
    && (forall i: nat :: i < s.ipc.shared.generation ==>
          IpcProofs.ConnectionAt(s'.ipc, i).sent == IpcProofs.ConnectionAt(s.ipc, i).sent)
    && (forall g: nat :: 1 <= g <= s.ipc.shared.generation && IpcProofs.Live(s'.ipc, g) ==> IpcProofs.Live(s.ipc, g))
  }

  lemma OwnAllUnchanged(s: System, s': System, env: Env)
    requires Shaped(s) && Shaped(s') && IpcProofs.InstalledInOrder(s.ipc) && IpcProofs.InstalledInOrder(s'.ipc)
    requires OwnRepliesOnly(s, env) && NothingSent(s, s')
    requires forall to: Origin :: to.FromIpc? ==> SentTo(s', to, env) == SentTo(s, to, env)
    ensures forall i: nat :: i < s.ipc.shared.generation ==> OwnReplies(s', i, env)
  {
    hide SentTo, OwnReplies, IpcProofs.Live;
    forall i: nat | i < s.ipc.shared.generation
      ensures OwnReplies(s', i, env)
    {
      assert OwnReplies(s, i, env);
      OwnUnchanged(s, s', i, env);
    }
  }

  // ---------- Steps of the IPC thread ----------

  /** Nothing was sent, no generation came back to life, and a new one starts with nothing sent. */
  predicate Quiet(ipc: Ipc.Ipc, ipc': Ipc.Ipc)
    requires Ipc.Shaped(ipc) && Ipc.Shaped(ipc')
    requires IpcProofs.InstalledInOrder(ipc) && IpcProofs.InstalledInOrder(ipc')
  {
    && ipc.shared.generation <= ipc'.shared.generation <= ipc.shared.generation + 1
    && (forall i: nat :: i < ipc.shared.generation ==>
          IpcProofs.ConnectionAt(ipc', i).sent == IpcProofs.ConnectionAt(ipc, i).sent)
    && (forall g: nat :: 1 <= g <= ipc.shared.generation && IpcProofs.Live(ipc', g) ==> IpcProofs.Live(ipc, g))
    && (ipc'.shared.generation > ipc.shared.generation ==>
          IpcProofs.ConnectionAt(ipc', ipc.shared.generation).sent == "")
  }

  lemma InstallIsQuiet(ipc: Ipc.Ipc)
    requires IpcProofs.Inv(ipc) && Ipc.Enabled(ipc, Ipc.InstallOrRefuse)
    requires IpcProofs.InstalledInOrder(Ipc.Step(ipc, Ipc.InstallOrRefuse))
    ensures Quiet(ipc, Ipc.Step(ipc, Ipc.InstallOrRefuse))
  {
    hide IpcProofs.Framed, IpcProofs.HeardIsReceived, IpcProofs.ClosedOnce;
  }

  lemma ReceiveIsQuiet(ipc: Ipc.Ipc, chunk: string)
    requires IpcProofs.Inv(ipc) && Ipc.Enabled(ipc, Ipc.ReceiveReturns(chunk))
    requires IpcProofs.InstalledInOrder(Ipc.Step(ipc, Ipc.ReceiveReturns(chunk)))
    ensures Quiet(ipc, Ipc.Step(ipc, Ipc.ReceiveReturns(chunk)))
  {
    hide IpcProofs.Framed, IpcProofs.HeardIsReceived, IpcProofs.OthersSilent, IpcProofs.Descriptors;
  }

  lemma AcceptIsQuiet(ipc: Ipc.Ipc, fd: int)
    requires Ipc.Shaped(ipc) && Ipc.Enabled(ipc, Ipc.AcceptReturns(fd))
    requires IpcProofs.InstalledInOrder(ipc) && IpcProofs.InstalledInOrder(Ipc.Step(ipc, Ipc.AcceptReturns(fd)))
    ensures Quiet(ipc, Ipc.Step(ipc, Ipc.AcceptReturns(fd)))
  {
  }

  lemma LocalIsQuiet(ipc: Ipc.Ipc, e: Ipc.Event)
    requires Ipc.Shaped(ipc) && Ipc.Enabled(ipc, e) && IpcProofs.LocalEvent(e)
    requires IpcProofs.InstalledInOrder(ipc) && IpcProofs.InstalledInOrder(Ipc.Step(ipc, e))
    ensures Quiet(ipc, Ipc.Step(ipc, e))
  {
  }

  /** A step of the IPC thread, or a stop, sends nothing and revives no generation. */
  lemma IpcStepSendsNothing(ipc: Ipc.Ipc, e: Ipc.Event)
    requires IpcProofs.Inv(ipc) && Ipc.Enabled(ipc, e) && !e.Send?
    ensures IpcProofs.InstalledInOrder(ipc) && IpcProofs.InstalledInOrder(Ipc.Step(ipc, e))
    ensures Quiet(ipc, Ipc.Step(ipc, e))
  {
    IpcProofs.StepKeepsDescriptors(ipc, e);
    hide IpcProofs.Framed, IpcProofs.HeardIsReceived, IpcProofs.OthersSilent, IpcProofs.TableExact,
         IpcProofs.ClosedOnce, IpcProofs.Locals, Ipc.Step, Ipc.Enabled, IpcProofs.InstalledInOrder, IpcProofs.Live;
    if e.InstallOrRefuse? {
      InstallIsQuiet(ipc);
    } else if e.ReceiveReturns? {
      ReceiveIsQuiet(ipc, e.chunk);
    } else if IpcProofs.LocalEvent(e) {
      LocalIsQuiet(ipc, e);
    } else if e.AcceptReturns? {
      AcceptIsQuiet(ipc, e.fd);
    } else {
      IpcProofs.CloseStepsOnlyClose(ipc, e);
      ClosingIsQuiet(ipc, Ipc.Step(ipc, e));
    }
  }

  lemma ClosingIsQuiet(ipc: Ipc.Ipc, ipc': Ipc.Ipc)
    requires Ipc.Shaped(ipc) && Ipc.Shaped(ipc') && IpcProofs.OnlyCloses(ipc, ipc')
    requires IpcProofs.InstalledInOrder(ipc) && IpcProofs.InstalledInOrder(ipc')
    ensures Quiet(ipc, ipc')
  {
  }

  /** The connection got the first n bytes more, and all of them unless its generation ended. */
  predicate SentPart(ipc: Ipc.Ipc, ipc': Ipc.Ipc, i: nat, bytes: string, n: nat)
    requires IpcProofs.InstalledInOrder(ipc) && IpcProofs.InstalledInOrder(ipc')
    requires i < |ipc.installed| && i < |ipc'.installed|
  {
    && n <= |bytes|
    && IpcProofs.ConnectionAt(ipc', i).sent == IpcProofs.ConnectionAt(ipc, i).sent + bytes[..n]
    && (n == |bytes| || !IpcProofs.Live(ipc', i + 1))
  }

  ghost predicate PartlySent(ipc: Ipc.Ipc, ipc': Ipc.Ipc, i: nat, bytes: string)
    requires IpcProofs.InstalledInOrder(ipc) && IpcProofs.InstalledInOrder(ipc')
    requires i < |ipc.installed| && i < |ipc'.installed|
  {
    exists n: nat :: SentPart(ipc, ipc', i, bytes, n)
  }

  /** A send reaches only the connection of its generation, whole unless it closes it. */
  lemma IpcSendEffect(ipc: Ipc.Ipc, g: nat, bytes: string, outcomes: seq<IpcTransport.SendReturn>)
    requires IpcProofs.Inv(ipc) && IpcTransport.Decides(|bytes|, outcomes)
    ensures var ipc' := Ipc.Step(ipc, Ipc.Send(g, bytes, outcomes));
            && IpcProofs.InstalledInOrder(ipc')
            && ipc'.shared.generation == ipc.shared.generation
            && ipc'.dispatched == ipc.dispatched
            && (forall i: nat :: i < ipc.shared.generation && !(IpcProofs.Live(ipc, i + 1) && i + 1 == g) ==>
                  IpcProofs.ConnectionAt(ipc', i).sent == IpcProofs.ConnectionAt(ipc, i).sent)
            && (forall h: nat :: 1 <= h <= ipc.shared.generation && IpcProofs.Live(ipc', h) ==> IpcProofs.Live(ipc, h))
            && (IpcProofs.Live(ipc, g) ==> g >= 1 && PartlySent(ipc, ipc', g - 1, bytes))
  {
    hide IpcProofs.Framed, IpcProofs.HeardIsReceived, IpcProofs.ClosedOnce, IpcTransport.Transmitted;
    if IpcProofs.Live(ipc, g) {
      var n := IpcTransport.Transmitted(|bytes|, outcomes);
      var ipc' := Ipc.Step(ipc, Ipc.Send(g, bytes, outcomes));
      assert SentPart(ipc, ipc', g - 1, bytes, n);
    }
  }

  /** How a step of the IPC thread changes the record of dispatched lines. */
  lemma IpcStepDispatches(ipc: Ipc.Ipc, e: Ipc.Event)
    requires IpcProofs.Inv(ipc) && Ipc.Enabled(ipc, e) && !e.Send?
    ensures var ipc' := Ipc.Step(ipc, e);
            if e.SplitLine? then
              && ipc'.shared == ipc.shared
              && ipc.pc.clientGeneration == ipc.shared.generation
              && ipc'.dispatched == ipc.dispatched[ipc.pc.clientGeneration - 1 :=
                   ipc.dispatched[ipc.pc.clientGeneration - 1] + [StripCR(ipc.buffer[..FindNewline(ipc.buffer)])]]
            else if ipc'.shared.generation > ipc.shared.generation then ipc'.dispatched == ipc.dispatched + [[]]
            else ipc'.dispatched == ipc.dispatched
  {
    IpcProofs.PcGeneration(ipc);
    hide IpcProofs.Framed, IpcProofs.HeardIsReceived, IpcProofs.Descriptors, StripCR, FindNewline;
  }

  lemma QuietIpcStepKeeps(s: System, e: Ipc.Event, env: Env)
    requires Inv(s, env) && Ipc.Enabled(s.ipc, e) && !e.Send? && !e.SplitLine?
    ensures Inv(s.(ipc := Ipc.Step(s.ipc, e)), env)
  {
    hide IpcProofs.Inv, ServerProofs.Invariant, Outgoing, PostedBy, ParseAll, Join, Ipc.Step, IpcProofs.Live;
    IpcProofs.StepKeeps(s.ipc, e);
    IpcStepSendsNothing(s.ipc, e);
    IpcStepDispatches(s.ipc, e);
    var s' := s.(ipc := Ipc.Step(s.ipc, e));
    var n := s.ipc.shared.generation;
    if s'.ipc.shared.generation > n {
      assert forall i :: 0 <= i < |s.posted| ==> s.posted[i].origin != FromIpc(n + 1);
      PostedByNobody(s.posted, FromIpc(n + 1));
      OutgoingNothing(s.server.replies[..s.sentCount], s.posted, FromIpc(n + 1), env);
      assert ParseAll([], env) == [] by { ParseNothing(env); }
      assert Join([]) == "" by { JoinNothing(); }
    }
    InvInOrder(s.ipc);
    assert forall to :: SentTo(s', to, env) == SentTo(s, to, env);
    OwnAllUnchanged(s, s', env);
    assert OwnRepliesOnly(s', env);
    assert LinesPosted(s', env);
  }

  lemma ParseNothing(env: Env)
    ensures ParseAll([], env) == []
  {
  }

  /** Posting a message disturbs no reply already sent. */
  lemma PostKeepsSent(s: System, p: Posted, to: Origin, env: Env)
    requires Shaped(s)
    ensures Shaped(s.(posted := s.posted + [p]))
    ensures SentTo(s.(posted := s.posted + [p]), to, env) == SentTo(s, to, env)
  {
    OutgoingExtends(s.server.replies[..s.sentCount], s.posted, p, to, env);
  }

  lemma SplitLineKeeps(s: System, env: Env)
    requires Inv(s, env) && Ipc.Enabled(s.ipc, Ipc.SplitLine)
    ensures Inv(Step(s, IpcThread(Ipc.SplitLine), env), env)
  {
    hide IpcProofs.Inv, ServerProofs.Invariant, Outgoing, PostedBy, ParseAll, Join, Ipc.Step, IpcProofs.Live,
         StripCR, FindNewline, OneLine, ParseLine;
    IpcProofs.StepKeeps(s.ipc, Ipc.SplitLine);
    IpcStepSendsNothing(s.ipc, Ipc.SplitLine);
    IpcStepDispatches(s.ipc, Ipc.SplitLine);
    var g := s.ipc.pc.clientGeneration;
    var line := StripCR(s.ipc.buffer[..FindNewline(s.ipc.buffer)]);
    var message := ParseLine(line, env);
    var s' := Step(s, IpcThread(Ipc.SplitLine), env);
    ParseAllSnoc(s.ipc.dispatched[g - 1], line, env);
    InvInOrder(s.ipc);
    assert NothingSent(s, s');
    if message.Some? {
      var p := Posted(FromIpc(g), message.value);
      assert s'.posted == s.posted + [p];
      forall to ensures SentTo(s', to, env) == SentTo(s, to, env) {
        PostKeepsSent(s, p, to, env);
      }
      forall i: nat | i < s.ipc.shared.generation
        ensures PostedBy(s'.posted, FromIpc(i + 1)) == ParseAll(s'.ipc.dispatched[i], env)
      {
        PostedBySnoc(s.posted, p, FromIpc(i + 1));
      }
    } else {
      assert PostedBy(s.posted, FromIpc(g)) + [] == PostedBy(s.posted, FromIpc(g));
      assert forall to :: SentTo(s', to, env) == SentTo(s, to, env);
    }
    OwnAllUnchanged(s, s', env);
  }

  /** A message posted by another front end. */
  lemma ForeignPostKeeps(s: System, p: Posted, env: Env)
    requires Inv(s, env) && !p.origin.FromIpc?
    ensures Inv(s.(posted := s.posted + [p]), env)
  {
    hide IpcProofs.Inv, ServerProofs.Invariant, Outgoing, PostedBy, ParseAll, Join, IpcProofs.Live;
    var s' := s.(posted := s.posted + [p]);
    forall to ensures SentTo(s', to, env) == SentTo(s, to, env) {
      PostKeepsSent(s, p, to, env);
    }
    forall origin: Origin | origin.FromIpc?
      ensures PostedBy(s'.posted, origin) == PostedBy(s.posted, origin)
    {
      PostedBySnoc(s.posted, p, origin);
    }
    InvInOrder(s.ipc);
    assert NothingSent(s, s');
    OwnAllUnchanged(s, s', env);
  }

  // ---------- Steps of the main thread ----------

  /** A step of the server alone: replies are appended, and none is sent yet. */
  lemma ServerStepKeeps(s: System, server: Server.Server, env: Env)
    requires Inv(s, env) && ServerProofs.Invariant(server)
    requires s.server.replies <= server.replies
    requires Mirrors(s.(server := server))
    ensures Inv(s.(server := server), env)
  {
    hide IpcProofs.Inv, Outgoing, PostedBy, ParseAll, Join, IpcProofs.Live, ServerProofs.Conforming,
         ServerProofs.AllMatch, ServerProofs.Counted, ServerProofs.Ordered, Server.Initialized;
    var s' := s.(server := server);
    RepliesKnown(server);
    assert server.replies[..s.sentCount] == s.server.replies[..s.sentCount];
    assert forall to :: SentTo(s', to, env) == SentTo(s, to, env);
    InvInOrder(s.ipc);
    assert NothingSent(s, s');
    OwnAllUnchanged(s, s', env);
  }

  lemma RepliesKnown(server: Server.Server)
    requires ServerProofs.Invariant(server)
    ensures forall i :: 0 <= i < |server.replies| ==> server.replies[i].callback < |server.messages|
    ensures server.initialized == Server.Initialized(server.messages)
  {
  }

  lemma RunMessageKeeps(s: System, env: Env)
    requires Inv(s, env) && |s.server.messages| < |s.posted|
    ensures Inv(s.(server := Server.OnMessage(s.server, s.posted[|s.server.messages|].message, env.handlers)), env)
  {
    hide Server.OnMessage, ServerProofs.Invariant, IpcProofs.Inv, LinesPosted, OwnRepliesOnly, Server.Initialized,
         Outgoing, Join, OriginsKnown;
    var message := s.posted[|s.server.messages|].message;
    var server := Server.OnMessage(s.server, message, env.handlers);
    RepliesKnown(s.server);
    ServerProofs.OnMessageKeeps(s.server, message, env.handlers);
    ServerRuns.OnMessageAppends(s.server, message, env.handlers);
    assert Mirrors(s.(server := server));
    ServerStepKeeps(s, server, env);
  }

  lemma RunCompletionKeeps(s: System, content: seq<Value>, isError: bool, env: Env)
    requires Inv(s, env) && s.server.running.Some?
    ensures Inv(s.(server := Server.HandlerCompletes(s.server, content, isError, env.handlers)), env)
  {
    hide ServerProofs.Invariant, IpcProofs.Inv, LinesPosted, OwnRepliesOnly, Server.OnToolCallComplete;
    ServerProofs.HandlerCompletesKeeps(s.server, content, isError, env.handlers);
    ServerRuns.CompleteAppends(s.server.(running := None), s.server.running.value, content, isError, env.handlers);
    ServerStepKeeps(s, Server.HandlerCompletes(s.server, content, isError, env.handlers), env);
  }

  lemma SettingKeeps(s: System, server: Server.Server, env: Env)
    requires Inv(s, env)
    requires server == s.server.(hasController := server.hasController, tools := server.tools)
    ensures Inv(s.(server := server), env)
  {
    hide IpcProofs.Inv, LinesPosted, OwnRepliesOnly, ServerProofs.Balanced;
    ServerProofs.SameAccount(s.server, [], server, []);
    ServerStepKeeps(s, server, env);
  }

  // ---------- Delivering one reply ----------

  lemma SentToSnoc(s: System, s': System, to: Origin, env: Env)
    requires Shaped(s) && Shaped(s') && s.sentCount < |s.server.replies|
    requires s'.server == s.server && s'.posted == s.posted && s'.sentCount == s.sentCount + 1
    ensures SentTo(s', to, env) ==
              if GoesTo(NextReply(s), s.posted, to, env)
              then SentTo(s, to, env) + [Serialize(NextReply(s).response, env).value]
              else SentTo(s, to, env)
  {
    assert s.server.replies[..s.sentCount + 1] == s.server.replies[..s.sentCount] + [NextReply(s)];
    OutgoingSnoc(s.server.replies[..s.sentCount], NextReply(s), s.posted, to, env);
  }

  lemma JoinSnoc(lines: seq<string>, line: string)
    ensures Join(lines + [line]) == Join(lines) + (line + "\n")
  {
    JoinConcat(lines, [line]);
    JoinCons(line, []);
    JoinNothing();
    assert [line] + [] == [line];
    assert line + "\n" + "" == line + "\n";
  }

  lemma OwnGrows(s: System, s': System, i: nat, bytes: string, env: Env)
    requires Shaped(s) && Shaped(s') && IpcProofs.InstalledInOrder(s.ipc) && IpcProofs.InstalledInOrder(s'.ipc)
    requires i < s.ipc.shared.generation == s'.ipc.shared.generation && OwnReplies(s, i, env)
    requires Join(SentTo(s', FromIpc(i + 1), env)) == Join(SentTo(s, FromIpc(i + 1), env)) + bytes
    requires IpcProofs.Live(s'.ipc, i + 1) ==> IpcProofs.Live(s.ipc, i + 1)
    requires !IpcProofs.Live(s.ipc, i + 1) ==>
               IpcProofs.ConnectionAt(s'.ipc, i).sent == IpcProofs.ConnectionAt(s.ipc, i).sent
    requires IpcProofs.Live(s.ipc, i + 1) ==> PartlySent(s.ipc, s'.ipc, i, bytes)
    ensures OwnReplies(s', i, env)
  {
    hide IpcProofs.Live, Join, Outgoing;
    if IpcProofs.Live(s.ipc, i + 1) {
      var n: nat :| SentPart(s.ipc, s'.ipc, i, bytes, n);
      if n == |bytes| {
        assert bytes[..n] == bytes;
      }
    }
  }

  lemma SettledReply(s: System, s': System, env: Env)
    requires Inv(s, env) && s.sentCount < |s.server.replies|
    requires !NextOrigin(s).FromIpc? || Serialize(NextReply(s).response, env).None?
    requires s' == s.(sentCount := s.sentCount + 1, http := s'.http, stdout := s'.stdout)
    ensures Shaped(s') && OwnRepliesOnly(s', env) && LinesPosted(s', env)
  {
    hide IpcProofs.Inv, ServerProofs.Invariant, Outgoing, PostedBy, ParseAll, Serialize, OwnReplies;
    InvInOrder(s.ipc);
    forall to: Origin | to.FromIpc? ensures SentTo(s', to, env) == SentTo(s, to, env) {
      SentToSnoc(s, s', to, env);
    }
    assert NothingSent(s, s');
    OwnAllUnchanged(s, s', env);
  }

  lemma DeliverHttpKeeps(s: System, http: Http.Transport, env: Env)
    requires Inv(s, env) && s.sentCount < |s.server.replies|
    requires !NextOrigin(s).FromStdio? && (NextOrigin(s).FromIpc? ==> Serialize(NextReply(s).response, env).None?)
    ensures Inv(s.(sentCount := s.sentCount + 1, http := http), env)
  {
    hide IpcProofs.Inv, ServerProofs.Invariant, Outgoing, LinesPosted, OwnRepliesOnly, Serialize, Join;
    InvInOrder(s.ipc);
    var s' := s.(sentCount := s.sentCount + 1, http := http);
    SettledReply(s, s', env);
    SentToSnoc(s, s', FromStdio, env);
  }

  lemma DeliverStdioKeeps(s: System, env: Env)
    requires Inv(s, env) && s.sentCount < |s.server.replies| && NextOrigin(s).FromStdio?
    ensures var json := Serialize(NextReply(s).response, env);
            Inv(s.(sentCount := s.sentCount + 1,
                   stdout := if json.None? then s.stdout else s.stdout + json.value + "\n"), env)
  {
    hide IpcProofs.Inv, ServerProofs.Invariant, Outgoing, LinesPosted, OwnRepliesOnly, Serialize, Join;
    var json := Serialize(NextReply(s).response, env);
    var s' := s.(sentCount := s.sentCount + 1,
                 stdout := if json.None? then s.stdout else s.stdout + json.value + "\n");
    InvInOrder(s.ipc);
    SettledReply(s, s', env);
    SentToSnoc(s, s', FromStdio, env);
    if json.Some? {
      JoinSnoc(SentTo(s, FromStdio, env), json.value);
      assert s'.stdout == s.stdout + (json.value + "\n");
    }
  }

  lemma DeliverIpcKeeps(s: System, s': System, g: nat, json: string, outcomes: seq<IpcTransport.SendReturn>, env: Env)
    requires Shaped(s) && s.sentCount < |s.server.replies|
    requires NextOrigin(s) == FromIpc(g) && Serialize(NextReply(s).response, env) == Some(json)
    requires IpcTransport.Decides(|json + "\n"|, outcomes)
    requires s' == s.(sentCount := s.sentCount + 1, ipc := Ipc.Step(s.ipc, Ipc.Send(g, json + "\n", outcomes)))
    requires Inv(s, env)
    ensures Inv(s', env)
  {
    hide IpcProofs.Inv, ServerProofs.Invariant, OwnRepliesOnly, LinesPosted, SentTo, Join, Serialize, Ipc.Step,
         IpcTransport.Decides, Mirrors;
    var bytes := json + "\n";
    assert IpcProofs.Inv(s'.ipc) by {
      InvInOrder(s.ipc);
      IpcProofs.StepKeeps(s.ipc, Ipc.Send(g, bytes, outcomes));
    }
    InvInOrder(s.ipc);
    InvInOrder(s'.ipc);
    IpcSendShape(s.ipc, g, bytes, outcomes);
    assert OwnRepliesOnly(s', env) by { DeliverIpcReplies(s, s', g, json, outcomes, env); }
    assert s'.stdout == Join(SentTo(s', FromStdio, env)) by { SentToSnoc(s, s', FromStdio, env); }
    assert LinesPosted(s', env) by { SameLines(s, s', env); }
    assert Mirrors(s') by { SameMirror(s, s'); }
  }

  lemma SameMirror(s: System, s': System)
    requires Mirrors(s) && s'.server == s.server && s'.posted == s.posted
    ensures Mirrors(s')
  {
  }

  lemma SameLines(s: System, s': System, env: Env)
    requires Shaped(s) && Shaped(s') && LinesPosted(s, env)
    requires s'.posted == s.posted && s'.ipc.dispatched == s.ipc.dispatched
    requires s'.ipc.shared.generation == s.ipc.shared.generation
    ensures LinesPosted(s', env)
  {
    hide PostedBy, ParseAll;
  }

  lemma IpcSendShape(ipc: Ipc.Ipc, g: nat, bytes: string, outcomes: seq<IpcTransport.SendReturn>)
    requires IpcProofs.Inv(ipc) && IpcTransport.Decides(|bytes|, outcomes)
    ensures var ipc' := Ipc.Step(ipc, Ipc.Send(g, bytes, outcomes));
            ipc'.shared.generation == ipc.shared.generation && ipc'.dispatched == ipc.dispatched
  {
    IpcSendEffect(ipc, g, bytes, outcomes);
  }

  lemma DeliverIpcReplies(s: System, s': System, g: nat, json: string, outcomes: seq<IpcTransport.SendReturn>, env: Env)
    requires Shaped(s) && Shaped(s') && IpcProofs.Inv(s.ipc) && IpcProofs.Inv(s'.ipc)
    requires OwnRepliesOnly(s, env)
    requires s.sentCount < |s.server.replies|
    requires NextOrigin(s) == FromIpc(g) && Serialize(NextReply(s).response, env) == Some(json)
    requires IpcTransport.Decides(|json + "\n"|, outcomes)
    requires s' == s.(sentCount := s.sentCount + 1, ipc := Ipc.Step(s.ipc, Ipc.Send(g, json + "\n", outcomes)))
    ensures OwnRepliesOnly(s', env)
  {
    hide IpcProofs.Inv, OwnReplies, Outgoing, Join, Serialize, SentTo, Ipc.Step, IpcProofs.Live, IpcTransport.Decides,
         PartlySent;
    var bytes := json + "\n";
    InvInOrder(s.ipc);
    InvInOrder(s'.ipc);
    IpcSendEffect(s.ipc, g, bytes, outcomes);
    JoinSnoc(SentTo(s, FromIpc(g), env), json);
    forall i: nat | i < s.ipc.shared.generation
      ensures OwnReplies(s', i, env)
    {
      assert OwnReplies(s, i, env);
      SentToSnoc(s, s', FromIpc(i + 1), env);
      if i + 1 == g {
        OwnGrows(s, s', i, bytes, env);
      } else {
        OwnUnchanged(s, s', i, env);
      }
    }
  }

  lemma DeliverFromIpcKeeps(s: System, outcomes: seq<IpcTransport.SendReturn>, env: Env)
    requires Shaped(s) && Deliverable(s, outcomes, env) && NextOrigin(s).FromIpc? && Inv(s, env)
    ensures Inv(Deliver(s, outcomes, env), env)
  {
    hide IpcProofs.Inv, ServerProofs.Invariant, LinesPosted, OwnRepliesOnly, Ipc.Step, Serialize, SentTo, Join;
    var json := Serialize(NextReply(s).response, env);
    if json.Some? {
      DeliverIpcKeeps(s, Deliver(s, outcomes, env), NextOrigin(s).clientGeneration, json.value, outcomes, env);
    } else {
      DeliverHttpKeeps(s, s.http, env);
    }
  }

  lemma DeliverElsewhereKeeps(s: System, outcomes: seq<IpcTransport.SendReturn>, env: Env)
    requires Shaped(s) && Deliverable(s, outcomes, env) && !NextOrigin(s).FromIpc? && Inv(s, env)
    ensures Inv(Deliver(s, outcomes, env), env)
  {
    hide IpcProofs.Inv, ServerProofs.Invariant, LinesPosted, OwnRepliesOnly, Serialize, SentTo, Join;
    if NextOrigin(s).FromHttp? {
      DeliverHttpKeeps(s, Deliver(s, outcomes, env).http, env);
    } else {
      DeliverStdioKeeps(s, env);
    }
  }

  lemma DeliverKeeps(s: System, outcomes: seq<IpcTransport.SendReturn>, env: Env)
    requires Shaped(s) && Deliverable(s, outcomes, env)
    requires Inv(s, env)
    ensures Inv(Deliver(s, outcomes, env), env)
  {
    assert s.sentCount < |s.server.replies|;
    hide *;
    if NextOrigin(s).FromIpc? {
      DeliverFromIpcKeeps(s, outcomes, env);
    } else {
      DeliverElsewhereKeeps(s, outcomes, env);
    }
  }

  lemma StepKeeps(s: System, e: Event, env: Env)
    requires Inv(s, env) && Enabled(s, e, env)
    ensures Inv(Step(s, e, env), env)
  {
    hide IpcProofs.Inv, ServerProofs.Invariant, LinesPosted, OwnRepliesOnly, Ipc.Step;
    match e
    case IpcThread(e) => if e.SplitLine? { SplitLineKeeps(s, env); } else { QuietIpcStepKeeps(s, e, env); }
    case StopIpc => QuietIpcStepKeeps(s, Ipc.StopRequested, env);
    case StdinLine(line) =>
      if ParseLine(line, env).Some? {
        ForeignPostKeeps(s, Posted(FromStdio, ParseLine(line, env).value), env);
      }
    case HttpRequest(c, info) => HttpRequestKeeps(s, c, info, env);
    case RunMessage => RunMessageKeeps(s, env);
    case RunCompletion(content, isError) => RunCompletionKeeps(s, content, isError, env);
    case ControllerSet(present) => SettingKeeps(s, s.server.(hasController := present), env);
    case ToolRegistered(tool) => SettingKeeps(s, s.server.(tools := s.server.tools + [tool]), env);
    case DeliverReply(outcomes) => DeliverKeeps(s, outcomes, env);
    case _ => HttpOnlyKeeps(s, Step(s, e, env).http, env);
  }

  lemma HttpOnlyKeeps(s: System, http: Http.Transport, env: Env)
    requires Inv(s, env)
    ensures Inv(s.(http := http), env)
  {
    hide IpcProofs.Inv, ServerProofs.Invariant, Outgoing, PostedBy, ParseAll, Join;
    var s' := s.(http := http);
    assert forall to :: SentTo(s', to, env) == SentTo(s, to, env);
    InvInOrder(s.ipc);
    assert NothingSent(s, s');
    OwnAllUnchanged(s, s', env);
  }

  lemma HttpRequestKeeps(s: System, c: int, info: Http.RequestInfo, env: Env)
    requires Inv(s, env)
    ensures var (http, message) := Http.OnHttpRequest(s.http, c, info, env.read);
            Inv(s.(http := http, posted := Post(s.posted, FromHttp(c, |s.http.requests|), message)), env)
  {
    hide IpcProofs.Inv, ServerProofs.Invariant, LinesPosted, OwnRepliesOnly, Http.OnHttpRequest, Outgoing;
    var (http, message) := Http.OnHttpRequest(s.http, c, info, env.read);
    HttpOnlyKeeps(s, http, env);
    if message.Some? {
      ForeignPostKeeps(s.(http := http), Posted(FromHttp(c, |s.http.requests|), message.value), env);
    }
  }
}
