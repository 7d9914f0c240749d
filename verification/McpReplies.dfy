/** What each line that a client received answers, and which of its requests have been answered. */
module McpReplies {
  import opened Wrappers
  import opened Framing
  import opened McpSystem
  import opened McpSystemProofs
  import opened McpSystemRuns
  import opened McpTheorems
  import opened McpCallOrder
  import HttpProofs = McpHttpProofs
  import IpcProofs
  import Server = McpServer
  import ServerProofs = McpServerProofs
  import ServerRuns = McpServerRuns

  /** The reply behind the i-th serialized reply to one origin. */
  lemma {:induction false} OutgoingFrom(replies: seq<Server.Reply>, posted: seq<Posted>, to: Origin, env: Env, i: nat)
    returns (a: nat)
    requires KnownReplies(replies, posted) && i < |Outgoing(replies, posted, to, env)|
    ensures a < |replies| && GoesTo(replies[a], posted, to, env)
    ensures Outgoing(replies, posted, to, env)[i] == Serialize(replies[a].response, env).value
    ensures OutgoingTokens(replies, posted, to, env)[i] == replies[a].callback
  {
    hide GoesTo, Serialize;
    var n := |replies| - 1;
    if i < |Outgoing(replies[..n], posted, to, env)| {
      a := OutgoingFrom(replies[..n], posted, to, env, i);
    } else {
      a := n;
    }
  }

  lemma ConformingReply(s: System, a: nat, listenerFd: int, token: string, env: Env)
    requires listenerFd >= 0 && Reachable(s, listenerFd, token, env) && a < |s.server.replies|
    ensures Shaped(s) && s.server.replies[a].callback < |s.server.messages| <= |s.posted|
    ensures s.server.messages[s.server.replies[a].callback] == s.posted[s.server.replies[a].callback].message
    ensures ServerProofs.Conforms(s.server.messages, s.server.replies[a])
  {
    hide ServerProofs.Conforms, ServerProofs.AllMatch, ServerProofs.Counted, ServerProofs.Ordered, IpcProofs.Inv,
         LinesPosted, OwnRepliesOnly, Reachable;
    ReachableSound(s, listenerFd, token, env);
    assert ServerProofs.Conforming(s.server);
  }

  /** The whole lines that the client of generation g received. */
  function LinesTo(s: System, g: nat): seq<string> {
    if IpcProofs.InstalledInOrder(s.ipc) && 1 <= g <= |s.ipc.installed| then
      RawLines(IpcProofs.ConnectionAt(s.ipc, g - 1).sent)
    else []
  }

  /**
   Every whole line that the client of generation g received is the serialization of a reply to a
   message of its own, and the reply is the one that the message deserves.
   */
  lemma LineMatches(s: System, g: nat, k: nat, listenerFd: int, token: string, env: Env) returns (a: nat)
    requires listenerFd >= 0 && Reachable(s, listenerFd, token, env) && WritesOneLine(env)
    requires k < |LinesTo(s, g)|
    ensures Shaped(s) && a < |s.server.replies|
    ensures s.server.replies[a].callback < |s.server.messages| <= |s.posted|
    ensures s.server.replies[a].response.Some?
    ensures env.write(s.server.replies[a].response.value) == Some(LinesTo(s, g)[k])
    ensures s.posted[s.server.replies[a].callback] ==
            Posted(FromIpc(g), s.server.messages[s.server.replies[a].callback])
    ensures ServerProofs.Conforms(s.server.messages, s.server.replies[a])
  {
    hide RawLines, Rest, Reachable, Outgoing, Serialize, ServerProofs.Conforms, IpcProofs.Live, IpcProofs.Inv;
    ReachableIpc(s, listenerFd, token, env);
    OwnRepliesWhole(s, g, listenerFd, token, env);
    var sent := s.server.replies[..s.sentCount];
    a := OutgoingFrom(sent, s.posted, FromIpc(g), env, k);
    assert sent[a] == s.server.replies[a];
    SerializedIsWritten(sent[a].response, env);
    ConformingReply(s, a, listenerFd, token, env);
  }

  lemma SerializedIsWritten(response: Option<Values.Dictionary>, env: Env)
    ensures Serialize(response, env).Some? <==> response.Some? && env.write(response.value).Some?
    ensures Serialize(response, env).Some? ==> env.write(response.value) == Serialize(response, env)
  {
  }

  /** The same for the lines of standard output and the messages read from standard input. */
  lemma StdoutLineMatches(s: System, k: nat, listenerFd: int, token: string, env: Env) returns (a: nat)
    requires listenerFd >= 0 && Reachable(s, listenerFd, token, env) && WritesOneLine(env)
    requires k < |RawLines(s.stdout)|
    ensures Shaped(s) && a < |s.server.replies|
    ensures s.server.replies[a].callback < |s.server.messages| <= |s.posted|
    ensures s.server.replies[a].response.Some?
    ensures env.write(s.server.replies[a].response.value) == Some(RawLines(s.stdout)[k])
    ensures s.posted[s.server.replies[a].callback] ==
            Posted(FromStdio, s.server.messages[s.server.replies[a].callback])
    ensures ServerProofs.Conforms(s.server.messages, s.server.replies[a])
  {
    hide RawLines, Rest, Reachable, Outgoing, Serialize, ServerProofs.Conforms, IpcProofs.Live, IpcProofs.Inv;
    StdoutIsStdioReplies(s, listenerFd, token, env);
    ReachableIpc(s, listenerFd, token, env);
    var sent := s.server.replies[..s.sentCount];
    a := OutgoingFrom(sent, s.posted, FromStdio, env, k);
    assert sent[a] == s.server.replies[a];
    SerializedIsWritten(sent[a].response, env);
    ConformingReply(s, a, listenerFd, token, env);
  }

  // ---------- Nothing left to do ----------

  /** Everything posted has been handled and every reply handed on; no handler is outstanding. */
  predicate Quiescent(s: System) {
    Idle(s) && |s.server.messages| == |s.posted| && s.server.running.None?
  }

  /** The message has been replied to, with a response that can be written. */
  predicate Answerable(s: System, t: nat, env: Env) {
    exists i :: 0 <= i < |s.server.replies| && s.server.replies[i].callback == t &&
      s.server.replies[i].response.Some? && env.write(s.server.replies[i].response.value).Some?
  }

  /** Each message of the origin with such a reply has exactly one line among its replies, and no other has one. */
  ghost predicate EachAnsweredOnce(tokens: seq<nat>, s: System, to: Origin, env: Env) {
    && (forall i, j :: 0 <= i < j < |tokens| ==> tokens[i] != tokens[j])
    && (forall t: nat :: t in tokens <==>
          t < |s.posted| && s.posted[t].origin == to && Answerable(s, t, env))
  }

  lemma {:induction false} TokensOfReplies(replies: seq<Server.Reply>, posted: seq<Posted>, to: Origin, env: Env,
          t: nat)
    requires KnownReplies(replies, posted)
    ensures t in OutgoingTokens(replies, posted, to, env) <==>
            exists i :: 0 <= i < |replies| && replies[i].callback == t && GoesTo(replies[i], posted, to, env)
  {
    hide GoesTo;
    if replies != [] {
      var n := |replies| - 1;
      TokensOfReplies(replies[..n], posted, to, env, t);
      assert forall i :: 0 <= i < n ==> replies[..n][i] == replies[i];
    }
  }

  lemma {:induction false} TokensDiffer(replies: seq<Server.Reply>, posted: seq<Posted>, to: Origin, env: Env)
    requires KnownReplies(replies, posted)
    requires forall i, j :: 0 <= i < j < |replies| ==> replies[i].callback != replies[j].callback
    ensures var tokens := OutgoingTokens(replies, posted, to, env);
            forall i, j :: 0 <= i < j < |tokens| ==> tokens[i] != tokens[j]
  {
    hide GoesTo;
    if replies != [] {
      var n := |replies| - 1;
      TokensDiffer(replies[..n], posted, to, env);
      var before := OutgoingTokens(replies[..n], posted, to, env);
      forall i | 0 <= i < |before| ensures before[i] != replies[n].callback {
        TokensOfReplies(replies[..n], posted, to, env, before[i]);
        var k :| 0 <= k < n && replies[..n][k].callback == before[i];
        assert replies[k].callback != replies[n].callback;
      }
      assert OutgoingTokens(replies, posted, to, env) ==
             if GoesTo(replies[n], posted, to, env) then before + [replies[n].callback] else before;
    }
  }

  /** When nothing is left to run, every message has been replied to. */
  lemma AllReplied(s: System, t: nat, listenerFd: int, token: string, env: Env) returns (i: nat)
    requires listenerFd >= 0 && Reachable(s, listenerFd, token, env) && Quiescent(s) && t < |s.posted|
    ensures i < |s.server.replies| && s.server.replies[i].callback == t
  {
    ServerInvariant(s, listenerFd, token, env);
    hide ServerProofs.Invariant, Reachable;
    i := ReplyTo(s.server, t);
  }

  lemma ServerInvariant(s: System, listenerFd: int, token: string, env: Env)
    requires listenerFd >= 0 && Reachable(s, listenerFd, token, env)
    ensures ServerProofs.Invariant(s.server)
  {
    hide ServerProofs.Invariant, IpcProofs.Inv, LinesPosted, OwnRepliesOnly, HttpProofs.HttpInv, Reachable;
    ReachableSound(s, listenerFd, token, env);
  }

  lemma ReplyTo(server: Server.Server, t: nat) returns (i: nat)
    requires ServerProofs.Invariant(server) && server.running.None? && t < |server.messages|
    ensures i < |server.replies| && server.replies[i].callback == t
  {
    hide ServerProofs.Conforming, ServerProofs.AllMatch, ServerProofs.Ordered, Server.Initialized;
    ServerRuns.OnceEach(server.replies, ServerProofs.CallTokens(ServerProofs.Pending(server, [])),
                        |server.messages|);
    var tokens := ServerProofs.ReplyTokens(server.replies);
    assert t in tokens;
    i :| i < |tokens| && tokens[i] == t;
  }

  /**
   When nothing is left to run, a client that is still connected has received exactly one line for each of
   its own requests whose reply can be written, and no other line.
   */
  lemma ConnectedClientServed(s: System, g: nat, listenerFd: int, token: string, env: Env)
    requires listenerFd >= 0 && Reachable(s, listenerFd, token, env) && WritesOneLine(env) && Quiescent(s)
    requires 1 <= g <= s.ipc.shared.generation && IpcProofs.Live(s.ipc, g)
    ensures Shaped(s)
    ensures var tokens := OutgoingTokens(s.server.replies[..s.sentCount], s.posted, FromIpc(g), env);
            && LinesTo(s, g) == Outgoing(s.server.replies[..s.sentCount], s.posted, FromIpc(g), env)
            && |LinesTo(s, g)| == |tokens| && EachAnsweredOnce(tokens, s, FromIpc(g), env)
  {
    hide RawLines, Rest, Reachable, Outgoing, OutgoingTokens, Serialize, IpcProofs.Live, Lost;
    OwnRepliesWhole(s, g, listenerFd, token, env);
    ServerFacts(s, listenerFd, token, env);
    assert s.server.replies[..s.sentCount] == s.server.replies;
    var tokens := OutgoingTokens(s.server.replies, s.posted, FromIpc(g), env);
    TokensDiffer(s.server.replies, s.posted, FromIpc(g), env);
    LostTells(s.server.replies, s.sentCount, env);
    forall t: nat
      ensures t in tokens <==>
              t < |s.posted| && s.posted[t].origin == FromIpc(g) && Answerable(s, t, env)
    {
      TokensOfReplies(s.server.replies, s.posted, FromIpc(g), env, t);
      forall i | 0 <= i < |s.server.replies|
        ensures Serialize(s.server.replies[i].response, env).Some? <==>
                s.server.replies[i].response.Some? && env.write(s.server.replies[i].response.value).Some?
      {
        SerializedIsWritten(s.server.replies[i].response, env);
      }
    }
  }
}
