/** Tool calls are delivered to each client in the order in which it made them. */
module McpCallOrder {
  import opened Values
  import opened Framing
  import opened McpSystem
  import opened McpSystemProofs
  import opened McpSystemRuns
  import opened McpTheorems
  import IpcProofs
  import Server = McpServer
  import ServerProofs = McpServerProofs
  import ServerRuns = McpServerRuns

  /** The message numbers of the replies that Outgoing serializes. */
  function OutgoingTokens(replies: seq<Server.Reply>, posted: seq<Posted>, to: Origin, env: Env): (tokens: seq<nat>)
    requires KnownReplies(replies, posted)
    ensures |tokens| == |Outgoing(replies, posted, to, env)|
    ensures forall i :: 0 <= i < |tokens| ==> tokens[i] < |posted|
  {
    if replies == [] then []
    else
      var n := |replies| - 1;
      OutgoingTokens(replies[..n], posted, to, env) +
      if GoesTo(replies[n], posted, to, env) then [replies[n].callback] else []
  }

  predicate Below(tokens: seq<nat>, n: nat) {
    forall i :: 0 <= i < |tokens| ==> tokens[i] < n
  }

  /** Those messages of a list that are named tool calls. */
  function ToolCallsAmong(tokens: seq<nat>, messages: seq<Dictionary>): seq<nat>
    requires Below(tokens, |messages|)
  {
    if tokens == [] then []
    else
      var n := |tokens| - 1;
      ToolCallsAmong(tokens[..n], messages) +
      if Server.VerdictAt(messages, tokens[n]).ToolCall? then [tokens[n]] else []
  }

  /** Those messages of a list that came from one origin, without the lost ones. */
  function CameFrom(tokens: seq<nat>, posted: seq<Posted>, origin: Origin, lost: set<nat>): seq<nat>
    requires Below(tokens, |posted|)
  {
    if tokens == [] then []
    else
      var n := |tokens| - 1;
      CameFrom(tokens[..n], posted, origin, lost) +
      if posted[tokens[n]].origin == origin && tokens[n] !in lost then [tokens[n]] else []
  }

  /** The messages whose reply cannot be serialized: the program skips such a reply. */
  function Lost(replies: seq<Server.Reply>, env: Env): set<nat> {
    set i | 0 <= i < |replies| && Serialize(replies[i].response, env).None? :: replies[i].callback
  }

  /** Whether a reply is lost can be told from its callback. */
  predicate Tells(replies: seq<Server.Reply>, lost: set<nat>, env: Env) {
    forall i :: 0 <= i < |replies| ==> (replies[i].callback in lost <==> Serialize(replies[i].response, env).None?)
  }

  lemma {:induction false} OutgoingBelow(replies: seq<Server.Reply>, posted: seq<Posted>, messages: seq<Dictionary>,
                                         to: Origin, env: Env)
    requires KnownReplies(replies, posted) && ServerProofs.Known(replies, messages)
    ensures Below(OutgoingTokens(replies, posted, to, env), |messages|)
  {
    if replies != [] {
      OutgoingBelow(replies[..|replies| - 1], posted, messages, to, env);
    }
  }

  lemma {:induction false} AnsweredBelow(replies: seq<Server.Reply>, messages: seq<Dictionary>)
    requires ServerProofs.Known(replies, messages)
    ensures Below(ServerProofs.Answered(replies, messages), |messages|)
  {
    hide Server.VerdictAt;
    if replies != [] {
      AnsweredBelow(replies[..|replies| - 1], messages);
    }
  }

  lemma ToolCallsAmongSnoc(tokens: seq<nat>, t: nat, messages: seq<Dictionary>)
    requires Below(tokens, |messages|) && t < |messages|
    ensures Below(tokens + [t], |messages|)
    ensures ToolCallsAmong(tokens + [t], messages) ==
              ToolCallsAmong(tokens, messages) + if Server.VerdictAt(messages, t).ToolCall? then [t] else []
  {
    assert (tokens + [t])[..|tokens|] == tokens;
  }

  lemma CameFromSnoc(tokens: seq<nat>, t: nat, posted: seq<Posted>, origin: Origin, lost: set<nat>)
    requires Below(tokens, |posted|) && t < |posted|
    ensures Below(tokens + [t], |posted|)
    ensures CameFrom(tokens + [t], posted, origin, lost) ==
              CameFrom(tokens, posted, origin, lost) + if posted[t].origin == origin && t !in lost then [t] else []
  {
    assert (tokens + [t])[..|tokens|] == tokens;
  }

  /** The tool calls whose replies are sent to one origin are that origin's share of the answered ones. */
  lemma {:induction false} SentToolCalls(replies: seq<Server.Reply>, posted: seq<Posted>, messages: seq<Dictionary>,
                                         to: Origin, lost: set<nat>, env: Env)
    requires KnownReplies(replies, posted) && ServerProofs.Known(replies, messages) && |messages| <= |posted|
    requires Tells(replies, lost, env)
    ensures Below(OutgoingTokens(replies, posted, to, env), |messages|)
    ensures Below(ServerProofs.Answered(replies, messages), |posted|)
    ensures ToolCallsAmong(OutgoingTokens(replies, posted, to, env), messages) ==
            CameFrom(ServerProofs.Answered(replies, messages), posted, to, lost)
  {
    hide Server.VerdictAt, Serialize;
    if replies != [] {
      var n := |replies| - 1;
      var before := replies[..n];
      var t := replies[n].callback;
      SentToolCalls(before, posted, messages, to, lost, env);
      ToolCallsAmongSnoc(OutgoingTokens(before, posted, to, env), t, messages);
      CameFromSnoc(ServerProofs.Answered(before, messages), t, posted, to, lost);
      var tokens := OutgoingTokens(before, posted, to, env);
      var answered := ServerProofs.Answered(before, messages);
      assert OutgoingTokens(replies, posted, to, env) ==
             if GoesTo(replies[n], posted, to, env) then tokens + [t] else tokens;
      assert ServerProofs.Answered(replies, messages) ==
             if Server.VerdictAt(messages, t).ToolCall? then answered + [t] else answered;
    }
  }

  lemma BelowPrefix(a: seq<nat>, whole: seq<nat>, n: nat)
    requires a <= whole && Below(whole, n)
    ensures Below(a, n)
  {
  }

  lemma {:induction false} CameFromPrefix(a: seq<nat>, whole: seq<nat>, posted: seq<Posted>, origin: Origin,
                                          lost: set<nat>)
    requires a <= whole && Below(whole, |posted|) && Below(a, |posted|)
    ensures CameFrom(a, posted, origin, lost) <= CameFrom(whole, posted, origin, lost)
  {
    if |a| < |whole| {
      CameFromPrefix(a, whole[..|whole| - 1], posted, origin, lost);
    } else {
      assert a == whole;
    }
  }

  lemma {:induction false} ToolCallsAmongPrefix(a: seq<nat>, whole: seq<nat>, messages: seq<Dictionary>)
    requires a <= whole && Below(whole, |messages|) && Below(a, |messages|)
    ensures ToolCallsAmong(a, messages) <= ToolCallsAmong(whole, messages)
  {
    hide Server.VerdictAt;
    if |a| < |whole| {
      ToolCallsAmongPrefix(a, whole[..|whole| - 1], messages);
    } else {
      assert a == whole;
    }
  }

  lemma {:induction false} AnsweredPrefix(replies: seq<Server.Reply>, k: nat, messages: seq<Dictionary>)
    requires ServerProofs.Known(replies, messages) && k <= |replies|
    ensures ServerProofs.Known(replies[..k], messages)
    ensures ServerProofs.Answered(replies[..k], messages) <= ServerProofs.Answered(replies, messages)
  {
    hide Server.VerdictAt;
    if k < |replies| {
      AnsweredPrefix(replies[..|replies| - 1], k, messages);
      assert replies[..|replies| - 1][..k] == replies[..k];
    } else {
      assert replies[..k] == replies;
    }
  }

  /** The message numbers of the replies that client g has received whole. */
  function DeliveredTo(s: System, g: nat, env: Env): seq<nat>
    requires Shaped(s) && IpcProofs.InstalledInOrder(s.ipc) && 1 <= g <= |s.ipc.installed|
    requires |RawLines(IpcProofs.ConnectionAt(s.ipc, g - 1).sent)| <= |SentTo(s, FromIpc(g), env)|
  {
    OutgoingTokens(s.server.replies[..s.sentCount], s.posted, FromIpc(g), env)
      [..|RawLines(IpcProofs.ConnectionAt(s.ipc, g - 1).sent)|]
  }

  lemma ServerFacts(s: System, listenerFd: int, token: string, env: Env)
    requires listenerFd >= 0 && Reachable(s, listenerFd, token, env)
    ensures Shaped(s) && ServerProofs.Known(s.server.replies, s.server.messages)
    ensures ServerProofs.Answered(s.server.replies, s.server.messages) <= Server.ToolCalls(s.server.messages)
    ensures forall i, j :: 0 <= i < j < |s.server.replies| ==>
              s.server.replies[i].callback != s.server.replies[j].callback
  {
    ReachableSound(s, listenerFd, token, env);
    hide ServerProofs.Conforming, ServerProofs.AllMatch, Server.Initialized, Server.ToolCalls,
         ServerProofs.Answered, IpcProofs.Inv, LinesPosted, OwnRepliesOnly;
    assert ServerProofs.Ordered(s.server, ServerProofs.Pending(s.server, []));
    ServerRuns.OnceEach(s.server.replies, ServerProofs.CallTokens(ServerProofs.Pending(s.server, [])),
                        |s.server.messages|);
  }

  lemma LostTells(replies: seq<Server.Reply>, k: nat, env: Env)
    requires k <= |replies|
    requires forall i, j :: 0 <= i < j < |replies| ==> replies[i].callback != replies[j].callback
    ensures Tells(replies[..k], Lost(replies, env), env)
  {
    hide Serialize;
    var lost := Lost(replies, env);
    forall i | 0 <= i < k
      ensures replies[..k][i].callback in lost <==> Serialize(replies[..k][i].response, env).None?
    {
      assert replies[..k][i] == replies[i];
    }
  }

  /** The replies handed on so far answer, for each origin, a prefix of its tool calls, in order. */
  lemma HandedOnInOrder(s: System, to: Origin, listenerFd: int, token: string, env: Env)
    requires listenerFd >= 0 && Reachable(s, listenerFd, token, env)
    ensures Shaped(s)
    ensures var tokens := OutgoingTokens(s.server.replies[..s.sentCount], s.posted, to, env);
            && Below(tokens, |s.server.messages|) && Below(Server.ToolCalls(s.server.messages), |s.posted|)
            && ToolCallsAmong(tokens, s.server.messages) <=
               CameFrom(Server.ToolCalls(s.server.messages), s.posted, to, Lost(s.server.replies, env))
  {
    hide Outgoing, Reachable, Server.ToolCalls, ServerProofs.Answered, CameFrom, ToolCallsAmong, Server.VerdictAt,
         Serialize, OutgoingTokens, Tells, Lost;
    ServerFacts(s, listenerFd, token, env);
    var messages, sent := s.server.messages, s.server.replies[..s.sentCount];
    var lost := Lost(s.server.replies, env);
    LostTells(s.server.replies, s.sentCount, env);
    AnsweredPrefix(s.server.replies, s.sentCount, messages);
    SentToolCalls(sent, s.posted, messages, to, lost, env);
    CameFromPrefix(ServerProofs.Answered(sent, messages), Server.ToolCalls(messages), s.posted, to, lost);
  }

  /**
   End to end: of the tool calls a client made, in the order in which it made them and without those
   whose reply cannot be serialized, those whose replies it has received whole form a prefix, although
   all transports share one queue.
   */
  lemma CallsDeliveredInOrder(s: System, g: nat, listenerFd: int, token: string, env: Env)
    requires listenerFd >= 0 && Reachable(s, listenerFd, token, env) && WritesOneLine(env)
    requires 1 <= g <= s.ipc.shared.generation
    ensures Shaped(s) && IpcProofs.InstalledInOrder(s.ipc)
    ensures |RawLines(IpcProofs.ConnectionAt(s.ipc, g - 1).sent)| <= |SentTo(s, FromIpc(g), env)|
    ensures Below(DeliveredTo(s, g, env), |s.server.messages|)
    ensures Below(Server.ToolCalls(s.server.messages), |s.posted|)
    ensures ToolCallsAmong(DeliveredTo(s, g, env), s.server.messages) <=
            CameFrom(Server.ToolCalls(s.server.messages), s.posted, FromIpc(g), Lost(s.server.replies, env))
  {
    hide Outgoing, RawLines, Rest, Reachable, IpcProofs.Live, Server.ToolCalls, CameFrom, ToolCallsAmong,
         Server.VerdictAt, Serialize, OutgoingTokens, Lost;
    OwnRepliesWhole(s, g, listenerFd, token, env);
    HandedOnInOrder(s, FromIpc(g), listenerFd, token, env);
    var tokens := OutgoingTokens(s.server.replies[..s.sentCount], s.posted, FromIpc(g), env);
    BelowPrefix(DeliveredTo(s, g, env), tokens, |s.server.messages|);
    ToolCallsAmongPrefix(DeliveredTo(s, g, env), tokens, s.server.messages);
  }

  /** The same for standard output, whose lines are all the replies handed on to it. */
  lemma StdoutCallsInOrder(s: System, listenerFd: int, token: string, env: Env)
    requires listenerFd >= 0 && Reachable(s, listenerFd, token, env) && WritesOneLine(env)
    ensures Shaped(s)
    ensures var tokens := OutgoingTokens(s.server.replies[..s.sentCount], s.posted, FromStdio, env);
            && |tokens| == |RawLines(s.stdout)|
            && Below(tokens, |s.server.messages|) && Below(Server.ToolCalls(s.server.messages), |s.posted|)
            && ToolCallsAmong(tokens, s.server.messages) <=
               CameFrom(Server.ToolCalls(s.server.messages), s.posted, FromStdio, Lost(s.server.replies, env))
  {
    hide Outgoing, RawLines, Rest, Reachable, Server.ToolCalls, CameFrom, ToolCallsAmong, OutgoingTokens, Lost;
    HandedOnInOrder(s, FromStdio, listenerFd, token, env);
    StdoutIsStdioReplies(s, listenerFd, token, env);
  }
}
