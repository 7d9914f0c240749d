/** The main results: safety of the whole server over every reachable state and every continuation. */
module McpTheorems {
  import opened Framing
  import opened McpSystem
  import opened McpSystemProofs
  import opened McpSystemRuns
  import IpcTransport
  import Ipc = IpcMachine
  import IpcProofs
  import ServerProofs = McpServerProofs

  // ---------- Replies reach only the client that asked ----------

  lemma ReachableIpc(s: System, listenerFd: int, token: string, env: Env)
    requires listenerFd >= 0 && Reachable(s, listenerFd, token, env)
    ensures Shaped(s) && IpcProofs.Inv(s.ipc) && IpcProofs.InstalledInOrder(s.ipc)
    ensures OwnRepliesOnly(s, env) && LinesPosted(s, env) && OriginsKnown(s)
    ensures s.stdout == Join(SentTo(s, FromStdio, env))
  {
    ReachableSound(s, listenerFd, token, env);
    hide IpcProofs.Inv, LinesPosted, OwnRepliesOnly, ServerProofs.Invariant;
    InvInOrder(s.ipc);
  }

  /**
   What the client of generation g received splits into whole replies to its own requests, oldest
   first, and at most a part of the next one. While the client is connected it has all of them.
   */
  lemma OwnRepliesWhole(s: System, g: nat, listenerFd: int, token: string, env: Env)
    requires listenerFd >= 0 && Reachable(s, listenerFd, token, env) && WritesOneLine(env)
    requires 1 <= g <= s.ipc.shared.generation
    ensures Shaped(s) && IpcProofs.InstalledInOrder(s.ipc)
    ensures var sent := IpcProofs.ConnectionAt(s.ipc, g - 1).sent;
            var replies := SentTo(s, FromIpc(g), env);
            && RawLines(sent) <= replies
            && (Rest(sent) == "" || (|RawLines(sent)| < |replies| && Rest(sent) <= replies[|RawLines(sent)|]))
            && (IpcProofs.Live(s.ipc, g) ==> RawLines(sent) == replies && Rest(sent) == "")
  {
    hide Outgoing, RawLines, Rest, IpcProofs.Inv, LinesPosted, Reachable, IpcProofs.Live;
    ReachableIpc(s, listenerFd, token, env);
    var replies := SentTo(s, FromIpc(g), env);
    OutgoingOneLine(s.server.replies[..s.sentCount], s.posted, FromIpc(g), env);
    assert OwnReplies(s, g - 1, env) && (g - 1) + 1 == g;
    PrefixOfJoin(IpcProofs.ConnectionAt(s.ipc, g - 1).sent, replies);
    SplitJoin(replies, "");
    assert Join(replies) + "" == Join(replies);
  }

  /** A client that was refused is sent nothing and nothing is read from it. */
  lemma RefusedClientsUntouched(s: System, c: nat, listenerFd: int, token: string, env: Env)
    requires listenerFd >= 0 && Reachable(s, listenerFd, token, env)
    requires c < |s.ipc.shared.os.connections| && c !in s.ipc.installed
    ensures s.ipc.shared.os.connections[c].sent == "" && s.ipc.shared.os.connections[c].received == ""
  {
    ReachableIpc(s, listenerFd, token, env);
  }

  /** Standard output is exactly the joined replies to what came from standard input. */
  lemma StdoutIsStdioReplies(s: System, listenerFd: int, token: string, env: Env)
    requires listenerFd >= 0 && Reachable(s, listenerFd, token, env) && WritesOneLine(env)
    ensures Shaped(s) && RawLines(s.stdout) == SentTo(s, FromStdio, env) && Rest(s.stdout) == ""
  {
    hide Outgoing, RawLines, Rest, IpcProofs.Inv, LinesPosted, OwnRepliesOnly, Reachable;
    ReachableIpc(s, listenerFd, token, env);
    OutgoingOneLine(s.server.replies[..s.sentCount], s.posted, FromStdio, env);
    SplitJoin(SentTo(s, FromStdio, env), "");
    assert Join(SentTo(s, FromStdio, env)) + "" == Join(SentTo(s, FromStdio, env));
  }

  // ---------- A closed generation stays closed ----------

  predicate ClosedGeneration(s: System, g: nat) {
    1 <= g <= s.ipc.shared.generation && !IpcProofs.Live(s.ipc, g)
  }

  lemma StepKeepsClosed(s: System, e: Event, g: nat, env: Env)
    requires Inv(s, env) && Shaped(s) && Enabled(s, e, env) && ClosedGeneration(s, g)
    ensures var s' := Step(s, e, env);
            && IpcProofs.InstalledInOrder(s.ipc) && IpcProofs.InstalledInOrder(s'.ipc)
            && ClosedGeneration(s', g)
            && |s'.ipc.installed| >= g
            && IpcProofs.ConnectionAt(s'.ipc, g - 1).sent == IpcProofs.ConnectionAt(s.ipc, g - 1).sent
  {
    hide IpcProofs.Inv, ServerProofs.Invariant, LinesPosted, OwnRepliesOnly, Ipc.Step, Serialize, Ipc.Enabled,
         IpcTransport.Decides;
    InvInOrder(s.ipc);
    match e
    case IpcThread(e) => IpcStepSendsNothing(s.ipc, e);
    case StopIpc =>
      assert Ipc.Enabled(s.ipc, Ipc.StopRequested) by { StopEnabled(s.ipc); }
      IpcStepSendsNothing(s.ipc, Ipc.StopRequested);
    case DeliverReply(outcomes) =>
      if NextOrigin(s).FromIpc? && Serialize(NextReply(s).response, env).Some? {
        IpcSendEffect(s.ipc, NextOrigin(s).clientGeneration,
                      Serialize(NextReply(s).response, env).value + "\n", outcomes);
      }
    case _ =>
  }

  lemma StopEnabled(ipc: Ipc.Ipc)
    ensures Ipc.Enabled(ipc, Ipc.StopRequested)
  {
  }

  /** Once a client is disconnected, no continuation of the run writes another byte to it. */
  lemma ClosedStaysClosed(s: System, events: seq<Event>, g: nat, listenerFd: int, token: string, env: Env)
    requires listenerFd >= 0 && Reachable(s, listenerFd, token, env)
    requires Possible(s, events, env) && ClosedGeneration(s, g)
    ensures var s' := After(s, events, env);
            && IpcProofs.InstalledInOrder(s.ipc) && IpcProofs.InstalledInOrder(s'.ipc)
            && ClosedGeneration(s', g)
            && g <= |s.ipc.installed| && g <= |s'.ipc.installed|
            && IpcProofs.ConnectionAt(s'.ipc, g - 1).sent == IpcProofs.ConnectionAt(s.ipc, g - 1).sent
  {
    hide Sound, Reachable, Possible, After;
    ReachableSound(s, listenerFd, token, env);
    RunKeepsClosed(s, events, g, env);
  }

  lemma {:induction false} RunKeepsClosed(s: System, events: seq<Event>, g: nat, env: Env)
    requires Sound(s, env) && Possible(s, events, env) && ClosedGeneration(s, g)
    ensures var s' := After(s, events, env);
            && IpcProofs.InstalledInOrder(s.ipc) && IpcProofs.InstalledInOrder(s'.ipc)
            && ClosedGeneration(s', g)
            && g <= |s.ipc.installed| && g <= |s'.ipc.installed|
            && IpcProofs.ConnectionAt(s'.ipc, g - 1).sent == IpcProofs.ConnectionAt(s.ipc, g - 1).sent
    decreases |events|
  {
    hide Inv, Step, Enabled, IpcProofs.Live;
    SoundInOrder(s, env);
    if events != [] {
      SoundStep(s, events[0], env);
      StepKeepsClosed(s, events[0], g, env);
      RunKeepsClosed(Step(s, events[0], env), events[1..], g, env);
    }
  }

  lemma SoundInOrder(s: System, env: Env)
    requires Sound(s, env)
    ensures Shaped(s) && Inv(s, env) && IpcProofs.InstalledInOrder(s.ipc)
    ensures |s.ipc.installed| == s.ipc.shared.generation
  {
    hide IpcProofs.Inv;
    InvInOrder(s.ipc);
  }
}
