/**
 Whether the client that recv is called on is the one that poll reported ready. The loop takes a snapshot
 before poll and another one after accept; in between, the main thread may close the polled client, and
 accept may install a new one.
 */
module IpcReadiness {
  import opened Kernel
  import opened IpcTransport
  import opened IpcProofs
  import Ipc = IpcMachine
  import IpcTheorems
  import McpSystem
  import McpSystemRuns

  /** The client at the last first snapshot, and whether poll then reported it ready. */
  datatype Polled = Polled(fd: int, generation: nat, ready: bool)

  const NOTHING := Polled(-1, 0, false)

  function Note(s: Ipc.Ipc, e: Ipc.Event, p: Polled): Polled {
    match e
    case Snapshot => Polled(s.shared.activeFd, s.shared.generation, false)
    case PollReturns(_, clientReady) => p.(ready := clientReady)
    case _ => p
  }

  // ---------- The steps of the transport ----------

  predicate Polling(pc: Ipc.Pc) {
    pc.BeforePoll? || pc.AfterPoll? || pc.HoldingAccepted? || pc.HoldingExtra?
  }

  predicate SaysReady(pc: Ipc.Pc) {
    ((pc.AfterPoll? || pc.HoldingAccepted? || pc.HoldingExtra? || pc.BeforeSecondSnapshot?) && pc.clientReady)
    || pc.BeforeReceive?
  }

  /** What the polled client still has to do with the active one. */
  predicate SlotInv(s: Ipc.Ipc, p: Polled) {
    && p.generation <= s.shared.generation
    && (p.fd >= 0 ==> p.generation >= 1)
    && (s.shared.generation == p.generation ==>
          if p.fd < 0 then s.shared.activeFd < 0 else s.shared.activeFd < 0 || s.shared.activeFd == p.fd)
  }

  predicate PcInv(s: Ipc.Ipc, p: Polled) {
    && (s.pc.BeforePoll? ==> s.pc.client == p.fd)
    && (Polling(s.pc) ==> s.shared.generation == p.generation)
    && (s.pc.BeforeSecondSnapshot? || s.pc.BeforeReceive? ==> s.shared.generation <= p.generation + 1)
    && (SaysReady(s.pc) ==> p.ready && p.fd >= 0)
    && (s.pc.BeforeReceive? && s.pc.clientGeneration == p.generation ==> s.pc.fd == p.fd)
  }

  lemma StepKeepsSlot(s: Ipc.Ipc, e: Ipc.Event, p: Polled)
    requires Ipc.Shaped(s) && Ipc.Enabled(s, e) && SlotInv(s, p)
    ensures SlotInv(Ipc.Step(s, e), Note(s, e, p))
  {
    hide SendSerializedResponse, Ipc.ConnectionOf, Close, Receive, Accept;
    if e.Send? {
      SendEffect(s, e.clientGeneration, e.serialized, e.outcomes);
      SendKeepsGeneration(s, e);
    }
  }

  lemma SendKeepsGeneration(s: Ipc.Ipc, e: Ipc.Event)
    requires Ipc.Shaped(s) && Ipc.Enabled(s, e) && e.Send?
    ensures Ipc.Step(s, e).shared.generation == s.shared.generation && Ipc.Step(s, e).pc == s.pc
  {
  }

  lemma StepKeepsPc(s: Ipc.Ipc, e: Ipc.Event, p: Polled)
    requires Ipc.Shaped(s) && Ipc.Enabled(s, e) && SlotInv(s, p) && PcInv(s, p)
    ensures PcInv(Ipc.Step(s, e), Note(s, e, p))
  {
    hide SendSerializedResponse, Ipc.ConnectionOf, Close, Receive, Accept;
    if e.Send? {
      SendKeepsGeneration(s, e);
    }
  }

  // ---------- Runs of the whole server ----------

  function NoteEvent(s: McpSystem.System, e: McpSystem.Event, p: Polled): Polled {
    if e.IpcThread? then Note(s.ipc, e.e, p) else p
  }

  /** What the last first snapshot and poll of a run were about. */
  function LastPoll(s: McpSystem.System, events: seq<McpSystem.Event>, p: Polled, env: McpSystem.Env): Polled
    requires McpSystemRuns.Possible(s, events, env)
    decreases |events|
  {
    if events == [] then p
    else LastPoll(McpSystem.Step(s, events[0], env), events[1..], NoteEvent(s, events[0], p), env)
  }

  lemma StepKeepsPolled(s: McpSystem.System, e: McpSystem.Event, p: Polled, env: McpSystem.Env)
    requires McpSystem.Shaped(s) && McpSystem.Enabled(s, e, env) && SlotInv(s.ipc, p) && PcInv(s.ipc, p)
    ensures SlotInv(McpSystem.Step(s, e, env).ipc, NoteEvent(s, e, p))
    ensures PcInv(McpSystem.Step(s, e, env).ipc, NoteEvent(s, e, p))
  {
    hide McpSystem.Step, McpSystem.Enabled, Ipc.Step, Ipc.Enabled, Ipc.Shaped, SlotInv, PcInv;
    IpcTheorems.StepsIpc(s, e, env);
    var part := IpcTheorems.IpcPart(s, e, env);
    if part.Some? {
      IpcShaped(s);
      StepKeepsSlot(s.ipc, part.value, p);
      StepKeepsPc(s.ipc, part.value, p);
    }
  }

  lemma IpcShaped(s: McpSystem.System)
    requires McpSystem.Shaped(s)
    ensures Ipc.Shaped(s.ipc)
  {
  }

  lemma {:induction false} RunKeepsPolled(s: McpSystem.System, events: seq<McpSystem.Event>, p: Polled,
                                          env: McpSystem.Env)
    requires McpSystemRuns.Possible(s, events, env) && SlotInv(s.ipc, p) && PcInv(s.ipc, p)
    ensures SlotInv(McpSystemRuns.After(s, events, env).ipc, LastPoll(s, events, p, env))
    ensures PcInv(McpSystemRuns.After(s, events, env).ipc, LastPoll(s, events, p, env))
    decreases |events|
  {
    hide McpSystem.Step, McpSystem.Enabled, McpSystem.Shaped, SlotInv, PcInv, NoteEvent;
    if events != [] {
      StepKeepsPolled(s, events[0], p, env);
      RunKeepsPolled(McpSystem.Step(s, events[0], env), events[1..], NoteEvent(s, events[0], p), env);
    }
  }

  /** The IPC thread is about to call recv. */
  predicate AboutToReceive(s: McpSystem.System) {
    s.ipc.pc.BeforeReceive?
  }

  /**
   In any run, when recv is about to be called, poll had reported a client ready. It is the client that
   recv is called on, on the same descriptor, exactly when the active generation was the same at both
   snapshots. Otherwise the polled client has been closed and the next client read in its place.
   */
  lemma ReadsPolledClient(events: seq<McpSystem.Event>, listenerFd: int, token: string, env: McpSystem.Env)
    requires listenerFd >= 0 && McpSystemRuns.Possible(McpSystem.Started(listenerFd, token), events, env)
    requires AboutToReceive(McpSystemRuns.After(McpSystem.Started(listenerFd, token), events, env))
    ensures var start := McpSystem.Started(listenerFd, token);
            var s, p := McpSystemRuns.After(start, events, env).ipc, LastPoll(start, events, NOTHING, env);
            var g := s.pc.clientGeneration;
            && p.ready && p.fd >= 0 && 1 <= p.generation <= g <= p.generation + 1 && g <= |s.installed|
            && (s.installed[g - 1] == s.installed[p.generation - 1] <==> g == p.generation)
            && (g == p.generation ==> s.pc.fd == p.fd)
            && (g != p.generation ==> s.installed[p.generation - 1] < |s.shared.os.connections| &&
                                      s.shared.os.connections[s.installed[p.generation - 1]].closes == 1)
  {
    hide McpSystemRuns.Possible, McpSystemRuns.After, LastPoll, McpSystemRuns.Reachable;
    var start := McpSystem.Started(listenerFd, token);
    var s := McpSystemRuns.After(start, events, env);
    RunKeepsPolled(start, events, NOTHING, env);
    assert McpSystemRuns.Reachable(s, listenerFd, token, env) by {
      Reached(events, listenerFd, token, env);
    }
    IpcTheorems.ReachableInv(s, listenerFd, token, env);
    PolledFacts(s.ipc, LastPoll(start, events, NOTHING, env));
  }

  lemma Reached(events: seq<McpSystem.Event>, listenerFd: int, token: string, env: McpSystem.Env)
    requires McpSystemRuns.Possible(McpSystem.Started(listenerFd, token), events, env)
    ensures McpSystemRuns.Reachable(McpSystemRuns.After(McpSystem.Started(listenerFd, token), events, env),
                                    listenerFd, token, env)
  {
    hide McpSystemRuns.Possible, McpSystemRuns.After;
  }

  lemma PolledFacts(s: Ipc.Ipc, p: Polled)
    requires Inv(s) && SlotInv(s, p) && PcInv(s, p) && s.pc.BeforeReceive?
    ensures var g := s.pc.clientGeneration;
            && p.ready && p.fd >= 0 && 1 <= p.generation <= g <= p.generation + 1 && g <= |s.installed|
            && (s.installed[g - 1] == s.installed[p.generation - 1] <==> g == p.generation)
            && (g == p.generation ==> s.pc.fd == p.fd)
            && (g != p.generation ==> s.installed[p.generation - 1] < |s.shared.os.connections| &&
                                      s.shared.os.connections[s.installed[p.generation - 1]].closes == 1)
  {
    hide Framed, HeardIsReceived, OthersSilent, TableExact;
  }
}
