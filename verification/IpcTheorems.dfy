/** The main results about descriptors and framing, over every reachable state of the whole server. */
module IpcTheorems {
  import opened Wrappers
  import opened Framing
  import opened IpcTransport
  import opened IpcProofs
  import Ipc = IpcMachine
  import McpSystem
  import McpSystemProofs
  import McpSystemRuns
  import McpTheorems

  lemma ReachableInv(s: McpSystem.System, listenerFd: int, token: string, env: McpSystem.Env)
    requires listenerFd >= 0 && McpSystemRuns.Reachable(s, listenerFd, token, env)
    ensures McpSystem.Shaped(s) && Inv(s.ipc)
  {
    hide Inv, McpSystemRuns.Reachable;
    McpTheorems.ReachableIpc(s, listenerFd, token, env);
  }

  // ---------- Descriptors ----------

  /**
   Every accepted connection is closed at most once, and is open only while it is the active client
   or the one the IPC thread is about to install or refuse. No close or write ever hits a number
   that names something else.
   */
  lemma DescriptorsConserved(s: McpSystem.System, listenerFd: int, token: string, env: McpSystem.Env)
    requires listenerFd >= 0 && McpSystemRuns.Reachable(s, listenerFd, token, env)
    ensures var os := s.ipc.shared.os;
            && (forall c :: 0 <= c < |os.connections| ==>
                  os.connections[c].closes == if IsActive(s.ipc, c) || IsHeld(s.ipc, c) then 0 else 1)
            && (forall fd :: fd in os.table ==>
                  fd == s.ipc.shared.listenerFd || fd == s.ipc.shared.activeFd || fd == Held(s.ipc.pc))
            && os.strayCloses == 0 && os.strayWrites == 0
            && os.listenerCloses <= 1 && os.unlinks <= 1
  {
    ReachableInv(s, listenerFd, token, env);
    hide Framed, HeardIsReceived, OthersSilent;
  }

  /** When the loop has exited, nothing is open, everything was closed once, and the path is unlinked once. */
  lemma NothingOpenAfterExit(s: McpSystem.System, listenerFd: int, token: string, env: McpSystem.Env)
    requires listenerFd >= 0 && McpSystemRuns.Reachable(s, listenerFd, token, env)
    requires s.ipc.pc.Done?
    ensures var os := s.ipc.shared.os;
            && os.table == map[]
            && (forall c :: 0 <= c < |os.connections| ==> os.connections[c].closes == 1)
            && os.listenerCloses == 1 && os.unlinks == 1
            && s.ipc.shared.stopping
  {
    hide Descriptors, Framed, HeardIsReceived, OthersSilent, McpSystemRuns.Reachable;
    ReachableInv(s, listenerFd, token, env);
    DoneIsClean(s.ipc);
  }

  lemma DoneIsClean(s: Ipc.Ipc)
    requires Descriptors(s) && s.pc.Done?
    ensures var os := s.shared.os;
            && os.table == map[]
            && (forall c :: 0 <= c < |os.connections| ==> os.connections[c].closes == 1)
            && os.listenerCloses == 1 && os.unlinks == 1
            && s.shared.stopping
  {
    forall fd ensures fd !in s.shared.os.table {
    }
  }

  /** The test after a failed read closes the connection whose read failed, and no other. */
  lemma FailedReadClosesItsOwn(s: McpSystem.System, listenerFd: int, token: string, env: McpSystem.Env)
    requires listenerFd >= 0 && McpSystemRuns.Reachable(s, listenerFd, token, env)
    requires s.ipc.pc.AfterFailedReceive? && s.ipc.shared.activeFd == s.ipc.pc.fd
    ensures ClosesOwn(s.ipc)
  {
    hide Descriptors, Framed, HeardIsReceived, OthersSilent, McpSystemRuns.Reachable, ClosesOwn;
    ReachableInv(s, listenerFd, token, env);
    FailedReadOwn(s.ipc);
  }

  /** Of all connections, closing after the failed read touches the one read from, which was open. */
  predicate ClosesOwn(s: Ipc.Ipc) {
    && Ipc.Shaped(s) && s.pc.AfterFailedReceive?
    && var before := s.shared.os.connections;
       var after := Ipc.Step(s, Ipc.DropAfterFailure).shared.os.connections;
       var c := s.installed[s.pc.clientGeneration - 1];
       && c < |before| == |after|
       && before[c].closes == 0 && after[c].closes == 1
       && (forall d :: 0 <= d < |before| && d != c ==> after[d] == before[d])
  }

  lemma FailedReadOwn(s: Ipc.Ipc)
    requires Ipc.Shaped(s) && Descriptors(s) && s.pc.AfterFailedReceive? && s.shared.activeFd == s.pc.fd
    ensures ClosesOwn(s)
  {
  }

  /**
   The connection just accepted: with the slot free it is the next one installed, on its own descriptor and
   with nothing buffered or heard; otherwise it is closed, and the active client, its buffer and its bytes
   stay as they were.
   */
  lemma NewcomerTakesFreeSlot(s: McpSystem.System, listenerFd: int, token: string, env: McpSystem.Env)
    requires listenerFd >= 0 && McpSystemRuns.Reachable(s, listenerFd, token, env) && s.ipc.pc.HoldingAccepted?
    ensures TakesFreeSlot(s.ipc)
  {
    hide Framed, HeardIsReceived, OthersSilent, McpSystemRuns.Reachable, TakesFreeSlot;
    ReachableInv(s, listenerFd, token, env);
    HeldTakesFreeSlot(s.ipc);
  }

  predicate TakesFreeSlot(s: Ipc.Ipc) {
    && Ipc.Shaped(s) && s.pc.HoldingAccepted? && s.shared.os.connections != []
    && var c, after := |s.shared.os.connections| - 1, Ipc.Step(s, Ipc.InstallOrRefuse);
       if s.shared.activeFd < 0 then
         && after.installed == s.installed + [c] && after.shared.activeFd == s.pc.fd && s.pc.fd >= 0
         && after.shared.generation == |after.installed| && after.buffer == "" && after.heard == s.heard + [""]
         && after.dispatched == s.dispatched + [[]] && after.shared.os == s.shared.os
       else
         && Ipc.Enabled(after, Ipc.CloseExtra)
         && var closed := Ipc.Step(after, Ipc.CloseExtra);
            && closed.shared.os.connections[c].closes == 1 && s.pc.fd !in closed.shared.os.table
            && closed == s.(pc := closed.pc, shared := s.shared.(os := closed.shared.os))
            && (forall d :: 0 <= d < c ==> closed.shared.os.connections[d] == s.shared.os.connections[d])
  }

  lemma HeldTakesFreeSlot(s: Ipc.Ipc)
    requires Ipc.Shaped(s) && Descriptors(s) && s.pc.HoldingAccepted?
    ensures TakesFreeSlot(s)
  {
  }

  // ---------- Framing ----------

  /** The line loop is at work on the bytes of generation g. */
  predicate SplittingNow(s: Ipc.Ipc, g: nat) {
    s.pc.Splitting? && g == s.shared.generation
  }

  /**
   The lines dispatched under a generation are the lines of the bytes heard under it, however they
   were chunked; the messages posted for that client are those that parse, in line order.
   */
  lemma LinesFollowBytes(s: McpSystem.System, g: nat, listenerFd: int, token: string, env: McpSystem.Env)
    requires listenerFd >= 0 && McpSystemRuns.Reachable(s, listenerFd, token, env)
    requires 1 <= g <= s.ipc.shared.generation
    ensures g <= |s.ipc.dispatched| && g <= |s.ipc.heard|
    ensures s.ipc.dispatched[g - 1] <= Lines(s.ipc.heard[g - 1])
    ensures !SplittingNow(s.ipc, g) ==> s.ipc.dispatched[g - 1] == Lines(s.ipc.heard[g - 1])
    ensures McpSystemProofs.PostedBy(s.posted, McpSystem.FromIpc(g)) ==
            McpSystemProofs.ParseAll(s.ipc.dispatched[g - 1], env)
  {
    hide Descriptors, HeardIsReceived, OthersSilent, Lines, OneLine, McpSystemProofs.PostedBy, McpSystemProofs.ParseAll,
         McpSystemRuns.Reachable, Inv, McpSystemProofs.OwnRepliesOnly;
    McpTheorems.ReachableIpc(s, listenerFd, token, env);
    FramedLines(s.ipc, g);
    assert McpSystemProofs.PostedBy(s.posted, McpSystem.FromIpc(g - 1 + 1)) ==
           McpSystemProofs.ParseAll(s.ipc.dispatched[g - 1], env);
  }

  lemma FramedLines(s: Ipc.Ipc, g: nat)
    requires Inv(s) && 1 <= g <= s.shared.generation
    ensures g <= |s.dispatched| && g <= |s.heard|
    ensures s.dispatched[g - 1] <= Lines(s.heard[g - 1])
    ensures !SplittingNow(s, g) ==> s.dispatched[g - 1] == Lines(s.heard[g - 1])
  {
    hide Descriptors, HeardIsReceived, OthersSilent, Lines, OneLine;
    SplitIfOneLine(s.buffer);
  }

  lemma SplitIfOneLine(b: string)
    ensures OneLine(b) ==> Lines(b) == []
  {
    if OneLine(b) {
      SplitNothing(b);
    }
  }

  lemma HeardInState(s: McpSystem.System, g: nat, listenerFd: int, token: string, env: McpSystem.Env)
    requires listenerFd >= 0 && McpSystemRuns.Reachable(s, listenerFd, token, env)
    requires 1 <= g <= s.ipc.shared.generation
    ensures InstalledInOrder(s.ipc) && g <= |s.ipc.installed| && g <= |s.ipc.heard|
    ensures ConnectionAt(s.ipc, g - 1).received <= s.ipc.heard[g - 1]
    ensures s.ipc.heard[g - 1] == ConnectionAt(s.ipc, g - 1).received <==> g !in s.ipc.stale
    ensures g in s.ipc.stale ==> !Live(s.ipc, g)
  {
    ReachableInv(s, listenerFd, token, env);
    hide Framed, TableExact, ClosedOnce, Locals, OthersSilent;
    assert (g - 1) + 1 == g;
  }

  /** A read makes its generation stale exactly when the other thread closed the client before it. */
  lemma StaleIffClosedMeanwhile(s: Ipc.Ipc, chunk: string)
    requires Inv(s) && Ipc.Enabled(s, Ipc.ReceiveReturns(chunk))
    ensures s.pc.clientGeneration in Ipc.Step(s, Ipc.ReceiveReturns(chunk)).stale <==> s.shared.activeFd < 0
  {
    hide Framed, OthersSilent, ClosedOnce;
  }

  // ---------- Which runs hear bytes that the client never sent ----------

  /** The event is a read under generation g that succeeds after the other thread closed the client. */
  predicate ReadsClosed(s: McpSystem.System, e: McpSystem.Event, g: nat) {
    && e.IpcThread? && e.e.ReceiveReturns?
    && s.ipc.pc.BeforeReceive? && s.ipc.pc.clientGeneration == g
    && s.ipc.shared.activeFd < 0
  }

  /** Somewhere in the run there is such a read. */
  predicate EverReadsClosed(s: McpSystem.System, events: seq<McpSystem.Event>, g: nat, env: McpSystem.Env)
    requires McpSystemRuns.Possible(s, events, env)
    decreases |events|
  {
    events != [] &&
    (ReadsClosed(s, events[0], g) || EverReadsClosed(McpSystem.Step(s, events[0], env), events[1..], g, env))
  }

  lemma IpcStepStale(s: Ipc.Ipc, e: Ipc.Event, g: nat)
    requires Inv(s) && Ipc.Enabled(s, e)
    ensures g in Ipc.Step(s, e).stale <==>
            g in s.stale || (e.ReceiveReturns? && s.pc.clientGeneration == g && s.shared.activeFd < 0)
  {
    hide Framed, OthersSilent, ClosedOnce, HeardIsReceived, SendSerializedResponse;
    if e.ReceiveReturns? {
      StaleIffClosedMeanwhile(s, e.chunk);
    }
  }

  /** The transport's part of an event, if it has one. */
  function IpcPart(s: McpSystem.System, e: McpSystem.Event, env: McpSystem.Env): Option<Ipc.Event>
    requires McpSystem.Shaped(s) && McpSystem.Enabled(s, e, env)
  {
    match e
    case IpcThread(e) => Some(e)
    case StopIpc => Some(Ipc.StopRequested)
    case DeliverReply(outcomes) =>
      var json := McpSystem.Serialize(McpSystem.NextReply(s).response, env);
      if McpSystem.NextOrigin(s).FromIpc? && json.Some? then
        Some(Ipc.Send(McpSystem.NextOrigin(s).clientGeneration, json.value + "\n", outcomes))
      else None
    case _ => None
  }

  lemma StepsIpc(s: McpSystem.System, e: McpSystem.Event, env: McpSystem.Env)
    requires McpSystem.Shaped(s) && McpSystem.Enabled(s, e, env)
    ensures var part := IpcPart(s, e, env);
            && (part.None? ==> McpSystem.Step(s, e, env).ipc == s.ipc)
            && (part.Some? ==> Ipc.Enabled(s.ipc, part.value) &&
                               McpSystem.Step(s, e, env).ipc == Ipc.Step(s.ipc, part.value))
  {
    hide Ipc.Step, McpSystem.Serialize, Decides, Ipc.Enabled, Ipc.Shaped;
    if e.StopIpc? {
      McpTheorems.StopEnabled(s.ipc);
    } else if e.DeliverReply? && IpcPart(s, e, env).Some? {
      SendEnabled(s.ipc, IpcPart(s, e, env).value);
    }
  }

  lemma StepStale(s: McpSystem.System, e: McpSystem.Event, g: nat, env: McpSystem.Env)
    requires McpSystem.Shaped(s) && McpSystem.Enabled(s, e, env) && Inv(s.ipc)
    ensures g in McpSystem.Step(s, e, env).ipc.stale <==> g in s.ipc.stale || ReadsClosed(s, e, g)
  {
    hide Inv, Ipc.Step, Ipc.Enabled, McpSystem.Step, McpSystem.Enabled, McpSystem.Serialize;
    StepsIpc(s, e, env);
    var part := IpcPart(s, e, env);
    if part.Some? {
      ReceiveEnabled(s.ipc, part.value);
      IpcStepStale(s.ipc, part.value, g);
    }
  }

  lemma ReceiveEnabled(s: Ipc.Ipc, e: Ipc.Event)
    requires Ipc.Enabled(s, e)
    ensures e.ReceiveReturns? ==> s.pc.BeforeReceive?
  {
  }

  lemma SendEnabled(s: Ipc.Ipc, e: Ipc.Event)
    requires e.Send? && Decides(|e.serialized|, e.outcomes)
    ensures Ipc.Enabled(s, e)
  {
  }

  lemma {:induction false} RunStale(s: McpSystem.System, events: seq<McpSystem.Event>, g: nat, env: McpSystem.Env)
    requires McpSystemRuns.Possible(s, events, env) && McpSystemRuns.Sound(s, env)
    ensures g in McpSystemRuns.After(s, events, env).ipc.stale <==>
            g in s.ipc.stale || EverReadsClosed(s, events, g, env)
    decreases |events|
  {
    hide McpSystemRuns.Sound, McpSystem.Step, McpSystem.Enabled, McpSystem.Shaped, ReadsClosed, Inv;
    if events != [] {
      SoundIpc(s, env);
      StepStale(s, events[0], g, env);
      McpSystemRuns.SoundStep(s, events[0], env);
      RunStale(McpSystem.Step(s, events[0], env), events[1..], g, env);
    }
  }

  lemma SoundIpc(s: McpSystem.System, env: McpSystem.Env)
    requires McpSystemRuns.Sound(s, env)
    ensures McpSystem.Shaped(s) && Inv(s.ipc)
  {
    hide Inv;
  }

  /**
   In any run, the bytes heard under a generation are exactly those its client sent if and only if no
   read under it succeeded after the main thread had closed the client; and after such a read the client
   is disconnected, so that every reply to what was heard is dropped.
   */
  lemma HeardExactlyUnlessStale(events: seq<McpSystem.Event>, g: nat, listenerFd: int, token: string,
          env: McpSystem.Env)
    requires listenerFd >= 0 && McpSystemRuns.Possible(McpSystem.Started(listenerFd, token), events, env)
    requires 1 <= g <= McpSystemRuns.After(McpSystem.Started(listenerFd, token), events, env).ipc.shared.generation
    ensures var start := McpSystem.Started(listenerFd, token);
            var s := McpSystemRuns.After(start, events, env);
            && InstalledInOrder(s.ipc) && g <= |s.ipc.installed| && g <= |s.ipc.heard|
            && ConnectionAt(s.ipc, g - 1).received <= s.ipc.heard[g - 1]
            && (s.ipc.heard[g - 1] == ConnectionAt(s.ipc, g - 1).received <==> !EverReadsClosed(start, events, g, env))
            && (EverReadsClosed(start, events, g, env) ==> !Live(s.ipc, g))
  {
    hide McpSystemRuns.Sound, McpSystemRuns.Possible, McpSystemRuns.After, EverReadsClosed, InstalledInOrder, Live;
    var start := McpSystem.Started(listenerFd, token);
    McpSystemRuns.StartedSound(listenerFd, token, env);
    RunStale(start, events, g, env);
    HeardInState(McpSystemRuns.After(start, events, env), g, listenerFd, token, env);
  }
}
