/**
 The IPC thread's loop and the main thread's calls into the transport, as steps. Every lock-protected
 section, every system call and every dispatched line is a step of its own; between two steps the
 other thread may run.
 */
module IpcMachine {
  import opened Kernel
  import opened IpcTransport
  import opened Framing

  /** Where the IPC thread is, with the local variables still needed there. */
  datatype Pc =
    | Top                                                                     // at IsStopping()
    | BeforeSnapshot                                                          // at the first snapshot
    | BeforePoll(listener: int, client: int)
    | AfterPoll(listener: int, listenerReady: bool, clientReady: bool)        // at accept
    | HoldingAccepted(fd: int, clientReady: bool)                             // before the install section
    | HoldingExtra(fd: int, clientReady: bool)                                // before closing the extra client
    | BeforeSecondSnapshot(clientReady: bool)
    | BeforeReceive(fd: int, clientGeneration: nat)
    | AfterFailedReceive(fd: int, clientGeneration: nat)
    | Splitting(clientGeneration: nat)                                        // in the line loop
    | Leaving                                                                 // before the last RequestStopLocked
    | Done

  /**
   `installed[g - 1]` is the connection installed as generation g, `heard[g - 1]` the bytes received
   under that generation and `dispatched[g - 1]` the lines dispatched with it. `stale` holds the
   generations under which a read succeeded on a number the transport had already closed.
   */
  datatype Ipc = Ipc(
    shared: Shared,
    pc: Pc,
    buffer: string,
    installed: seq<nat>,
    heard: seq<string>,
    dispatched: seq<seq<string>>,
    stale: set<nat>)

  datatype Event =
    // The IPC thread.
    | CheckStopping
    | Snapshot
    | PollReturnsNothing
    | PollReturns(listenerReady: bool, clientReady: bool)
    | SkipAccept
    | AcceptFails
    | AcceptReturns(fd: int)
    | InstallOrRefuse
    | CloseExtra
    | SecondSnapshot
    | ReceiveFails
    | ReceiveReturns(chunk: string)
    | DropAfterFailure
    | SplitLine
    | FinishSplitting
    | Finish
    // The main thread.
    | Send(clientGeneration: nat, serialized: string, outcomes: seq<SendReturn>)
    | StopRequested

  /** After the listening socket is created and recorded. */
  function Started(listenerFd: int): Ipc {
    Ipc(Shared(false, 0, listenerFd, -1, true, Os(map[listenerFd := Listening], [], 0, 0, 0, 0)),
        Top, "", [], [], [], {})
  }

  predicate Shaped(s: Ipc) {
    && WellFormed(s.shared.os)
    && |s.installed| == |s.heard| == |s.dispatched| == s.shared.generation
    && (s.shared.activeFd >= 0 ==> s.shared.generation >= 1)
    && (s.pc.BeforeReceive? || s.pc.AfterFailedReceive? || s.pc.Splitting? ==>
          1 <= s.pc.clientGeneration <= s.shared.generation)
  }

  predicate Enabled(s: Ipc, e: Event) {
    match e
    case CheckStopping => s.pc.Top?
    case Snapshot => s.pc.BeforeSnapshot?
    case PollReturnsNothing => s.pc.BeforePoll?
    case PollReturns(listenerReady, clientReady) =>
      s.pc.BeforePoll? && (listenerReady ==> s.pc.listener >= 0) && (clientReady ==> s.pc.client >= 0)
    case SkipAccept => s.pc.AfterPoll? && !(s.pc.listener >= 0 && s.pc.listenerReady)
    case AcceptFails => s.pc.AfterPoll? && s.pc.listener >= 0 && s.pc.listenerReady
    case AcceptReturns(fd) =>
      s.pc.AfterPoll? && s.pc.listener >= 0 && s.pc.listenerReady && fd >= 0 && fd !in s.shared.os.table
    case InstallOrRefuse => s.pc.HoldingAccepted?
    case CloseExtra => s.pc.HoldingExtra?
    case SecondSnapshot => s.pc.BeforeSecondSnapshot?
    case ReceiveFails => s.pc.BeforeReceive?
    case ReceiveReturns(chunk) => s.pc.BeforeReceive? && 1 <= |chunk| <= 4096
    case DropAfterFailure => s.pc.AfterFailedReceive?
    case SplitLine => s.pc.Splitting? && !OneLine(s.buffer)
    case FinishSplitting => s.pc.Splitting? && OneLine(s.buffer)
    case Finish => s.pc.Leaving?
    case Send(_, serialized, outcomes) => Decides(|serialized|, outcomes)
    case StopRequested => true
  }

  /** The accepted client takes the free slot, with a clear buffer, or is set aside to be closed. */
  function InstallStep(s: Ipc): (s': Ipc)
    requires Shaped(s) && s.pc.HoldingAccepted?
    ensures Shaped(s')
  {
    if s.shared.activeFd >= 0 then s.(pc := HoldingExtra(s.pc.fd, s.pc.clientReady))
    else
      s.(shared := Install(s.shared, s.pc.fd),
         pc := BeforeSecondSnapshot(s.pc.clientReady),
         buffer := "",
         installed := s.installed + [ConnectionOf(s.shared.os, s.pc.fd)],
         heard := s.heard + [""],
         dispatched := s.dispatched + [[]])
  }

  function ReceiveStep(s: Ipc, chunk: string): (s': Ipc)
    requires Shaped(s) && s.pc.BeforeReceive?
    ensures Shaped(s')
  {
    var g := s.pc.clientGeneration;
    var isClient := s.pc.fd in s.shared.os.table && s.shared.os.table[s.pc.fd].Client?;
    s.(shared := s.shared.(os := Receive(s.shared.os, s.pc.fd, chunk)),
       pc := Splitting(g),
       buffer := s.buffer + chunk,
       heard := s.heard[g - 1 := s.heard[g - 1] + chunk],
       stale := if isClient then s.stale else s.stale + {g})
  }

  function SplitLineStep(s: Ipc): (s': Ipc)
    requires Shaped(s) && s.pc.Splitting? && !OneLine(s.buffer)
    ensures Shaped(s')
  {
    var g := s.pc.clientGeneration;
    var n := FindNewline(s.buffer);
    assert s.buffer[..|s.buffer|] == s.buffer;
    s.(buffer := s.buffer[n + 1..],
       dispatched := s.dispatched[g - 1 := s.dispatched[g - 1] + [StripCR(s.buffer[..n])]])
  }

  function Step(s: Ipc, e: Event): (s': Ipc)
    requires Shaped(s) && Enabled(s, e)
    ensures Shaped(s')
  {
    match e
    case CheckStopping => s.(pc := if s.shared.stopping then Leaving else BeforeSnapshot)
    case Snapshot =>
      if s.shared.listenerFd < 0 && s.shared.activeFd < 0 then s.(pc := Leaving)
      else s.(pc := BeforePoll(s.shared.listenerFd, s.shared.activeFd))
    case PollReturnsNothing => s.(pc := Top)
    case PollReturns(listenerReady, clientReady) => s.(pc := AfterPoll(s.pc.listener, listenerReady, clientReady))
    case SkipAccept => s.(pc := BeforeSecondSnapshot(s.pc.clientReady))
    case AcceptFails => s.(pc := BeforeSecondSnapshot(s.pc.clientReady))
    case AcceptReturns(fd) =>
      s.(shared := s.shared.(os := Accept(s.shared.os, fd)), pc := HoldingAccepted(fd, s.pc.clientReady))
    case InstallOrRefuse => InstallStep(s)
    case CloseExtra =>
      s.(shared := s.shared.(os := Close(s.shared.os, s.pc.fd)), pc := BeforeSecondSnapshot(s.pc.clientReady))
    case SecondSnapshot =>
      if s.shared.activeFd < 0 || !s.pc.clientReady then s.(pc := Top)
      else s.(pc := BeforeReceive(s.shared.activeFd, s.shared.generation))
    case ReceiveFails => s.(pc := AfterFailedReceive(s.pc.fd, s.pc.clientGeneration))
    case ReceiveReturns(chunk) => ReceiveStep(s, chunk)
    case DropAfterFailure =>
      s.(shared := DropFailed(s.shared, s.pc.fd), pc := Top, buffer := "")
    case SplitLine => SplitLineStep(s)
    case FinishSplitting => s.(pc := Top)
    case Finish => s.(shared := RequestStopLocked(s.shared), pc := Done)
    case Send(clientGeneration, serialized, outcomes) =>
      s.(shared := SendSerializedResponse(s.shared, clientGeneration, serialized, outcomes))
    case StopRequested => s.(shared := Stop(s.shared))
  }

  function ConnectionOf(os: Os, fd: int): nat {
    if fd in os.table && os.table[fd].Client? then os.table[fd].connection else 0
  }

  // ---------- Several steps ----------

  predicate AllEnabled(s: Ipc, events: seq<Event>)
    requires Shaped(s)
    decreases |events|
  {
    events == [] || (Enabled(s, events[0]) && AllEnabled(Step(s, events[0]), events[1..]))
  }

  function Run(s: Ipc, events: seq<Event>): (s': Ipc)
    requires Shaped(s) && AllEnabled(s, events)
    ensures Shaped(s')
    decreases |events|
  {
    if events == [] then s else Run(Step(s, events[0]), events[1..])
  }
}
