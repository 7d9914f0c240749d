/** What every interleaving of the IPC thread and the main thread keeps. */
module IpcProofs {
  import opened Kernel
  import opened IpcTransport
  import opened Framing
  import opened IpcMachine

  // ---------- Descriptors ----------

  /** The descriptor the IPC thread holds between accept and its fate, or -1. */
  function Held(pc: Pc): int {
    if pc.HoldingAccepted? || pc.HoldingExtra? then pc.fd else -1
  }

  /** The connection of the active client. */
  predicate IsActive(s: Ipc, c: nat) {
    s.shared.activeFd >= 0 && s.installed != [] && c == s.installed[|s.installed| - 1]
  }

  predicate IsHeld(s: Ipc, c: nat) {
    Held(s.pc) >= 0 && c + 1 == |s.shared.os.connections|
  }

  /** Installed connections are real, pairwise different, and in order of acceptance. */
  predicate InstalledInOrder(s: Ipc) {
    && (forall i :: 0 <= i < |s.installed| ==> s.installed[i] < |s.shared.os.connections|)
    && (forall i, j :: 0 <= i < j < |s.installed| ==> s.installed[i] < s.installed[j])
  }

  /** The descriptor table names the listener, the active client and the held descriptor, and nothing else. */
  predicate TableExact(s: Ipc) {
    var table := s.shared.os.table;
    && (s.shared.listenerFd >= 0 ==> s.shared.listenerFd in table && table[s.shared.listenerFd] == Listening)
    && (s.shared.activeFd >= 0 ==>
          && s.installed != [] && s.shared.activeFd in table
          && table[s.shared.activeFd] == Client(s.installed[|s.installed| - 1]))
    && (Held(s.pc) >= 0 ==>
          && Held(s.pc) in table && s.shared.os.connections != []
          && table[Held(s.pc)] == Client(|s.shared.os.connections| - 1)
          && (s.installed != [] ==> s.installed[|s.installed| - 1] < |s.shared.os.connections| - 1))
    && (s.pc.HoldingAccepted? || s.pc.HoldingExtra? ==> s.pc.fd >= 0)
    && (forall fd :: fd in table ==>
          fd >= 0 && (fd == s.shared.listenerFd || fd == s.shared.activeFd || fd == Held(s.pc)))
  }

  /** Each connection has been closed once, unless it is still active or held; nothing else was closed. */
  predicate ClosedOnce(s: Ipc) {
    var os := s.shared.os;
    && (forall c :: 0 <= c < |os.connections| ==>
          os.connections[c].closes == if IsActive(s, c) || IsHeld(s, c) then 0 else 1)
    && os.listenerCloses == (if s.shared.listenerFd >= 0 then 0 else 1)
    && os.unlinks == (if s.shared.bound then 0 else 1)
    && os.strayCloses == 0 && os.strayWrites == 0
  }

  /** What the local variables of the IPC thread still say about the shared state. */
  predicate Locals(s: Ipc) {
    && (s.shared.bound <==> s.shared.listenerFd >= 0)
    && (s.shared.listenerFd < 0 || s.pc.Leaving? || s.pc.Done? ==> s.shared.stopping)
    && (s.pc.BeforeReceive? || s.pc.AfterFailedReceive? ==>
          && s.pc.fd >= 0 && s.pc.fd != s.shared.listenerFd
          && (s.shared.activeFd == s.pc.fd || s.shared.activeFd < 0))
    && (s.pc.BeforeReceive? || s.pc.AfterFailedReceive? || s.pc.Splitting? ==>
          s.pc.clientGeneration == s.shared.generation)
    && (s.pc.Done? ==> s.shared.activeFd < 0 && s.shared.listenerFd < 0)
  }

  predicate Descriptors(s: Ipc) {
    InstalledInOrder(s) && TableExact(s) && ClosedOnce(s) && Locals(s)
  }

  predicate LocalEvent(e: Event) {
    e in {CheckStopping, Snapshot, PollReturnsNothing, SkipAccept, AcceptFails, SecondSnapshot, ReceiveFails,
          SplitLine, FinishSplitting}
    || e.PollReturns?
  }

  lemma LocalKeepsLocals(s: Ipc, e: Event)
    requires Shaped(s) && Enabled(s, e) && TableExact(s) && Locals(s) && LocalEvent(e)
    ensures Locals(Step(s, e)) && Step(s, e).shared == s.shared && Step(s, e).installed == s.installed
    ensures Held(s.pc) == -1 && !Step(s, e).pc.HoldingAccepted? && !Step(s, e).pc.HoldingExtra?
  {
  }

  lemma LocalKeepsDescriptors(s: Ipc, e: Event)
    requires Shaped(s) && Enabled(s, e) && Descriptors(s) && LocalEvent(e)
    ensures Descriptors(Step(s, e))
  {
    hide Step, Enabled, Locals;
    LocalKeepsLocals(s, e);
  }

  lemma AcceptKeepsDescriptors(s: Ipc, fd: int)
    requires Shaped(s) && Enabled(s, AcceptReturns(fd)) && Descriptors(s)
    ensures Descriptors(Step(s, AcceptReturns(fd)))
  {
  }

  lemma InstallKeepsDescriptors(s: Ipc)
    requires Shaped(s) && Enabled(s, InstallOrRefuse) && Descriptors(s)
    ensures Descriptors(Step(s, InstallOrRefuse))
  {
  }

  lemma CloseExtraKeepsDescriptors(s: Ipc)
    requires Shaped(s) && Enabled(s, CloseExtra) && Descriptors(s)
    ensures Descriptors(Step(s, CloseExtra))
  {
  }

  lemma ReceiveKeepsDescriptors(s: Ipc, chunk: string)
    requires Shaped(s) && Enabled(s, ReceiveReturns(chunk)) && Descriptors(s)
    ensures Descriptors(Step(s, ReceiveReturns(chunk)))
  {
  }

  lemma DropKeepsDescriptors(s: Ipc)
    requires Shaped(s) && Enabled(s, DropAfterFailure) && Descriptors(s)
    ensures Descriptors(Step(s, DropAfterFailure))
  {
  }

  lemma FinishKeepsDescriptors(s: Ipc)
    requires Shaped(s) && Enabled(s, Finish) && Descriptors(s)
    ensures Descriptors(Step(s, Finish))
  {
  }

  lemma StopKeepsDescriptors(s: Ipc)
    requires Shaped(s) && Descriptors(s)
    ensures Descriptors(Step(s, StopRequested))
  {
  }

  lemma SendEffect(s: Ipc, clientGeneration: nat, serialized: string, outcomes: seq<SendReturn>)
    requires Shaped(s) && Decides(|serialized|, outcomes)
    ensures Step(s, Send(clientGeneration, serialized, outcomes)).shared.activeFd ==
            if ClosesClient(s.shared, clientGeneration, serialized, outcomes) then -1 else s.shared.activeFd
    ensures ClosesClient(s.shared, clientGeneration, serialized, outcomes) ==> Fails in outcomes
  {
    OnlyFailureTruncates(|serialized|, outcomes);
  }

  lemma SendKeepsDescriptors(s: Ipc, clientGeneration: nat, serialized: string, outcomes: seq<SendReturn>)
    requires Shaped(s) && Descriptors(s) && Decides(|serialized|, outcomes)
    ensures Descriptors(Step(s, Send(clientGeneration, serialized, outcomes)))
    ensures Step(s, Send(clientGeneration, serialized, outcomes)).shared.activeFd ==
            if ClosesClient(s.shared, clientGeneration, serialized, outcomes) then -1 else s.shared.activeFd
    ensures ClosesClient(s.shared, clientGeneration, serialized, outcomes) ==> Fails in outcomes
  {
    hide Transmitted, Decides;
    SendEffect(s, clientGeneration, serialized, outcomes);
  }

  /** The send is for the active client, and does not get the whole message out. */
  predicate ClosesClient(s: Shared, clientGeneration: nat, serialized: string, outcomes: seq<SendReturn>)
    requires Decides(|serialized|, outcomes)
  {
    s.activeFd >= 0 && s.generation == clientGeneration && Transmitted(|serialized|, outcomes) < |serialized|
  }

  // ---------- Bytes and lines ----------

  /** The connection installed as generation i + 1. */
  function ConnectionAt(s: Ipc, i: nat): Connection
    requires InstalledInOrder(s) && i < |s.installed|
  {
    s.shared.os.connections[s.installed[i]]
  }

  predicate Live(s: Ipc, g: nat) {
    s.shared.activeFd >= 0 && g == s.shared.generation
  }

  /** Whether the buffer is still the unfinished tail of what the current generation sent. */
  predicate BufferCurrent(s: Ipc) {
    s.shared.generation > 0 && (s.shared.activeFd >= 0 || s.pc.BeforeReceive? || s.pc.Splitting?)
  }

  /** Under each generation, the lines dispatched are the lines of the bytes heard under it. */
  predicate Framed(s: Ipc)
    requires Shaped(s)
  {
    var n := s.shared.generation;
    && (forall i :: 0 <= i < n - 1 ==> s.dispatched[i] == Lines(s.heard[i]))
    && (n > 0 ==> s.dispatched[n - 1] + Lines(s.buffer) == Lines(s.heard[n - 1]))
    && (!s.pc.Splitting? ==> OneLine(s.buffer))
    && (BufferCurrent(s) ==> Rest(s.buffer) == Rest(s.heard[n - 1]))
  }

  /**
   What was heard under a generation is what its connection sent, and more only if a read went
   stale, which happens only to a generation that is closed already.
   */
  predicate HeardIsReceived(s: Ipc)
    requires Shaped(s) && InstalledInOrder(s)
  {
    && (forall i: nat :: i < s.shared.generation ==>
          if i + 1 in s.stale then ConnectionAt(s, i).received < s.heard[i]
          else ConnectionAt(s, i).received == s.heard[i])
    && (forall g :: g in s.stale ==> 1 <= g <= s.shared.generation && !Live(s, g))
  }

  /** A connection that was never installed is neither read from nor written to. */
  predicate OthersSilent(s: Ipc) {
    forall c :: 0 <= c < |s.shared.os.connections| && c !in s.installed ==>
      s.shared.os.connections[c].received == "" && s.shared.os.connections[c].sent == ""
  }

  predicate Inv(s: Ipc) {
    Shaped(s) && Descriptors(s) && Framed(s) && HeardIsReceived(s) && OthersSilent(s)
  }

  lemma StartedInv(listenerFd: int)
    requires listenerFd >= 0
    ensures Inv(Started(listenerFd))
  {
  }

  // ---------- Each step keeps the framing ----------

  lemma LocalKeepsFraming(s: Ipc, e: Event)
    requires Inv(s) && Enabled(s, e) && LocalEvent(e) && e != SplitLine
    ensures Framed(Step(s, e))
  {
    hide Lines, Rest, OneLine;
  }

  lemma PcGeneration(s: Ipc)
    requires Descriptors(s)
    ensures s.pc.BeforeReceive? || s.pc.AfterFailedReceive? || s.pc.Splitting? ==>
              s.pc.clientGeneration == s.shared.generation
  {
  }

  lemma SplitLineKeepsFraming(s: Ipc)
    requires Inv(s) && Enabled(s, SplitLine)
    ensures Framed(Step(s, SplitLine))
  {
    hide Lines, Rest, FindNewline, StripCR, Descriptors, HeardIsReceived, OthersSilent;
    assert s.buffer[..|s.buffer|] == s.buffer;
    SplitStepLines(s.buffer);
    PcGeneration(s);
    var n := FindNewline(s.buffer);
    var g := s.pc.clientGeneration;
    MoveLine(s.dispatched[g - 1], StripCR(s.buffer[..n]), Lines(s.buffer[n + 1..]));
  }

  lemma MoveLine(lines: seq<string>, line: string, rest: seq<string>)
    ensures lines + ([line] + rest) == (lines + [line]) + rest
  {
  }

  lemma SplitStepLines(b: string)
    requires FindNewline(b) < |b|
    ensures var n := FindNewline(b);
            && Rest(b) == Rest(b[n + 1..])
            && Lines(b) == [StripCR(b[..n])] + Lines(b[n + 1..])
  {
    SplitStep(b);
  }

  lemma InstallKeepsFraming(s: Ipc)
    requires Inv(s) && Enabled(s, InstallOrRefuse)
    ensures Framed(Step(s, InstallOrRefuse))
  {
    SplitNothing("");
    SplitNothing(s.buffer);
    hide Lines, Rest, Descriptors, HeardIsReceived, OthersSilent;
  }

  lemma ReceiveKeepsFraming(s: Ipc, chunk: string)
    requires Inv(s) && Enabled(s, ReceiveReturns(chunk))
    ensures Framed(Step(s, ReceiveReturns(chunk)))
  {
    hide Lines, Rest, RawLines, StripAll, Descriptors, HeardIsReceived, OthersSilent, Receive;
    PcGeneration(s);
    var g := s.pc.clientGeneration;
    var heard := s.heard[g - 1];
    SplitNothing(s.buffer);
    assert Rest(heard) == s.buffer;
    LinesAppend(heard, chunk);
    SplitAppend(heard, chunk);
    assert s.dispatched[g - 1] + [] == s.dispatched[g - 1];
    assert s.dispatched[g - 1] == Lines(heard);
  }

  lemma DropKeepsFraming(s: Ipc)
    requires Inv(s) && Enabled(s, DropAfterFailure)
    ensures Framed(Step(s, DropAfterFailure))
  {
    SplitNothing("");
    SplitNothing(s.buffer);
    hide Lines, Rest, HeardIsReceived, OthersSilent, TableExact, ClosedOnce;
  }

  predicate SharedEvent(e: Event) {
    e.AcceptReturns? || e.CloseExtra? || e.Finish? || e.Send? || e.StopRequested?
  }

  lemma SharedKeepsFraming(s: Ipc, e: Event)
    requires Inv(s) && Enabled(s, e) && SharedEvent(e)
    ensures Framed(Step(s, e))
  {
    hide Lines, Rest, OneLine, Transmitted, Decides, Write, Close;
  }

  // ---------- Each step keeps what was heard ----------

  lemma LocalChangesNothingShared(s: Ipc, e: Event)
    requires Shaped(s) && Enabled(s, e) && LocalEvent(e)
    ensures var s' := Step(s, e);
            s'.shared == s.shared && s'.installed == s.installed && s'.heard == s.heard && s'.stale == s.stale
  {
  }

  lemma SameHeard(s: Ipc, s': Ipc)
    requires Shaped(s) && Shaped(s') && InstalledInOrder(s) && HeardIsReceived(s) && OthersSilent(s)
    requires s'.shared == s.shared && s'.installed == s.installed && s'.heard == s.heard && s'.stale == s.stale
    ensures InstalledInOrder(s') && HeardIsReceived(s') && OthersSilent(s')
  {
  }

  lemma LocalKeepsHeard(s: Ipc, e: Event)
    requires Inv(s) && Enabled(s, e) && LocalEvent(e)
    ensures InstalledInOrder(Step(s, e)) && HeardIsReceived(Step(s, e)) && OthersSilent(Step(s, e))
  {
    hide Step, Enabled, Framed, HeardIsReceived, OthersSilent, TableExact, ClosedOnce, Locals;
    LocalChangesNothingShared(s, e);
    SameHeard(s, Step(s, e));
  }

  lemma InstallKeepsHeard(s: Ipc)
    requires Inv(s) && Enabled(s, InstallOrRefuse)
    ensures InstalledInOrder(Step(s, InstallOrRefuse))
    ensures HeardIsReceived(Step(s, InstallOrRefuse)) && OthersSilent(Step(s, InstallOrRefuse))
  {
    hide Framed, ClosedOnce;
  }

  lemma ReceiveKeepsHeard(s: Ipc, chunk: string)
    requires Inv(s) && Enabled(s, ReceiveReturns(chunk))
    ensures InstalledInOrder(Step(s, ReceiveReturns(chunk)))
    ensures HeardIsReceived(Step(s, ReceiveReturns(chunk))) && OthersSilent(Step(s, ReceiveReturns(chunk)))
  {
    hide Framed, ClosedOnce;
    PcGeneration(s);
    var g := s.pc.clientGeneration;
    var s' := Step(s, ReceiveReturns(chunk));
    forall i: nat | i < s.shared.generation && i != g - 1
      ensures ConnectionAt(s', i) == ConnectionAt(s, i)
    {
    }
  }

  lemma AcceptKeepsHeard(s: Ipc, fd: int)
    requires Inv(s) && Enabled(s, AcceptReturns(fd))
    ensures InstalledInOrder(Step(s, AcceptReturns(fd)))
    ensures HeardIsReceived(Step(s, AcceptReturns(fd))) && OthersSilent(Step(s, AcceptReturns(fd)))
  {
  }

  /** Closing descriptors changes no byte counts, and can only end a generation. */
  predicate OnlyCloses(s: Ipc, s': Ipc)
    requires Shaped(s) && Shaped(s')
  {
    && s'.installed == s.installed && s'.heard == s.heard && s'.stale == s.stale
    && s'.shared.generation == s.shared.generation
    && (s'.shared.activeFd >= 0 ==> s.shared.activeFd >= 0)
    && |s'.shared.os.connections| == |s.shared.os.connections|
    && forall c :: 0 <= c < |s.shared.os.connections| ==>
         && s'.shared.os.connections[c].received == s.shared.os.connections[c].received
         && s'.shared.os.connections[c].sent == s.shared.os.connections[c].sent
  }

  lemma OnlyClosesKeepsHeard(s: Ipc, s': Ipc)
    requires Inv(s) && Shaped(s') && OnlyCloses(s, s')
    ensures InstalledInOrder(s') && HeardIsReceived(s') && OthersSilent(s')
  {
    hide Framed, TableExact, ClosedOnce, Locals;
  }

  lemma CloseStepsOnlyClose(s: Ipc, e: Event)
    requires Inv(s) && Enabled(s, e)
    requires e.CloseExtra? || e.Finish? || e.StopRequested? || e.DropAfterFailure?
    ensures OnlyCloses(s, Step(s, e))
  {
    hide Framed, HeardIsReceived, OthersSilent, InstalledInOrder;
  }

  lemma SendKeepsHeard(s: Ipc, e: Event)
    requires Inv(s) && Enabled(s, e) && e.Send?
    ensures InstalledInOrder(Step(s, e)) && HeardIsReceived(Step(s, e)) && OthersSilent(Step(s, e))
  {
    hide Framed, ClosedOnce, Transmitted, Decides;
  }

  lemma StepKeeps(s: Ipc, e: Event)
    requires Inv(s) && Enabled(s, e)
    ensures Inv(Step(s, e))
  {
    StepKeepsDescriptors(s, e);
    hide Descriptors, Framed, HeardIsReceived, OthersSilent, InstalledInOrder;
    if LocalEvent(e) {
      if e == SplitLine { SplitLineKeepsFraming(s); } else { LocalKeepsFraming(s, e); }
      LocalKeepsHeard(s, e);
    } else if e.InstallOrRefuse? {
      InstallKeepsFraming(s);
      InstallKeepsHeard(s);
    } else if e.ReceiveReturns? {
      ReceiveKeepsFraming(s, e.chunk);
      ReceiveKeepsHeard(s, e.chunk);
    } else {
      if e.DropAfterFailure? { DropKeepsFraming(s); } else { SharedKeepsFraming(s, e); }
      if e.AcceptReturns? {
        AcceptKeepsHeard(s, e.fd);
      } else if e.Send? {
        SendKeepsHeard(s, e);
      } else {
        CloseStepsOnlyClose(s, e);
        OnlyClosesKeepsHeard(s, Step(s, e));
      }
    }
  }

  lemma StepKeepsDescriptors(s: Ipc, e: Event)
    requires Shaped(s) && Descriptors(s) && Enabled(s, e)
    ensures Descriptors(Step(s, e))
  {
    hide Descriptors;
    match e
    case AcceptReturns(fd) => AcceptKeepsDescriptors(s, fd);
    case InstallOrRefuse => InstallKeepsDescriptors(s);
    case CloseExtra => CloseExtraKeepsDescriptors(s);
    case ReceiveReturns(chunk) => ReceiveKeepsDescriptors(s, chunk);
    case DropAfterFailure => DropKeepsDescriptors(s);
    case Finish => FinishKeepsDescriptors(s);
    case Send(g, serialized, outcomes) => SendKeepsDescriptors(s, g, serialized, outcomes);
    case StopRequested => StopKeepsDescriptors(s);
    case _ => LocalKeepsDescriptors(s, e);
  }
}
