/**
 One round of the IPC thread's loop as the program runs it, with the main thread's calls in between.
 Whatever poll, accept and recv return, and wherever the other thread comes in, the round is a run of
 IpcMachine, so that what is proved of its runs holds of the loop.
 */
module IpcLoopClass {
  import opened Wrappers
  import opened Kernel
  import opened IpcTransport
  import opened IpcMachine
  import opened IpcTransportClass
  import opened Framing

  /** The events of the main thread. */
  predicate OfMainThread(e: Event) {
    e.StopRequested? || (e.Send? && Decides(|e.serialized|, e.outcomes))
  }

  predicate AllOfMainThread(events: seq<Event>) {
    forall i :: 0 <= i < |events| ==> OfMainThread(events[i])
  }

  /**
   What poll reports of the listener and of the client, and what accept and recv return if they are
   called. accept cannot return a number that is in use at that moment: it then counts as failed.
   */
  datatype Io = Io(poll: Option<(bool, bool)>, accepted: int, received: Option<string>)

  /** The step is the one that the system calls' results ask for. */
  predicate AsReported(s: Ipc, e: Event, io: Io) {
    match e
    case PollReturnsNothing => io.poll.None?
    case PollReturns(listenerReady, clientReady) =>
      && io.poll.Some? && s.pc.BeforePoll?
      && listenerReady == (s.pc.listener >= 0 && io.poll.value.0)
      && clientReady == (s.pc.client >= 0 && io.poll.value.1)
    case AcceptFails => io.accepted < 0 || io.accepted in s.shared.os.table
    case AcceptReturns(fd) => io.accepted == fd
    case ReceiveFails => io.received.None?
    case ReceiveReturns(chunk) => io.received == Some(chunk)
    case _ => true
  }

  predicate AllAsReported(s: Ipc, trace: seq<Event>, io: Io)
    requires Shaped(s) && AllEnabled(s, trace)
    decreases |trace|
  {
    trace == [] || (AsReported(s, trace[0], io) && AllAsReported(Step(s, trace[0]), trace[1..], io))
  }

  /** The steps lead from one state to the other, as the system calls report. */
  ghost predicate Takes(s: Ipc, trace: seq<Event>, s': Ipc, io: Io) {
    Shaped(s) && AllEnabled(s, trace) && AllAsReported(s, trace, io) && Run(s, trace) == s'
  }

  /** How often the loop condition was tested. */
  function Checks(trace: seq<Event>): nat
    decreases |trace|
  {
    if trace == [] then 0
    else Checks(trace[..|trace| - 1]) + if trace[|trace| - 1].CheckStopping? then 1 else 0
  }

  lemma {:induction false} TakesOne(s: Ipc, trace: seq<Event>, before: Ipc, e: Event, after: Ipc, io: Io)
    requires Takes(s, trace, before, io) && Shaped(before) && Enabled(before, e) && Step(before, e) == after
    requires AsReported(before, e, io)
    ensures Takes(s, trace + [e], after, io)
    ensures Checks(trace + [e]) == Checks(trace) + if e.CheckStopping? then 1 else 0
    decreases |trace|
  {
    hide Step, Enabled, Shaped, AsReported;
    assert (trace + [e])[..|trace|] == trace;
    if trace == [] {
      assert trace + [e] == [e] && [e][1..] == [];
      assert AllEnabled(after, []) && Run(after, []) == after && AllAsReported(after, [], io);
    } else {
      assert (trace + [e])[1..] == trace[1..] + [e];
      TakesOne(Step(s, trace[0]), trace[1..], before, e, after, io);
    }
  }

  /** What happens in one round: the system calls' results, and the main thread's calls at each point. */
  datatype Visit = Visit(io: Io, calls: nat -> seq<Event>)

  ghost predicate Ordinary(v: Visit) {
    && (forall k :: AllOfMainThread(v.calls(k)))
    && (v.io.received.Some? ==> 1 <= |v.io.received.value| <= 4096)
  }

  /** The rounds lead from one state to the other: each passes the loop condition once and does as reported. */
  ghost predicate Serves(s: Ipc, visits: seq<Visit>, s': Ipc)
    decreases |visits|
  {
    if visits == [] then s == s'
    else
      var n := |visits| - 1;
      exists before: Ipc, trace: seq<Event> ::
        Serves(s, visits[..n], before) && Takes(before, trace, s', visits[n].io) && Checks(trace) == 1
  }

  lemma ServesOne(s: Ipc, visits: seq<Visit>, v: Visit, before: Ipc, trace: seq<Event>, s': Ipc)
    requires Serves(s, visits, before) && Takes(before, trace, s', v.io) && Checks(trace) == 1
    ensures Serves(s, visits + [v], s')
  {
    hide Takes, Checks;
    assert (visits + [v])[..|visits|] == visits;
  }

  /** Any number of rounds is a run of the machine. */
  lemma {:induction false} ServesRuns(s: Ipc, visits: seq<Visit>, s': Ipc) returns (trace: seq<Event>)
    requires Shaped(s) && Serves(s, visits, s')
    ensures AllEnabled(s, trace) && Run(s, trace) == s' && Checks(trace) == |visits|
    decreases |visits|
  {
    hide Shaped, Checks;
    if visits == [] {
      trace := [];
      assert Checks([]) == 0 by { NoChecks(); }
    } else {
      var n := |visits| - 1;
      var before: Ipc, last: seq<Event> :|
        Serves(s, visits[..n], before) && Takes(before, last, s', visits[n].io) && Checks(last) == 1;
      var first := ServesRuns(s, visits[..n], before);
      RunOnward(s, first, last);
      ChecksOnward(first, last);
      trace := first + last;
    }
  }

  lemma NoChecks()
    ensures Checks([]) == 0
  {
  }

  lemma {:induction false} RunOnward(s: Ipc, a: seq<Event>, b: seq<Event>)
    requires Shaped(s) && AllEnabled(s, a) && AllEnabled(Run(s, a), b)
    ensures AllEnabled(s, a + b) && Run(s, a + b) == Run(Run(s, a), b)
    decreases |a|
  {
    hide Step, Enabled, Shaped;
    if a == [] {
      assert a + b == b;
    } else {
      assert (a + b)[1..] == a[1..] + b;
      RunOnward(Step(s, a[0]), a[1..], b);
    }
  }

  lemma {:induction false} ChecksOnward(a: seq<Event>, b: seq<Event>)
    ensures Checks(a + b) == Checks(a) + Checks(b)
    decreases |b|
  {
    if b == [] {
      assert a + b == a;
    } else {
      var n := |b| - 1;
      assert (a + b)[..|a| + n] == a + b[..n];
      ChecksOnward(a, b[..n]);
    }
  }

  lemma NoMoreLines(s: Ipc)
    requires Shaped(s) && s.pc.Splitting? && FindNewline(s.buffer) == |s.buffer|
    ensures Enabled(s, FinishSplitting) && Step(s, FinishSplitting) == s.(pc := Top)
  {
    assert s.buffer[..|s.buffer|] == s.buffer;
  }

  class IpcThread {
    const transport: MCPIPCTransport
    var buffer: string
    ghost var pc: Pc
    ghost var installed: seq<nat>
    ghost var heard: seq<string>
    ghost var dispatched: seq<seq<string>>
    ghost var stale: set<nat>

    ghost function Current(): Ipc
      reads this, transport
    {
      Ipc(transport.State(), pc, buffer, installed, heard, dispatched, stale)
    }

    constructor (transport: MCPIPCTransport)
      ensures this.transport == transport && buffer == "" && pc == Top
      ensures installed == [] && heard == [] && dispatched == [] && stale == {}
    {
      this.transport := transport;
      buffer, pc, installed, heard, dispatched, stale := "", Top, [], [], [], {};
    }

    /** The main thread's calls that come in at one point of the loop. */
    method Meanwhile(ghost io: Io, ghost start: Ipc, ghost before: seq<Event>, calls: seq<Event>)
      returns (ghost trace: seq<Event>)
      requires Takes(start, before, Current(), io) && Shaped(Current()) && AllOfMainThread(calls)
      modifies transport
      ensures Takes(start, trace, Current(), io) && Checks(trace) == Checks(before) && Shaped(Current())
      ensures trace == before + calls
      ensures transport.os.table.Keys <= old(transport.os.table.Keys)
    {
      hide Takes, Shaped, Checks, OfMainThread;
      trace := before;
      for i := 0 to |calls|
        invariant trace == before + calls[..i]
        invariant Takes(start, trace, Current(), io) && Checks(trace) == Checks(before) && Shaped(Current())
        invariant transport.os.table.Keys <= old(transport.os.table.Keys)
      {
        Call(io, start, trace, calls[i]);
        trace := trace + [calls[i]];
      }
    }

    /** One call of the main thread. */
    method Call(ghost io: Io, ghost start: Ipc, ghost before: seq<Event>, call: Event)
      requires Takes(start, before, Current(), io) && Shaped(Current()) && OfMainThread(call)
      modifies transport
      ensures Takes(start, before + [call], Current(), io) && Shaped(Current())
      ensures Checks(before + [call]) == Checks(before)
      ensures transport.os.table.Keys <= old(transport.os.table.Keys)
    {
      hide Takes;
      ghost var s := Current();
      match call {
        case Send(clientGeneration, serialized, outcomes) =>
          transport.SendSerializedResponse(clientGeneration, serialized, outcomes);
        case StopRequested => transport.Destroy();
      }
      TakesOne(start, before, s, call, Current(), io);
    }

    /** accept(2) returned: the client is installed, or closed at once if there is one already. */
    method AcceptClient(ghost io: Io, ghost start: Ipc, ghost before: seq<Event>, accepted: int,
            ghost clientReady: bool, calls: nat -> seq<Event>) returns (ghost trace: seq<Event>)
      requires Takes(start, before, Current(), io) && Shaped(Current()) && forall k :: AllOfMainThread(calls(k))
      requires pc.AfterPoll? && pc.listener >= 0 && pc.listenerReady && pc.clientReady == clientReady
      requires accepted == io.accepted
      modifies this, transport
      ensures Takes(start, trace, Current(), io) && Checks(trace) == Checks(before)
      ensures Shaped(Current()) && pc == BeforeSecondSnapshot(clientReady)
    {
      hide Takes, AllOfMainThread;
      trace := Meanwhile(io, start, before, calls(3));
      ghost var s := Current();
      if accepted < 0 || accepted in transport.os.table {
        pc := BeforeSecondSnapshot(clientReady);
        TakesOne(start, trace, s, AcceptFails, Current(), io);
        trace := trace + [AcceptFails];
        return;
      }
      transport.os := Accept(transport.os, accepted);
      pc := HoldingAccepted(accepted, clientReady);
      TakesOne(start, trace, s, AcceptReturns(accepted), Current(), io);
      trace := Meanwhile(io, start, trace + [AcceptReturns(accepted)], calls(4));
      var closeExtraClient;
      closeExtraClient, trace := InstallClient(io, start, trace, accepted, clientReady);
      if closeExtraClient {
        trace := CloseExtraClient(io, start, trace, accepted, clientReady, calls);
      }
    }

    method InstallClient(ghost io: Io, ghost start: Ipc, ghost before: seq<Event>, accepted: int,
            ghost clientReady: bool)
      returns (closeExtraClient: bool, ghost trace: seq<Event>)
      requires Takes(start, before, Current(), io) && Shaped(Current()) && pc == HoldingAccepted(accepted, clientReady)
      modifies this, transport
      ensures Takes(start, trace, Current(), io) && Checks(trace) == Checks(before) && Shaped(Current())
      ensures pc == if closeExtraClient then HoldingExtra(accepted, clientReady) else BeforeSecondSnapshot(clientReady)
    {
      hide Takes, ConnectionOf;
      ghost var s := Current();
      ghost var connection := ConnectionOf(transport.os, accepted);
      closeExtraClient := transport.InstallAccepted(accepted);
      if closeExtraClient {
        pc := HoldingExtra(accepted, clientReady);
      } else {
        buffer := "";
        pc := BeforeSecondSnapshot(clientReady);
        installed, heard, dispatched := installed + [connection], heard + [""], dispatched + [[]];
      }
      TakesOne(start, before, s, InstallOrRefuse, Current(), io);
      trace := before + [InstallOrRefuse];
    }

    method CloseExtraClient(ghost io: Io, ghost start: Ipc, ghost before: seq<Event>, accepted: int,
            ghost clientReady: bool, calls: nat -> seq<Event>) returns (ghost trace: seq<Event>)
      requires Takes(start, before, Current(), io) && Shaped(Current()) && forall k :: AllOfMainThread(calls(k))
      requires pc == HoldingExtra(accepted, clientReady)
      modifies this, transport
      ensures Takes(start, trace, Current(), io) && Checks(trace) == Checks(before)
      ensures Shaped(Current()) && pc == BeforeSecondSnapshot(clientReady)
    {
      hide Takes, AllOfMainThread;
      trace := Meanwhile(io, start, before, calls(5));
      ghost var s := Current();
      transport.os := Close(transport.os, accepted);
      pc := BeforeSecondSnapshot(clientReady);
      TakesOne(start, trace, s, CloseExtra, Current(), io);
      trace := trace + [CloseExtra];
    }

    /** recv(2) failed or the client hung up: it is closed if it is still the active one. */
    method DropClient(ghost io: Io, ghost start: Ipc, ghost before: seq<Event>, clientSnapshot: int,
            ghost clientGeneration: nat, calls: nat -> seq<Event>) returns (ghost trace: seq<Event>)
      requires Takes(start, before, Current(), io) && Shaped(Current()) && forall k :: AllOfMainThread(calls(k))
      requires pc == BeforeReceive(clientSnapshot, clientGeneration) && io.received.None?
      modifies this, transport
      ensures Takes(start, trace, Current(), io) && Checks(trace) == Checks(before) && Shaped(Current()) && pc.Top?
    {
      hide Takes, AllOfMainThread;
      ghost var s := Current();
      pc := AfterFailedReceive(clientSnapshot, clientGeneration);
      TakesOne(start, before, s, ReceiveFails, Current(), io);
      trace := Meanwhile(io, start, before + [ReceiveFails], calls(8));
      trace := DropActive(io, start, trace, clientSnapshot, clientGeneration);
    }

    method DropActive(ghost io: Io, ghost start: Ipc, ghost before: seq<Event>, clientSnapshot: int,
                      ghost clientGeneration: nat) returns (ghost trace: seq<Event>)
      requires Takes(start, before, Current(), io) && Shaped(Current())
      requires pc == AfterFailedReceive(clientSnapshot, clientGeneration)
      modifies this, transport
      ensures Takes(start, trace, Current(), io) && Checks(trace) == Checks(before) && Shaped(Current()) && pc.Top?
    {
      hide Takes;
      ghost var s := Current();
      transport.CloseAfterFailedRead(clientSnapshot);
      buffer := "";
      pc := Top;
      TakesOne(start, before, s, DropAfterFailure, Current(), io);
      trace := before + [DropAfterFailure];
    }

    /** The chunk goes to the buffer, and every complete line is dispatched with its generation. */
    method TakeChunk(ghost io: Io, ghost start: Ipc, ghost before: seq<Event>, chunk: string, clientSnapshot: int,
                     clientGeneration: nat, calls: nat -> seq<Event>) returns (ghost trace: seq<Event>)
      requires Takes(start, before, Current(), io) && Shaped(Current()) && forall k :: AllOfMainThread(calls(k))
      requires pc == BeforeReceive(clientSnapshot, clientGeneration)
      requires 1 <= |chunk| <= 4096 && io.received == Some(chunk)
      modifies this, transport
      ensures Takes(start, trace, Current(), io) && Checks(trace) == Checks(before) && Shaped(Current()) && pc.Top?
    {
      hide Takes, AllOfMainThread, FindNewline;
      ghost var s := Current();
      ghost var after := Step(s, ReceiveReturns(chunk));
      buffer := buffer + chunk;
      transport.os := Receive(transport.os, clientSnapshot, chunk);
      pc, heard, stale := after.pc, after.heard, after.stale;
      TakesOne(start, before, s, ReceiveReturns(chunk), Current(), io);
      trace := DispatchLines(io, start, before + [ReceiveReturns(chunk)], clientGeneration, calls);
    }

    /** The buffer holds the bytes read so far; its complete lines are taken off its front. */
    method DispatchLines(ghost io: Io, ghost start: Ipc, ghost before: seq<Event>, clientGeneration: nat,
            calls: nat -> seq<Event>)
      returns (ghost trace: seq<Event>)
      requires Takes(start, before, Current(), io) && Shaped(Current()) && forall k :: AllOfMainThread(calls(k))
      requires pc == Splitting(clientGeneration)
      modifies this, transport
      ensures Takes(start, trace, Current(), io) && Checks(trace) == Checks(before) && Shaped(Current()) && pc.Top?
    {
      hide Takes, AllOfMainThread, FindNewline, Shaped, OneLine;
      trace := before;
      var n := 8;
      var newlinePosition := FindNewline(buffer);
      while newlinePosition < |buffer|
        invariant Takes(start, trace, Current(), io) && Checks(trace) == Checks(before) && Shaped(Current())
        invariant pc == Splitting(clientGeneration) && newlinePosition == FindNewline(buffer)
        decreases |buffer|
      {
        trace := Meanwhile(io, start, trace, calls(n));
        trace := DispatchLine(io, start, trace, newlinePosition, clientGeneration);
        n := n + 1;
        newlinePosition := FindNewline(buffer);
      }
      ghost var s := Current();
      pc := Top;
      NoMoreLines(s);
      TakesOne(start, trace, s, FinishSplitting, Current(), io);
      trace := trace + [FinishSplitting];
    }

    method DispatchLine(ghost io: Io, ghost start: Ipc, ghost before: seq<Event>, newlinePosition: nat,
            clientGeneration: nat)
      returns (ghost trace: seq<Event>)
      requires Takes(start, before, Current(), io) && Shaped(Current())
      requires pc == Splitting(clientGeneration) && newlinePosition == FindNewline(buffer) < |buffer|
      modifies this
      ensures Takes(start, trace, Current(), io) && Checks(trace) == Checks(before) && Shaped(Current())
      ensures pc == old(pc) && |buffer| < |old(buffer)|
    {
      hide Takes, FindNewline;
      ghost var s := Current();
      var line := buffer[..newlinePosition];
      if line != "" && line[|line| - 1] == '\r' {
        line := line[..|line| - 1];
      }
      buffer := buffer[newlinePosition + 1..];
      dispatched := dispatched[clientGeneration - 1 := dispatched[clientGeneration - 1] + [line]];
      TakesOne(start, before, s, SplitLine, Current(), io);
      trace := before + [SplitLine];
    }

    /** The second snapshot, and the read from the client if it has something to say. */
    method ReadClient(ghost io: Io, ghost start: Ipc, ghost before: seq<Event>, clientReady: bool,
            received: Option<string>, calls: nat -> seq<Event>) returns (ghost trace: seq<Event>)
      requires Takes(start, before, Current(), io) && Shaped(Current()) && forall k :: AllOfMainThread(calls(k))
      requires pc == BeforeSecondSnapshot(clientReady) && received == io.received
      requires received.Some? ==> 1 <= |received.value| <= 4096
      modifies this, transport
      ensures Takes(start, trace, Current(), io) && Checks(trace) == Checks(before) && Shaped(Current()) && pc.Top?
    {
      hide Takes, AllOfMainThread;
      trace := Meanwhile(io, start, before, calls(6));
      ghost var s := Current();
      var clientSnapshot, clientGeneration := transport.activeClientFd, transport.activeClientGeneration;
      pc := if clientSnapshot < 0 || !clientReady then Top else BeforeReceive(clientSnapshot, clientGeneration);
      TakesOne(start, trace, s, SecondSnapshot, Current(), io);
      trace := trace + [SecondSnapshot];
      if clientSnapshot < 0 || !clientReady {
        return;
      }
      trace := Meanwhile(io, start, trace, calls(7));
      if received.None? {
        trace := DropClient(io, start, trace, clientSnapshot, clientGeneration, calls);
      } else {
        trace := TakeChunk(io, start, trace, received.value, clientSnapshot, clientGeneration, calls);
      }
    }

    /** IsStopping and the first snapshot; `more` says whether there is anything to poll. */
    method TakeSnapshot(ghost io: Io, ghost start: Ipc, calls: nat -> seq<Event>)
      returns (more: bool, listenerSnapshot: int, clientSnapshot: int, ghost trace: seq<Event>)
      requires start == Current() && Takes(start, [], start, io) && pc.Top? && forall k :: AllOfMainThread(calls(k))
      requires Shaped(start)
      modifies this, transport
      ensures Takes(start, trace, Current(), io) && Checks(trace) == 1 && Shaped(Current())
      ensures pc == if more then BeforePoll(listenerSnapshot, clientSnapshot) else Leaving
      ensures transport.os.table.Keys <= old(transport.os.table.Keys)
    {
      hide Takes, AllOfMainThread;
      listenerSnapshot, clientSnapshot := -1, -1;
      trace := Meanwhile(io, start, [], calls(0));
      ghost var s := Current();
      more := !transport.stopping;
      pc := if more then BeforeSnapshot else Leaving;
      TakesOne(start, trace, s, CheckStopping, Current(), io);
      trace := trace + [CheckStopping];
      if !more {
        return;
      }
      trace := Meanwhile(io, start, trace, calls(1));
      s := Current();
      listenerSnapshot, clientSnapshot := transport.listenerFd, transport.activeClientFd;
      more := listenerSnapshot >= 0 || clientSnapshot >= 0;
      pc := if more then BeforePoll(listenerSnapshot, clientSnapshot) else Leaving;
      TakesOne(start, trace, s, Snapshot, Current(), io);
      trace := trace + [Snapshot];
    }

    /** poll returned: nothing, or what is ready is served. */
    method PollDescriptors(io: Io, ghost start: Ipc, ghost before: seq<Event>, listenerSnapshot: int,
            clientSnapshot: int, calls: nat -> seq<Event>) returns (ghost trace: seq<Event>)
      requires Takes(start, before, Current(), io) && Shaped(Current()) && forall k :: AllOfMainThread(calls(k))
      requires pc == BeforePoll(listenerSnapshot, clientSnapshot)
      requires io.received.Some? ==> 1 <= |io.received.value| <= 4096
      modifies this, transport
      ensures Takes(start, trace, Current(), io) && Checks(trace) == Checks(before) && Shaped(Current()) && pc.Top?
    {
      hide Takes, AllOfMainThread;
      trace := Meanwhile(io, start, before, calls(2));
      ghost var s := Current();
      if io.poll.None? {
        pc := Top;
        TakesOne(start, trace, s, PollReturnsNothing, Current(), io);
        trace := trace + [PollReturnsNothing];
        return;
      }
      var listenerReady := listenerSnapshot >= 0 && io.poll.value.0;
      var clientReady := clientSnapshot >= 0 && io.poll.value.1;
      pc := AfterPoll(listenerSnapshot, listenerReady, clientReady);
      TakesOne(start, trace, s, PollReturns(listenerReady, clientReady), Current(), io);
      trace := trace + [PollReturns(listenerReady, clientReady)];
      if listenerSnapshot >= 0 && listenerReady {
        trace := AcceptClient(io, start, trace, io.accepted, clientReady, calls);
      } else {
        s := Current();
        pc := BeforeSecondSnapshot(clientReady);
        TakesOne(start, trace, s, SkipAccept, Current(), io);
        trace := trace + [SkipAccept];
      }
      trace := ReadClient(io, start, trace, clientReady, io.received, calls);
    }

    /**
     One round, from IsStopping to the end of the body; `more` says whether the loop goes on. `calls(k)`
     is what the main thread does at the k-th point of the round.
     */
    method Round(io: Io, calls: nat -> seq<Event>) returns (more: bool, ghost trace: seq<Event>)
      requires Shaped(Current()) && pc.Top? && forall k :: AllOfMainThread(calls(k))
      requires io.received.Some? ==> 1 <= |io.received.value| <= 4096
      modifies this, transport
      ensures Takes(old(Current()), trace, Current(), io) && Checks(trace) == 1 && Shaped(Current())
      ensures if more then pc.Top? else pc.Leaving?
    {
      ghost var start := Current();
      assert Takes(start, [], start, io);
      hide Takes, AllOfMainThread;
      var listenerSnapshot: int, clientSnapshot: int;
      more, listenerSnapshot, clientSnapshot, trace := TakeSnapshot(io, start, calls);
      if !more {
        return;
      }
      trace := PollDescriptors(io, start, trace, listenerSnapshot, clientSnapshot, calls);
      more := true;
    }

    /** After the loop: everything is closed and the path is unlinked. */
    method Leave()
      requires Shaped(Current()) && pc.Leaving?
      modifies this, transport
      ensures Current() == old(Step(Current(), Finish)) && pc.Done?
    {
      transport.RequestStopLocked();
      pc := Done;
    }

    /**
     RunLoop: nothing without a listening socket; otherwise rounds until one ends the loop or the visits
     given are used up, and then the stop section. `left` says whether the loop has ended, and
     `atEnd` is the state in which it did.
     */
    method RunLoop(listenerFd: int, visits: seq<Visit>)
      returns (success: bool, left: bool, served: nat, ghost atEnd: Ipc)
      requires transport.State() == Shared(false, 0, -1, -1, false, Os(map[], [], 0, 0, 0, 0))
      requires buffer == "" && pc.Top? && installed == [] && heard == [] && dispatched == [] && stale == {}
      requires forall i :: 0 <= i < |visits| ==> Ordinary(visits[i])
      modifies this, transport
      ensures success <==> listenerFd >= 0
      ensures !success ==> Current() == old(Current()) && !left
      ensures success ==> served <= |visits| && Serves(Started(listenerFd), visits[..served], atEnd)
      ensures success && !left ==> served == |visits| && atEnd == Current() && pc.Top?
      ensures left ==> Shaped(atEnd) && atEnd.pc.Leaving? && Current() == Step(atEnd, Finish)
    {
      success, left, served, atEnd := false, false, 0, Current();
      if listenerFd < 0 {
        return;
      }
      transport.RecordListener(listenerFd);
      success := true;
      assert Current() == Started(listenerFd);
      atEnd := Current();
      hide Takes, Serves, Checks, Ordinary;
      assert Serves(Started(listenerFd), visits[..0], atEnd) by { ServesNone(atEnd); }
      while !left && served < |visits|
        invariant served <= |visits| && Shaped(atEnd) && atEnd == Current()
        invariant Serves(Started(listenerFd), visits[..served], atEnd)
        invariant if left then pc.Leaving? else pc.Top?
        decreases |visits| - served
      {
        IsOrdinary(visits[served]);
        var more: bool;
        ghost var trace: seq<Event>;
        more, trace := Round(visits[served].io, visits[served].calls);
        ServesOne(Started(listenerFd), visits[..served], visits[served], atEnd, trace, Current());
        assert visits[..served + 1] == visits[..served] + [visits[served]];
        atEnd := Current();
        left := !more;
        served := served + 1;
      }
      if left {
        Leave();
      }
    }
  }

  lemma ServesNone(s: Ipc)
    ensures Serves(s, [], s)
  {
  }

  lemma IsOrdinary(v: Visit)
    requires Ordinary(v)
    ensures (forall k :: AllOfMainThread(v.calls(k))) && (v.io.received.Some? ==> 1 <= |v.io.received.value| <= 4096)
  {
  }
}
