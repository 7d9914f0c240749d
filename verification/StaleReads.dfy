/**
 A run of the whole server in which a read goes stale. A client connects and makes a request; while the
 IPC thread is about to read from it again, the reply fails to be sent and the main thread closes the
 client; the read then succeeds on its number, and its bytes are dispatched in the client's name.
 */
module StaleReads {
  import opened Wrappers
  import opened Values
  import opened Framing
  import opened Kernel
  import opened IpcTransport
  import opened McpSystem
  import opened McpSystemRuns
  import Http = HttpTransport
  import Ipc = IpcMachine
  import IpcTheorems
  import Server = McpServer
  import ServerProofs = McpServerProofs

  // ---------- Composing runs ----------

  predicate Leads(s: System, events: seq<Event>, s': System, env: Env) {
    Possible(s, events, env) && After(s, events, env) == s'
  }

  lemma LeadsOne(s: System, e: Event, env: Env)
    requires Shaped(s) && Enabled(s, e, env)
    ensures Leads(s, [e], Step(s, e, env), env)
  {
    hide Shaped, Enabled, Step;
    var after := Step(s, e, env);
    assert [e][1..] == [] && Possible(after, [], env) && After(after, [], env) == after;
  }

  lemma {:induction false} LeadsOn(s: System, a: seq<Event>, s1: System, b: seq<Event>, s2: System, env: Env)
    requires Leads(s, a, s1, env) && Leads(s1, b, s2, env)
    ensures Leads(s, a + b, s2, env)
    decreases |a|
  {
    hide Shaped, Enabled, Step;
    if a == [] {
      assert a + b == b;
    } else {
      assert (a + b)[1..] == a[1..] + b;
      LeadsOn(Step(s, a[0], env), a[1..], s1, b, s2, env);
    }
  }

  /** Steps of the IPC thread that dispatch nothing. */
  predicate Local(e: Ipc.Event) {
    !e.SplitLine? && !e.Send? && !e.StopRequested?
  }

  function Lift(events: seq<Ipc.Event>): seq<Event> {
    if events == [] then [] else [IpcThread(events[0])] + Lift(events[1..])
  }

  lemma LocalStep(s: System, e: Ipc.Event, env: Env)
    requires Shaped(s) && Ipc.Enabled(s.ipc, e) && Local(e)
    ensures Enabled(s, IpcThread(e), env) && Step(s, IpcThread(e), env) == s.(ipc := Ipc.Step(s.ipc, e))
    ensures Shaped(s.(ipc := Ipc.Step(s.ipc, e)))
  {
    hide Ipc.Step, Ipc.Enabled, Ipc.Shaped;
  }

  lemma {:induction false} LocalSteps(s: System, events: seq<Ipc.Event>, env: Env)
    requires Shaped(s) && Ipc.AllEnabled(s.ipc, events) && forall i :: 0 <= i < |events| ==> Local(events[i])
    ensures Shaped(s.(ipc := Ipc.Run(s.ipc, events)))
    ensures Leads(s, Lift(events), s.(ipc := Ipc.Run(s.ipc, events)), env)
    decreases |events|
  {
    hide Ipc.Step, Ipc.Enabled, Ipc.Shaped, Local, Step, Enabled;
    if events == [] {
      assert s.(ipc := s.ipc) == s;
    } else {
      LocalStep(s, events[0], env);
      var next := s.(ipc := Ipc.Step(s.ipc, events[0]));
      LocalSteps(next, events[1..], env);
      LeadsOne(s, IpcThread(events[0]), env);
      LeadsOn(s, [IpcThread(events[0])], next, Lift(events[1..]), next.(ipc := Ipc.Run(next.ipc, events[1..])), env);
    }
  }

  // ---------- The stages of the run, for the IPC thread ----------

  /** One client has connected, on descriptor 5; the listener is descriptor 3. */
  function Connected(pc: Ipc.Pc, buffer: string, received: string, lines: seq<string>): Ipc.Ipc {
    Ipc.Ipc(Shared(false, 1, 3, 5, true,
                   Os(map[3 := Listening, 5 := File.Client(0)], [Connection(received, "", 0)], 0, 0, 0, 0)),
            pc, buffer, [0], [received], [lines], {})
  }

  const ACCEPT := [Ipc.CheckStopping, Ipc.Snapshot, Ipc.PollReturns(true, false), Ipc.AcceptReturns(5)]

  const INSTALL := [Ipc.InstallOrRefuse, Ipc.SecondSnapshot]

  const WAKE_UP := [Ipc.CheckStopping, Ipc.Snapshot, Ipc.PollReturns(false, true), Ipc.SkipAccept, Ipc.SecondSnapshot]

  predicate AllLocal(events: seq<Ipc.Event>) {
    forall i :: 0 <= i < |events| ==> Local(events[i])
  }

  /** The client is accepted and not yet installed. */
  function Accepted(): Ipc.Ipc {
    Connected(Ipc.Top, "", "", []).(
      shared := Connected(Ipc.Top, "", "", []).shared.(generation := 0, activeFd := -1),
      pc := Ipc.HoldingAccepted(5, false), installed := [], heard := [], dispatched := [])
  }

  lemma Accepts()
    ensures Ipc.Shaped(Ipc.Started(3)) && Ipc.AllEnabled(Ipc.Started(3), ACCEPT) && AllLocal(ACCEPT)
    ensures Ipc.Run(Ipc.Started(3), ACCEPT) == Accepted()
  {
    var s1 := Ipc.Step(Ipc.Started(3), Ipc.CheckStopping);
    var s2 := Ipc.Step(s1, Ipc.Snapshot);
    var s3 := Ipc.Step(s2, Ipc.PollReturns(true, false));
    assert Ipc.Step(s3, Ipc.AcceptReturns(5)).shared.os == Accepted().shared.os;
  }

  lemma Installs()
    ensures Ipc.Shaped(Accepted()) && Ipc.AllEnabled(Accepted(), INSTALL) && AllLocal(INSTALL)
    ensures Ipc.Run(Accepted(), INSTALL) == Connected(Ipc.Top, "", "", [])
  {
    var s1 := Ipc.Step(Accepted(), Ipc.InstallOrRefuse);
    assert Ipc.Step(s1, Ipc.SecondSnapshot) == Connected(Ipc.Top, "", "", []);
  }

  lemma WakesUp(received: string, lines: seq<string>)
    ensures Ipc.Shaped(Connected(Ipc.Top, "", received, lines)) && AllLocal(WAKE_UP)
    ensures Ipc.AllEnabled(Connected(Ipc.Top, "", received, lines), WAKE_UP)
    ensures Ipc.Run(Connected(Ipc.Top, "", received, lines), WAKE_UP) ==
            Connected(Ipc.BeforeReceive(5, 1), "", received, lines)
  {
    var s1 := Ipc.Step(Connected(Ipc.Top, "", received, lines), Ipc.CheckStopping);
    var s2 := Ipc.Step(s1, Ipc.Snapshot);
    var s3 := Ipc.Step(s2, Ipc.PollReturns(false, true));
    var s4 := Ipc.Step(s3, Ipc.SkipAccept);
    assert Ipc.Step(s4, Ipc.SecondSnapshot) == Connected(Ipc.BeforeReceive(5, 1), "", received, lines);
  }

  lemma Reads(line: string)
    requires |line| < 4096
    ensures var s, e := Connected(Ipc.BeforeReceive(5, 1), "", "", []), Ipc.ReceiveReturns(line + "\n");
            && Ipc.Shaped(s) && Ipc.Enabled(s, e)
            && Ipc.Step(s, e) == Connected(Ipc.Splitting(1), line + "\n", line + "\n", [])
  {
    assert "" + (line + "\n") == line + "\n";
  }

  lemma FirstLine(line: string)
    requires OneLine(line)
    ensures FindNewline(line + "\n") == |line| && (line + "\n")[..|line|] == line && (line + "\n")[|line| + 1..] == ""
    ensures !OneLine(line + "\n")
  {
    var b := line + "\n";
    assert b[..|line|] == line && b[|line|] == '\n';
    FindNewlineUnique(b, |line|);
  }

  lemma Splits(line: string)
    requires OneLine(line) && StripCR(line) == line
    ensures var s := Connected(Ipc.Splitting(1), line + "\n", line + "\n", []);
            && Ipc.Shaped(s) && Ipc.Enabled(s, Ipc.SplitLine)
            && Ipc.Step(s, Ipc.SplitLine) == Connected(Ipc.Splitting(1), "", line + "\n", [line])
  {
    hide FindNewline, StripCR;
    FirstLine(line);
    var none: seq<string> := [];
    assert none + [line] == [line];
  }

  lemma Finishes(received: string, lines: seq<string>)
    ensures Ipc.Shaped(Connected(Ipc.Splitting(1), "", received, lines)) && AllLocal([Ipc.FinishSplitting])
    ensures Ipc.AllEnabled(Connected(Ipc.Splitting(1), "", received, lines), [Ipc.FinishSplitting])
    ensures Ipc.Run(Connected(Ipc.Splitting(1), "", received, lines), [Ipc.FinishSplitting]) ==
            Connected(Ipc.Top, "", received, lines)
  {
    assert [Ipc.FinishSplitting][1..] == [];
  }

  /** The client has been closed by the main thread. */
  function Closed(pc: Ipc.Pc, buffer: string, received: string, heard: string, lines: seq<string>, stale: set<nat>)
    : Ipc.Ipc
  {
    Ipc.Ipc(Shared(false, 1, 3, -1, true, Os(map[3 := Listening], [Connection(received, "", 1)], 0, 0, 0, 0)),
            pc, buffer, [0], [heard], [lines], stale)
  }

  /** Places at which the IPC thread may be when the main thread comes in. */
  predicate Between(pc: Ipc.Pc) {
    pc == Ipc.BeforeReceive(5, 1) || pc.AfterPoll?
  }

  lemma SendFails(pc: Ipc.Pc, received: string, lines: seq<string>, serialized: string)
    requires serialized != "" && Between(pc)
    ensures var s, e := Connected(pc, "", received, lines), Ipc.Send(1, serialized, [Fails]);
            && Ipc.Shaped(s) && Ipc.Enabled(s, e)
            && Ipc.Step(s, e) == Closed(pc, "", received, received, lines, {})
  {
    var s := Connected(pc, "", received, lines);
    assert serialized[..0] == "" && "" + "" == "";
    assert s.shared.os.table - {5} == map[3 := Listening];
  }

  lemma ReadsStray(received: string, lines: seq<string>, stray: string)
    requires |stray| < 4096
    ensures var s, e := Closed(Ipc.BeforeReceive(5, 1), "", received, received, lines, {}),
                     Ipc.ReceiveReturns(stray + "\n");
            && Ipc.Shaped(s) && Ipc.Enabled(s, e)
            && Ipc.Step(s, e) == Closed(Ipc.Splitting(1), stray + "\n", received, received + (stray + "\n"), lines, {1})
  {
    assert "" + (stray + "\n") == stray + "\n";
  }

  lemma SplitsStray(received: string, heard: string, line: string, stray: string)
    requires OneLine(stray) && StripCR(stray) == stray
    ensures var s := Closed(Ipc.Splitting(1), stray + "\n", received, heard, [line], {1});
            && Ipc.Shaped(s) && Ipc.Enabled(s, Ipc.SplitLine)
            && Ipc.Step(s, Ipc.SplitLine) == Closed(Ipc.Splitting(1), "", received, heard, [line, stray], {1})
  {
    hide FindNewline, StripCR;
    FirstLine(stray);
    assert [line] + [stray] == [line, stray];
  }

  // ---------- The run of the whole server ----------

  predicate IsLine(line: string, env: Env) {
    && line != "" && |line| < 4096 && OneLine(line) && StripCR(line) == line
    && env.read(line).Some?
  }

  function MessageOf(line: string, env: Env): Dictionary
    requires IsLine(line, env)
  {
    env.read(line).value
  }

  lemma NoToolCallYet(message: Dictionary)
    ensures !Server.VerdictOn(message, Server.INITIAL.initialized).ToolCall?
  {
    hide Server.MethodOf;
  }

  function FirstResponse(message: Dictionary): Option<Dictionary> {
    NoToolCallYet(message);
    ServerProofs.AtOnceResponse(Server.INITIAL, message)
  }

  /** A line that a client may send as its first, and whose message gets an answer that can be written. */
  predicate IsRequest(line: string, env: Env) {
    IsLine(line, env) && Serialize(FirstResponse(MessageOf(line, env)), env).Some?
  }

  /** The server once it has handled the request. */
  function Answering(message: Dictionary): Server.Server {
    Server.INITIAL.(messages := [message], initialized := Server.Initializes(message),
                    replies := [Server.Reply(0, FirstResponse(message))])
  }

  function Stage(ipc: Ipc.Ipc, server: Server.Server, posted: seq<Posted>, sentCount: nat, token: string): System {
    System(ipc, Http.Started(token), server, posted, sentCount, "")
  }

  function FromClient(line: string, env: Env): Posted
    requires IsLine(line, env)
  {
    Posted(FromIpc(1), MessageOf(line, env))
  }

  function Connecting(): seq<Event> {
    Lift(ACCEPT) + Lift(INSTALL)
  }

  function Reading(line: string): seq<Event> {
    Lift(WAKE_UP) + [IpcThread(Ipc.ReceiveReturns(line + "\n"))]
  }

  function Dispatching(): seq<Event> {
    [IpcThread(Ipc.SplitLine)] + Lift([Ipc.FinishSplitting])
  }

  /** The client connects, and its request is read and posted. */
  function Asked(line: string): seq<Event> {
    Connecting() + (Reading(line) + Dispatching())
  }

  /** The IPC thread is about to read again. */
  function Asking(line: string): seq<Event> {
    Asked(line) + Lift(WAKE_UP)
  }

  lemma Walk(s: System, events: seq<Ipc.Event>, ipc: Ipc.Ipc, env: Env)
    requires Shaped(s) && Ipc.AllEnabled(s.ipc, events) && AllLocal(events) && Ipc.Run(s.ipc, events) == ipc
    ensures Leads(s, Lift(events), s.(ipc := ipc), env) && Shaped(s.(ipc := ipc))
  {
    hide Ipc.Run, Ipc.AllEnabled, Leads, Shaped;
    LocalSteps(s, events, env);
  }

  lemma Walk1(s: System, e: Ipc.Event, ipc: Ipc.Ipc, env: Env)
    requires Shaped(s) && Ipc.Enabled(s.ipc, e) && Local(e) && Ipc.Step(s.ipc, e) == ipc
    ensures Leads(s, [IpcThread(e)], s.(ipc := ipc), env) && Shaped(s.(ipc := ipc))
  {
    hide Ipc.Step, Ipc.Enabled, Leads, Shaped, Enabled, Step;
    LocalStep(s, e, env);
    LeadsOne(s, IpcThread(e), env);
  }

  /** A dispatched line that parses is posted with the client's generation. */
  lemma Dispatches(s: System, ipc: Ipc.Ipc, line: string, env: Env)
    requires Shaped(s) && Ipc.Enabled(s.ipc, Ipc.SplitLine) && Ipc.Step(s.ipc, Ipc.SplitLine) == ipc
    requires IsLine(line, env) && s.ipc.buffer == line + "\n" && s.ipc.pc == Ipc.Splitting(1)
    ensures var s' := s.(ipc := ipc, posted := s.posted + [FromClient(line, env)]);
            Leads(s, [IpcThread(Ipc.SplitLine)], s', env) && Shaped(s')
  {
    hide Ipc.Step, FindNewline, StripCR, Leads;
    FirstLine(line);
    LeadsOne(s, IpcThread(Ipc.SplitLine), env);
  }

  lemma StageShaped(ipc: Ipc.Ipc, posted: seq<Posted>, token: string)
    requires Ipc.Shaped(ipc)
    ensures Shaped(Stage(ipc, Server.INITIAL, posted, 0, token))
  {
  }

  function Idling(ipc: Ipc.Ipc, posted: seq<Posted>, token: string): System {
    Stage(ipc, Server.INITIAL, posted, 0, token)
  }

  lemma Connects(token: string, env: Env)
    ensures var s := Idling(Connected(Ipc.Top, "", "", []), [], token);
            Shaped(s) && Leads(Started(3, token), Connecting(), s, env)
  {
    hide Ipc.Step, Ipc.Enabled, Ipc.Run, Ipc.AllEnabled, Ipc.Shaped, Leads, Shaped, Local, Lift, AllLocal;
    var s0 := Started(3, token);
    Accepts();
    Installs();
    StageShaped(Ipc.Started(3), [], token);
    Walk(s0, ACCEPT, Accepted(), env);
    var s1 := s0.(ipc := Accepted());
    Walk(s1, INSTALL, Connected(Ipc.Top, "", "", []), env);
    LeadsOn(s0, Lift(ACCEPT), s1, Lift(INSTALL), s1.(ipc := Connected(Ipc.Top, "", "", [])), env);
  }

  lemma ReadsLine(line: string, token: string, env: Env)
    requires IsLine(line, env)
    ensures var s := Idling(Connected(Ipc.Top, "", "", []), [], token);
            var s' := Idling(Connected(Ipc.Splitting(1), line + "\n", line + "\n", []), [], token);
            Leads(s, Reading(line), s', env) && Shaped(s')
  {
    hide Ipc.Step, Ipc.Enabled, Ipc.Run, Ipc.AllEnabled, Ipc.Shaped, Leads, Shaped, Local, Lift, AllLocal, StripCR;
    var s := Idling(Connected(Ipc.Top, "", "", []), [], token);
    WakesUp("", []);
    Reads(line);
    StageShaped(s.ipc, [], token);
    Walk(s, WAKE_UP, Connected(Ipc.BeforeReceive(5, 1), "", "", []), env);
    var s1 := s.(ipc := Connected(Ipc.BeforeReceive(5, 1), "", "", []));
    var receive := Ipc.ReceiveReturns(line + "\n");
    IsLocal(receive);
    Walk1(s1, receive, Connected(Ipc.Splitting(1), line + "\n", line + "\n", []), env);
    LeadsOn(s, Lift(WAKE_UP), s1, [IpcThread(receive)],
            s1.(ipc := Connected(Ipc.Splitting(1), line + "\n", line + "\n", [])), env);
  }

  lemma DispatchesLine(line: string, token: string, env: Env)
    requires IsLine(line, env)
    ensures var s := Idling(Connected(Ipc.Splitting(1), line + "\n", line + "\n", []), [], token);
            var s' := Idling(Connected(Ipc.Top, "", line + "\n", [line]), [FromClient(line, env)], token);
            Leads(s, Dispatching(), s', env) && Shaped(s')
  {
    hide Ipc.Step, Ipc.Enabled, Ipc.Run, Ipc.AllEnabled, Ipc.Shaped, Leads, Shaped, Local, Lift, AllLocal, StripCR;
    var s := Idling(Connected(Ipc.Splitting(1), line + "\n", line + "\n", []), [], token);
    Splits(line);
    Finishes(line + "\n", [line]);
    StageShaped(s.ipc, [], token);
    var split := Connected(Ipc.Splitting(1), "", line + "\n", [line]);
    Dispatches(s, split, line, env);
    var none: seq<Posted> := [];
    assert none + [FromClient(line, env)] == [FromClient(line, env)];
    var s1 := s.(ipc := split, posted := [FromClient(line, env)]);
    Walk(s1, [Ipc.FinishSplitting], Connected(Ipc.Top, "", line + "\n", [line]), env);
    LeadsOn(s, [IpcThread(Ipc.SplitLine)], s1, Lift([Ipc.FinishSplitting]),
            s1.(ipc := Connected(Ipc.Top, "", line + "\n", [line])), env);
  }

  lemma AskedIsReached(line: string, token: string, env: Env)
    requires IsLine(line, env)
    ensures var s := Idling(Connected(Ipc.Top, "", line + "\n", [line]), [FromClient(line, env)], token);
            Shaped(s) && Leads(Started(3, token), Asked(line), s, env)
  {
    hide Leads, Shaped, Connecting, Reading, Dispatching, StripCR;
    var s0 := Started(3, token);
    var s1 := Idling(Connected(Ipc.Top, "", "", []), [], token);
    var s2 := Idling(Connected(Ipc.Splitting(1), line + "\n", line + "\n", []), [], token);
    var s3 := Idling(Connected(Ipc.Top, "", line + "\n", [line]), [FromClient(line, env)], token);
    Connects(token, env);
    ReadsLine(line, token, env);
    DispatchesLine(line, token, env);
    LeadsOn(s1, Reading(line), s2, Dispatching(), s3, env);
    LeadsOn(s0, Connecting(), s1, Reading(line) + Dispatching(), s3, env);
  }

  lemma AskingIsReached(line: string, token: string, env: Env)
    requires IsLine(line, env)
    ensures var s := Idling(Connected(Ipc.BeforeReceive(5, 1), "", line + "\n", [line]), [FromClient(line, env)],
                           token);
            Shaped(s) && Leads(Started(3, token), Asking(line), s, env)
  {
    hide Ipc.Step, Ipc.Enabled, Ipc.Run, Ipc.AllEnabled, Ipc.Shaped, Leads, Shaped, Local, Lift, AllLocal, StripCR,
         Asked;
    var s := Idling(Connected(Ipc.Top, "", line + "\n", [line]), [FromClient(line, env)], token);
    AskedIsReached(line, token, env);
    WakesUp(line + "\n", [line]);
    Walk(s, WAKE_UP, Connected(Ipc.BeforeReceive(5, 1), "", line + "\n", [line]), env);
    LeadsOn(Started(3, token), Asked(line), s, Lift(WAKE_UP),
            s.(ipc := Connected(Ipc.BeforeReceive(5, 1), "", line + "\n", [line])), env);
  }

  lemma IsLocal(e: Ipc.Event)
    requires e.ReceiveReturns?
    ensures Local(e)
  {
  }

  /** The main thread handles the request; its reply is the next to be sent. */
  lemma Answers(pc: Ipc.Pc, line: string, token: string, env: Env)
    requires IsRequest(line, env) && Between(pc)
    ensures var ipc, posted := Connected(pc, "", line + "\n", [line]), [FromClient(line, env)];
            var s, s' := Idling(ipc, posted, token), Stage(ipc, Answering(MessageOf(line, env)), posted, 0, token);
            Shaped(s) && Leads(s, [RunMessage], s', env) && Shaped(s')
  {
    hide Leads, Server.OnMessage, Serialize, StripCR, FirstResponse, Server.Initializes;
    var message := MessageOf(line, env);
    var s := Idling(Connected(pc, "", line + "\n", [line]), [FromClient(line, env)], token);
    NoToolCallYet(message);
    HandlesFirst(message, env.handlers);
    LeadsOne(s, RunMessage, env);
  }

  lemma HandlesFirst(message: Dictionary, handlers: Server.Handlers)
    ensures Server.OnMessage(Server.INITIAL, message, handlers) == Answering(message)
  {
    hide Server.OnMessage, Server.Initializes, ServerProofs.AtOnceResponse, Server.VerdictOn;
    NoToolCallYet(message);
    ServerProofs.AtOnceReply(Server.INITIAL, message, handlers);
    var none: seq<Dictionary>, noReplies: seq<Server.Reply> := [], [];
    assert none + [message] == [message] && noReplies + [Server.Reply(0, FirstResponse(message))] ==
                                            [Server.Reply(0, FirstResponse(message))];
  }

  /** The reply cannot be sent: the main thread closes the client, and the reply is lost. */
  lemma Drops(pc: Ipc.Pc, line: string, token: string, env: Env)
    requires IsRequest(line, env) && Between(pc)
    ensures var posted, server := [FromClient(line, env)], Answering(MessageOf(line, env));
            var s := Stage(Connected(pc, "", line + "\n", [line]), server, posted, 0, token);
            var s' := Stage(Closed(pc, "", line + "\n", line + "\n", [line], {}), server, posted, 1, token);
            Shaped(s) && Leads(s, [DeliverReply([Fails])], s', env) && Shaped(s')
  {
    hide Leads, Serialize, StripCR, FirstResponse, Server.Initializes, Ipc.Step;
    Answers(pc, line, token, env);
    var s := Stage(Connected(pc, "", line + "\n", [line]), Answering(MessageOf(line, env)), [FromClient(line, env)], 0,
                   token);
    var json := Serialize(FirstResponse(MessageOf(line, env)), env).value;
    SendFails(pc, line + "\n", [line], json + "\n");
    LeadsOne(s, DeliverReply([Fails]), env);
  }

  function Losing(): seq<Event> {
    [RunMessage] + [DeliverReply([Fails])]
  }

  lemma Loses(pc: Ipc.Pc, line: string, token: string, env: Env)
    requires IsRequest(line, env) && Between(pc)
    ensures var posted, server := [FromClient(line, env)], Answering(MessageOf(line, env));
            var s := Idling(Connected(pc, "", line + "\n", [line]), posted, token);
            var s' := Stage(Closed(pc, "", line + "\n", line + "\n", [line], {}), server, posted, 1, token);
            Leads(s, Losing(), s', env) && Shaped(s')
  {
    hide Leads, Shaped, Answering, StripCR, Serialize;
    var posted, server := [FromClient(line, env)], Answering(MessageOf(line, env));
    Answers(pc, line, token, env);
    Drops(pc, line, token, env);
    LeadsOn(Idling(Connected(pc, "", line + "\n", [line]), posted, token), [RunMessage],
            Stage(Connected(pc, "", line + "\n", [line]), server, posted, 0, token), [DeliverReply([Fails])],
            Stage(Closed(pc, "", line + "\n", line + "\n", [line], {}), server, posted, 1, token), env);
  }

  /** A read that succeeds on the closed client's number, and the dispatch of its line. */
  function Straying(stray: string): seq<Event> {
    [IpcThread(Ipc.ReceiveReturns(stray + "\n"))] + [IpcThread(Ipc.SplitLine)]
  }

  /** The run: the request, its failing reply, and the read. */
  function StaleRun(line: string, stray: string): seq<Event> {
    Asking(line) + (Losing() + Straying(stray))
  }

  function StaleEnd(line: string, stray: string, token: string, env: Env): System
    requires IsRequest(line, env) && IsLine(stray, env)
  {
    Stage(Closed(Ipc.Splitting(1), "", line + "\n", line + "\n" + (stray + "\n"), [line, stray], {1}),
          Answering(MessageOf(line, env)), [FromClient(line, env), FromClient(stray, env)], 1, token)
  }

  lemma Strays(line: string, stray: string, token: string, env: Env)
    requires IsRequest(line, env) && IsLine(stray, env)
    ensures var posted, server := [FromClient(line, env)], Answering(MessageOf(line, env));
            var ipc := Closed(Ipc.BeforeReceive(5, 1), "", line + "\n", line + "\n", [line], {});
            Leads(Stage(ipc, server, posted, 1, token), Straying(stray), StaleEnd(line, stray, token, env), env)
  {
    hide Ipc.Step, Ipc.Enabled, Ipc.Shaped, Leads, Shaped, StripCR, Serialize, Answering, Local;
    var posted, server := [FromClient(line, env)], Answering(MessageOf(line, env));
    var heard := line + "\n" + (stray + "\n");
    Drops(Ipc.BeforeReceive(5, 1), line, token, env);
    var s := Stage(Closed(Ipc.BeforeReceive(5, 1), "", line + "\n", line + "\n", [line], {}), server, posted, 1, token);
    ReadsStray(line + "\n", [line], stray);
    var receive := Ipc.ReceiveReturns(stray + "\n");
    IsLocal(receive);
    Walk1(s, receive, Closed(Ipc.Splitting(1), stray + "\n", line + "\n", heard, [line], {1}), env);
    var s1 := s.(ipc := Closed(Ipc.Splitting(1), stray + "\n", line + "\n", heard, [line], {1}));
    SplitsStray(line + "\n", heard, line, stray);
    var split := Closed(Ipc.Splitting(1), "", line + "\n", heard, [line, stray], {1});
    Dispatches(s1, split, stray, env);
    assert posted + [FromClient(stray, env)] == [FromClient(line, env), FromClient(stray, env)];
    LeadsOn(s, [IpcThread(receive)], s1, [IpcThread(Ipc.SplitLine)], StaleEnd(line, stray, token, env), env);
  }

  lemma StaleReadIsReached(line: string, stray: string, token: string, env: Env)
    requires IsRequest(line, env) && IsLine(stray, env)
    ensures Leads(Started(3, token), StaleRun(line, stray), StaleEnd(line, stray, token, env), env)
  {
    hide Leads, Shaped, StripCR, Asking, Losing, Straying, Serialize, Answering;
    var pc, posted := Ipc.BeforeReceive(5, 1), [FromClient(line, env)];
    AskingIsReached(line, token, env);
    Loses(pc, line, token, env);
    Strays(line, stray, token, env);
    var s1 := Idling(Connected(pc, "", line + "\n", [line]), posted, token);
    var s2 := Stage(Closed(pc, "", line + "\n", line + "\n", [line], {}), Answering(MessageOf(line, env)), posted, 1,
                   token);
    LeadsOn(s1, Losing(), s2, Straying(stray), StaleEnd(line, stray, token, env), env);
    LeadsOn(Started(3, token), Asking(line), s1, Losing() + Straying(stray), StaleEnd(line, stray, token, env), env);
  }

  /**
   For every request that a client can make and every line that stray bytes can hold, some run of the
   whole server hears, dispatches and posts that line in the client's name, though the client only sent
   its request.
   */
  lemma StaleLineDispatched(line: string, stray: string, token: string, env: Env)
    requires IsRequest(line, env) && IsLine(stray, env)
    ensures Possible(Started(3, token), StaleRun(line, stray), env)
    ensures var s := After(Started(3, token), StaleRun(line, stray), env);
            && s.ipc.installed == [0] && |s.ipc.shared.os.connections| == 1
            && s.ipc.shared.os.connections[0].received == line + "\n"
            && s.ipc.dispatched == [[line, stray]]
            && s.posted == [Posted(FromIpc(1), MessageOf(line, env)), Posted(FromIpc(1), MessageOf(stray, env))]
    ensures IpcTheorems.EverReadsClosed(Started(3, token), StaleRun(line, stray), 1, env)
  {
    hide StaleRun, StripCR, Serialize, IpcTheorems.EverReadsClosed, Possible, After, Answering;
    StaleReadIsReached(line, stray, token, env);
    IpcTheorems.HeardExactlyUnlessStale(StaleRun(line, stray), 1, 3, token, env);
  }

  /** There are such requests: a message with an id and no method is answered at once. */
  lemma RequestsExist(line: string, env: Env)
    requires IsLine(line, env) && "id" in MessageOf(line, env) && "method" !in MessageOf(line, env)
    requires forall d :: env.write(d).Some?
    ensures IsRequest(line, env)
  {
    NoToolCallYet(MessageOf(line, env));
    ServerProofs.AtOnceConforms(Server.INITIAL, MessageOf(line, env));
    hide ServerProofs.AtOnceResponse, ServerProofs.IsError, ServerProofs.IsResult, StripCR;
  }

  const EXAMPLE_LINE := "{\"id\":1}"

  /** A server that reads every line as the same message. */
  function ExampleEnv(): Env {
    Env(_ => Some(map["id" := Int(1)]), _ => Some("{}"), (_, _, _) => Server.Defers)
  }

  /** A concrete input for StaleLineDispatched, as the request and as the stray line. */
  lemma ExampleIsRequest()
    ensures IsRequest(EXAMPLE_LINE, ExampleEnv())
  {
    hide Serialize, FirstResponse;
    assert |EXAMPLE_LINE| == 8 && EXAMPLE_LINE[7] == '}';
    RequestsExist(EXAMPLE_LINE, ExampleEnv());
  }
}
