/**
 A run of the whole server in which recv is called on a client that poll never looked at. Poll reports
 the first client ready; its reply fails to be sent, so that the main thread closes it; accept installs
 the next client in the same round, and the loop reads from that one.
 */
module CarriedReadiness {
  import opened Framing
  import opened Kernel
  import opened IpcTransport
  import opened McpSystem
  import opened McpSystemRuns
  import opened StaleReads
  import opened IpcReadiness
  import Ipc = IpcMachine

  // ---------- What a run notes of its polls ----------

  lemma {:induction false} LastPollOn(s: System, a: seq<Event>, s1: System, b: seq<Event>, s2: System, p: Polled,
          env: Env)
    requires Leads(s, a, s1, env) && Leads(s1, b, s2, env)
    ensures Leads(s, a + b, s2, env)
    ensures LastPoll(s, a + b, p, env) == LastPoll(s1, b, LastPoll(s, a, p, env), env)
    decreases |a|
  {
    hide Shaped, Enabled, Step, NoteEvent;
    LeadsOn(s, a, s1, b, s2, env);
    if a == [] {
      assert a + b == b;
    } else {
      assert (a + b)[1..] == a[1..] + b && (a + b)[0] == a[0];
      LastPollOn(Step(s, a[0], env), a[1..], s1, b, s2, NoteEvent(s, a[0], p), env);
    }
  }

  /** What steps of the IPC thread note. */
  function Notes(ipc: Ipc.Ipc, events: seq<Ipc.Event>, p: Polled): Polled
    requires Ipc.Shaped(ipc) && Ipc.AllEnabled(ipc, events)
    decreases |events|
  {
    if events == [] then p else Notes(Ipc.Step(ipc, events[0]), events[1..], Note(ipc, events[0], p))
  }

  lemma {:induction false} LiftNotes(s: System, events: seq<Ipc.Event>, p: Polled, env: Env)
    requires Shaped(s) && Ipc.Shaped(s.ipc) && Ipc.AllEnabled(s.ipc, events) && AllLocal(events)
    requires Possible(s, Lift(events), env)
    ensures LastPoll(s, Lift(events), p, env) == Notes(s.ipc, events, p)
    decreases |events|
  {
    hide Ipc.Step, Ipc.Enabled, Ipc.Shaped, Local, Step, Enabled, Note;
    if events != [] {
      LocalStep(s, events[0], env);
      LiftNotes(Step(s, IpcThread(events[0]), env), events[1..], Note(s.ipc, events[0], p), env);
    }
  }

  // ---------- The run ----------

  const POLL_BOTH := [Ipc.CheckStopping, Ipc.Snapshot, Ipc.PollReturns(true, true)]

  const REPLACE := [Ipc.AcceptReturns(5), Ipc.InstallOrRefuse, Ipc.SecondSnapshot]

  const POLLED := Ipc.AfterPoll(3, true, true)

  /** The second client is installed, on the number of the first, and is about to be read from. */
  function Replaced(received: string, lines: seq<string>): Ipc.Ipc {
    Ipc.Ipc(Shared(false, 2, 3, 5, true,
                   Os(map[3 := Listening, 5 := File.Client(1)],
                      [Connection(received, "", 1), Connection("", "", 0)], 0, 0, 0, 0)),
            Ipc.BeforeReceive(5, 2), "", [0, 1], [received, ""], [lines, []], {})
  }

  lemma PollsBoth(received: string, lines: seq<string>, p: Polled)
    ensures var s := Connected(Ipc.Top, "", received, lines);
            && Ipc.Shaped(s) && AllLocal(POLL_BOTH) && Ipc.AllEnabled(s, POLL_BOTH)
            && Ipc.Run(s, POLL_BOTH) == Connected(POLLED, "", received, lines)
            && Notes(s, POLL_BOTH, p) == Polled(5, 1, true)
  {
    var s0 := Connected(Ipc.Top, "", received, lines);
    var s1 := Ipc.Step(s0, Ipc.CheckStopping);
    var s2 := Ipc.Step(s1, Ipc.Snapshot);
    assert Ipc.Step(s2, Ipc.PollReturns(true, true)) == Connected(POLLED, "", received, lines);
  }

  lemma Replaces(received: string, lines: seq<string>, p: Polled)
    ensures var s := Closed(POLLED, "", received, received, lines, {});
            && Ipc.Shaped(s) && AllLocal(REPLACE) && Ipc.AllEnabled(s, REPLACE)
            && Ipc.Run(s, REPLACE) == Replaced(received, lines)
            && Notes(s, REPLACE, p) == p
  {
    var s0 := Closed(POLLED, "", received, received, lines, {});
    var s1 := Ipc.Step(s0, Ipc.AcceptReturns(5));
    assert s1.shared.os.table == map[3 := Listening, 5 := File.Client(1)];
    assert s1.shared.os.connections == [Connection(received, "", 1), Connection("", "", 0)];
    var s2 := Ipc.Step(s1, Ipc.InstallOrRefuse);
    assert s2.installed == [0, 1] && s2.heard == [received, ""] && s2.dispatched == [lines, []];
    assert Ipc.Step(s2, Ipc.SecondSnapshot) == Replaced(received, lines);
  }

  function CarriedRun(line: string): seq<Event> {
    Asked(line) + (Lift(POLL_BOTH) + (Losing() + Lift(REPLACE)))
  }

  function CarriedEnd(line: string, token: string, env: Env): System
    requires IsRequest(line, env)
  {
    Stage(Replaced(line + "\n", [line]), Answering(MessageOf(line, env)), [FromClient(line, env)], 1, token)
  }

  lemma LosingNotesNothing(s: System, p: Polled, env: Env)
    requires Possible(s, Losing(), env)
    ensures LastPoll(s, Losing(), p, env) == p
  {
    hide Shaped, Enabled, Step;
    assert Losing() == [RunMessage, DeliverReply([Fails])];
    var s1 := Step(s, RunMessage, env);
    assert Losing()[1..] == [DeliverReply([Fails])];
    assert [DeliverReply([Fails])][1..] == [];
  }

  /**
   For every request that a client can make, some run of the whole server calls recv on its successor
   although poll reported only the first client ready.
   */
  lemma ReadinessIsCarried(line: string, token: string, env: Env)
    requires IsRequest(line, env)
    ensures Leads(Started(3, token), CarriedRun(line), CarriedEnd(line, token, env), env)
    ensures CarriedEnd(line, token, env).ipc.pc == Ipc.BeforeReceive(5, 2)
    ensures LastPoll(Started(3, token), CarriedRun(line), NOTHING, env) == Polled(5, 1, true)
  {
    hide Leads, Shaped, StripCR, Asked, Losing, Serialize, Answering, Lift, Ipc.Run, Ipc.AllEnabled, Ipc.Shaped,
         AllLocal, Notes, LastPoll;
    var posted, server := [FromClient(line, env)], Answering(MessageOf(line, env));
    var received := line + "\n";
    var s0, s1 := Started(3, token), Idling(Connected(Ipc.Top, "", received, [line]), posted, token);
    var s2 := Idling(Connected(POLLED, "", received, [line]), posted, token);
    var s3 := Stage(Closed(POLLED, "", received, received, [line], {}), server, posted, 1, token);
    var s4 := CarriedEnd(line, token, env);
    AskedIsReached(line, token, env);
    LeadsPossible(s0, Asked(line), s1, env);
    var p := LastPoll(s0, Asked(line), NOTHING, env);
    PollsBoth(received, [line], p);
    Walk(s1, POLL_BOTH, Connected(POLLED, "", received, [line]), env);
    Loses(POLLED, line, token, env);
    Replaces(received, [line], Polled(5, 1, true));
    Walk(s3, REPLACE, Replaced(received, [line]), env);
    LeadsOn(s2, Losing(), s3, Lift(REPLACE), s4, env);
    LeadsOn(s1, Lift(POLL_BOTH), s2, Losing() + Lift(REPLACE), s4, env);
    LastPollOn(s0, Asked(line), s1, Lift(POLL_BOTH) + (Losing() + Lift(REPLACE)), s4, NOTHING, env);
    LastPollOn(s1, Lift(POLL_BOTH), s2, Losing() + Lift(REPLACE), s4, p, env);
    LastPollOn(s2, Losing(), s3, Lift(REPLACE), s4, Polled(5, 1, true), env);
    LeadsPossible(s1, Lift(POLL_BOTH), s2, env);
    LeadsPossible(s2, Losing(), s3, env);
    LeadsPossible(s3, Lift(REPLACE), s4, env);
    LiftNotes(s1, POLL_BOTH, p, env);
    LosingNotesNothing(s2, Polled(5, 1, true), env);
    LiftNotes(s3, REPLACE, Polled(5, 1, true), env);
  }

  lemma LeadsPossible(s: System, events: seq<Event>, s': System, env: Env)
    requires Leads(s, events, s', env)
    ensures Possible(s, events, env)
  {
  }
}
