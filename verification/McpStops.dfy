/** What a stop does to the IPC thread: it finishes its round and leaves the loop. */
module McpStops {
  import opened McpSystem
  import opened McpSystemRuns
  import Ipc = IpcMachine
  import IpcTheorems
  import IpcTransport

  /** The IPC thread has left its loop. */
  predicate Out(s: System) {
    s.ipc.pc.Leaving? || s.ipc.pc.Done?
  }

  lemma OutStep(s: System, e: Event, env: Env)
    requires Shaped(s) && Enabled(s, e, env) && Out(s)
    ensures Out(Step(s, e, env)) && (e.IpcThread? ==> e.e.Finish?)
  {
    hide Ipc.Shaped, Step;
    IpcTheorems.StepsIpc(s, e, env);
    hide Enabled, IpcTransport.SendSerializedResponse, IpcTransport.RequestStopLocked, Serialize;
  }

  lemma StoppingStep(s: System, e: Event, env: Env)
    requires Shaped(s) && Enabled(s, e, env) && s.ipc.shared.stopping
    ensures Step(s, e, env).ipc.shared.stopping
    ensures e == IpcThread(Ipc.CheckStopping) ==> Out(Step(s, e, env))
  {
    hide Ipc.Shaped, Step;
    IpcTheorems.StepsIpc(s, e, env);
    hide Enabled, Serialize, IpcTransport.Transmitted;
  }

  /** A stop sets the flag, leaves no client and no listener, and unbinds the path, all at once. */
  lemma StopClosesAll(s: System, env: Env)
    requires Shaped(s) && Enabled(s, StopIpc, env)
    ensures var before, after := s.ipc.shared, Step(s, StopIpc, env).ipc.shared;
            && after.stopping && after.activeFd < 0 && after.listenerFd < 0 && !after.bound
            && (before.activeFd >= 0 ==> before.activeFd !in after.os.table)
            && (before.listenerFd >= 0 ==> before.listenerFd !in after.os.table)
            && after.os.unlinks == before.os.unlinks + (if before.bound then 1 else 0)
  {
    hide Ipc.Shaped;
  }

  lemma {:induction false} OutStays(s: System, events: seq<Event>, j: nat, env: Env)
    requires Possible(s, events, env) && Out(s) && j < |events|
    ensures events[j].IpcThread? ==> events[j].e.Finish?
    decreases |events|
  {
    hide Step, Enabled, Shaped, Out;
    OutStep(s, events[0], env);
    if j > 0 {
      OutStays(Step(s, events[0], env), events[1..], j - 1, env);
    }
  }

  lemma {:induction false} StoppingLeaves(s: System, events: seq<Event>, i: nat, j: nat, env: Env)
    requires Possible(s, events, env) && s.ipc.shared.stopping && i < j < |events|
    requires events[i] == IpcThread(Ipc.CheckStopping)
    ensures events[j].IpcThread? ==> events[j].e.Finish?
    decreases |events|
  {
    hide Step, Enabled, Shaped, Out;
    StoppingStep(s, events[0], env);
    if i == 0 {
      OutStays(Step(s, events[0], env), events[1..], j - 1, env);
    } else {
      StoppingLeaves(Step(s, events[0], env), events[1..], i - 1, j - 1, env);
    }
  }

  /**
   In any run, once the transport has been stopped (event k) and the IPC thread has come to its loop
   condition again (event i), all that it still does is the stop section: it takes no snapshot, polls,
   accepts, reads and dispatches nothing any more.
   */
  lemma {:induction false} StopEndsLoop(s: System, events: seq<Event>, k: nat, i: nat, j: nat, env: Env)
    requires Possible(s, events, env) && k < i < j < |events|
    requires events[k] == StopIpc && events[i] == IpcThread(Ipc.CheckStopping)
    ensures events[j].IpcThread? ==> events[j].e.Finish?
    decreases |events|
  {
    hide Step, Enabled, Shaped, Out;
    if k == 0 {
      StopClosesAll(s, env);
      StoppingLeaves(Step(s, events[0], env), events[1..], i - 1, j - 1, env);
    } else {
      StopEndsLoop(Step(s, events[0], env), events[1..], k - 1, i - 1, j - 1, env);
    }
  }
}
