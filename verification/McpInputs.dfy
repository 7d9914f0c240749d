/** Which lines reach the server as messages, from the IPC clients and from standard input. */
module McpInputs {
  import opened Wrappers
  import opened Values
  import opened McpSystem
  import opened McpSystemProofs
  import opened McpSystemRuns
  import Http = HttpTransport
  import Ipc = IpcMachine
  import IpcTheorems
  import Server = McpServer

  /** The lines that are not empty and can be read as a message, in order, as messages. */
  function Readable(lines: seq<string>, env: Env): seq<Dictionary> {
    if lines == [] then []
    else
      var last, earlier := lines[|lines| - 1], Readable(lines[..|lines| - 1], env);
      if last != "" && env.read(last).Some? then earlier + [env.read(last).value] else earlier
  }

  lemma {:induction false} ParsesReadable(lines: seq<string>, env: Env)
    ensures ParseAll(lines, env) == Readable(lines, env)
  {
    if lines != [] {
      ParsesReadable(lines[..|lines| - 1], env);
    }
  }

  /** What is posted for an IPC client is what can be read of the lines dispatched under its generation. */
  lemma DispatchedLinesPosted(s: System, g: nat, listenerFd: int, token: string, env: Env)
    requires listenerFd >= 0 && Reachable(s, listenerFd, token, env) && 1 <= g <= s.ipc.shared.generation
    ensures g <= |s.ipc.dispatched|
    ensures PostedBy(s.posted, FromIpc(g)) == Readable(s.ipc.dispatched[g - 1], env)
  {
    hide Reachable, PostedBy, ParseAll, Readable;
    IpcTheorems.LinesFollowBytes(s, g, listenerFd, token, env);
    ParsesReadable(s.ipc.dispatched[g - 1], env);
  }

  /** The lines of standard input, in order. */
  function StdinLines(events: seq<Event>): seq<string> {
    if events == [] then []
    else
      var last := events[|events| - 1];
      StdinLines(events[..|events| - 1]) + if last.StdinLine? then [last.line] else []
  }

  lemma PostedBySnoc(posted: seq<Posted>, p: Posted, origin: Origin)
    ensures PostedBy(posted + [p], origin) ==
            PostedBy(posted, origin) + if p.origin == origin then [p.message] else []
  {
    assert (posted + [p])[..|posted|] == posted;
  }

  lemma StdinSnoc(events: seq<Event>, e: Event)
    ensures StdinLines(events + [e]) == StdinLines(events) + if e.StdinLine? then [e.line] else []
  {
    assert (events + [e])[..|events|] == events;
  }

  lemma ReadableSnoc(lines: seq<string>, line: string, env: Env)
    ensures Readable(lines + [line], env) ==
            Readable(lines, env) + if line != "" && env.read(line).Some? then [env.read(line).value] else []
  {
    assert (lines + [line])[..|lines|] == lines;
  }

  /** What one event posts. */
  lemma StepPosts(s: System, e: Event, env: Env) returns (news: seq<Posted>)
    requires Shaped(s) && Enabled(s, e, env)
    ensures Step(s, e, env).posted == s.posted + news && |news| <= 1
    ensures if e.StdinLine? then
              news == if e.line != "" && env.read(e.line).Some? then [Posted(FromStdio, env.read(e.line).value)] else []
            else |news| == 1 ==> news[0].origin != FromStdio
  {
    hide Ipc.Step, Ipc.Enabled, Ipc.Shaped, Serialize, Server.OnMessage, Server.HandlerCompletes, Http.Judge,
         Http.StatusFor;
    news := Step(s, e, env).posted[|s.posted|..];
  }

  lemma StepReadsStdin(s: System, e: Event, env: Env)
    requires Shaped(s) && Enabled(s, e, env)
    ensures PostedBy(Step(s, e, env).posted, FromStdio) ==
            PostedBy(s.posted, FromStdio) + Readable(if e.StdinLine? then [e.line] else [], env)
  {
    hide Shaped, Enabled, Step, PostedBy, Readable;
    var news := StepPosts(s, e, env);
    if news == [] {
      assert s.posted + news == s.posted;
    } else {
      assert news == [news[0]];
      PostedBySnoc(s.posted, news[0], FromStdio);
    }
    if e.StdinLine? {
      ReadableSnoc([], e.line, env);
      assert [] + [e.line] == [e.line];
    }
    NothingReadable(env);
  }

  lemma NothingReadable(env: Env)
    ensures Readable([], env) == []
  {
  }

  /** In any run, what is posted for standard input is what can be read of its lines, in order. */
  lemma StdinLinesPosted(events: seq<Event>, listenerFd: int, token: string, env: Env)
    requires listenerFd >= 0 && Possible(Started(listenerFd, token), events, env)
    ensures PostedBy(After(Started(listenerFd, token), events, env).posted, FromStdio) ==
            Readable(StdinLines(events), env)
  {
    RunReadsStdin(Started(listenerFd, token), [], events, env);
    assert [] + events == events;
  }

  lemma {:induction false} RunReadsStdin(s: System, before: seq<Event>, events: seq<Event>, env: Env)
    requires Possible(s, events, env)
    requires PostedBy(s.posted, FromStdio) == Readable(StdinLines(before), env)
    ensures PostedBy(After(s, events, env).posted, FromStdio) == Readable(StdinLines(before + events), env)
    decreases |events|
  {
    hide Step, Enabled, Shaped, PostedBy, Readable, StdinLines;
    if events == [] {
      assert before + events == before;
    } else {
      var e := events[0];
      StepReadsStdin(s, e, env);
      StdinSnoc(before, e);
      assert Readable(StdinLines(before + [e]), env) ==
             Readable(StdinLines(before), env) + Readable(if e.StdinLine? then [e.line] else [], env) by {
        ReadOneMore(StdinLines(before), e, env);
      }
      RunReadsStdin(Step(s, e, env), before + [e], events[1..], env);
      assert before + [e] + events[1..] == before + events;
    }
  }

  lemma ReadOneMore(lines: seq<string>, e: Event, env: Env)
    ensures Readable(lines + (if e.StdinLine? then [e.line] else []), env) ==
            Readable(lines, env) + Readable(if e.StdinLine? then [e.line] else [], env)
  {
    if e.StdinLine? {
      ReadableSnoc(lines, e.line, env);
      ReadableSnoc([], e.line, env);
      assert [] + [e.line] == [e.line];
    } else {
      assert lines + [] == lines;
    }
  }
}
