/** What becomes of every HTTP request and connection, in terms of the requests themselves. */
module McpHttpAnswers {
  import opened Wrappers
  import opened Values
  import opened McpSystem
  import opened McpSystemProofs
  import opened McpSystemRuns
  import opened McpHttpTheorems
  import opened HttpGate
  import Http = HttpTransport
  import Ipc = IpcMachine
  import Server = McpServer
  import ServerProofs = McpServerProofs

  // ---------- One request ----------

  /**
   A request on an open connection is answered at once with the status and the text of the first test it
   fails, and posts nothing; or its message is posted for that connection and request, and nothing is
   answered yet.
   */
  lemma RequestMeetsItsFate(s: System, c: int, info: Http.RequestInfo, env: Env)
    requires Shaped(s) && Enabled(s, HttpRequest(c, info), env)
    ensures var n := |s.http.requests|;
            var taken := s.http.(requests := s.http.requests + [Http.Request(c, info, false)]);
            Step(s, HttpRequest(c, info), env) ==
            match FateOf(info, s.http.token, env.read)
            case Refused(status, body) =>
              s.(http := taken.(answers := s.http.answers + [Http.Answer(n, c, status, body)]))
            case Taken(message) => s.(http := taken, posted := s.posted + [Posted(FromHttp(c, n), message)])
  {
    hide FateOf, Http.Judge, Http.RejectionBody, Ipc.Shaped;
    JudgedSo(info, s.http.token, env.read);
  }

  /** With any other token, a request to the right place is answered 401, and its message is not posted. */
  lemma WrongTokenIsRefused(s: System, c: int, info: Http.RequestInfo, env: Env)
    requires Shaped(s) && c in s.http.open && info.path == "/mcp" && FromLoopback(info.origin)
    requires !CarriesToken(info.authorization, s.http.token)
    ensures Enabled(s, HttpRequest(c, info), env)
    ensures var after := Step(s, HttpRequest(c, info), env);
            && after.posted == s.posted
            && after.http.answers == s.http.answers + [Http.Answer(|s.http.requests|, c, 401, "Unauthorized")]
  {
    RequestMeetsItsFate(s, c, info, env);
    hide Step, CarriesToken, FromLoopback, TakesJson, Ipc.Shaped;
  }

  // ---------- Every reachable state ----------

  lemma SameToken(s: System, listenerFd: int, token: string, env: Env)
    requires Reachable(s, listenerFd, token, env)
    ensures s.http.token == token
  {
    hide Possible, After;
    var events: seq<Event> :| Possible(Started(listenerFd, token), events, env) &&
                              After(Started(listenerFd, token), events, env) == s;
    RunKeepsToken(Started(listenerFd, token), events, env);
  }

  lemma {:induction false} RunKeepsToken(s: System, events: seq<Event>, env: Env)
    requires Possible(s, events, env)
    ensures After(s, events, env).http.token == s.http.token
    decreases |events|
  {
    hide Step, Enabled, Shaped;
    if events != [] {
      StepKeepsToken(s, events[0], env);
      RunKeepsToken(Step(s, events[0], env), events[1..], env);
    }
  }

  lemma StepKeepsToken(s: System, e: Event, env: Env)
    requires Shaped(s) && Enabled(s, e, env)
    ensures Step(s, e, env).http.token == s.http.token
  {
    hide Ipc.Step, Ipc.Enabled, Ipc.Shaped, Serialize, Server.OnMessage, Server.HandlerCompletes, Http.Judge,
         Http.StatusFor, ParseLine;
  }

  /** The status and the body of the answer that carries a response. */
  predicate Carries(status: nat, body: string, response: Option<Dictionary>, env: Env) {
    if response.None? then status == 202 && body == ""
    else if env.write(response.value).None? then status == 500 && body == "Failed to serialize MCP response"
    else status == 200 && body == env.write(response.value).value
  }

  lemma StatusCarries(response: Option<Dictionary>, env: Env)
    ensures Carries(Http.StatusFor(response, env.write).0, Http.StatusFor(response, env.write).1, response, env)
  {
  }

  /**
   Every answer is the one its request deserves: 405 for a web socket; the status and text of the first
   test that fails; or, for a message that was taken, what carries the server's reply to it.
   */
  lemma EveryAnswerDeserved(s: System, k: nat, listenerFd: int, token: string, env: Env) returns (a: nat)
    requires listenerFd >= 0 && Reachable(s, listenerFd, token, env) && k < |s.http.answers|
    ensures Shaped(s) && s.http.answers[k].request < |s.http.requests|
    ensures var answer := s.http.answers[k];
            var r := s.http.requests[answer.request];
            && r.connection == answer.connection
            && if r.webSocket then answer.status == 405 && answer.body == "Method Not Allowed"
               else match FateOf(r.info, token, env.read)
                 case Refused(status, body) => answer.status == status && answer.body == body
                 case Taken(message) =>
                   && a < |s.server.replies| && Carries(answer.status, answer.body, s.server.replies[a].response, env)
                   && s.posted[s.server.replies[a].callback] ==
                      Posted(FromHttp(answer.connection, answer.request), message)
  {
    hide FateOf, Reachable, Http.Judge, Http.StatusFor, Carries, ServerProofs.Conforms;
    a := 0;
    AnswerGoesToItsRequest(s, k, listenerFd, token, env);
    SameToken(s, listenerFd, token, env);
    var r := s.http.requests[s.http.answers[k].request];
    JudgedSo(r.info, token, env.read);
    if r.webSocket {
      assert Http.RejectionBody(405) == "Method Not Allowed";
    } else if FateOf(r.info, token, env.read).Taken? {
      assert ToForwarded(s, k, env);
      var t;
      t, a := AnswerMatchesMessage(s, k, listenerFd, token, env);
      StatusCarries(s.server.replies[a].response, env);
      ReachableHttp(s, listenerFd, token, env);
      PostedFate(s, t, env);
    }
    hide Http.RejectionBody;
    ReachableShaped(s, listenerFd, token, env);
  }

  lemma ReachableShaped(s: System, listenerFd: int, token: string, env: Env)
    requires listenerFd >= 0 && Reachable(s, listenerFd, token, env)
    ensures Shaped(s)
  {
    hide Sound, Reachable;
    ReachableSound(s, listenerFd, token, env);
  }

  // ---------- Which connections are open ----------

  /** The last event about the connection is that it was made. */
  predicate OpenAfter(events: seq<Event>, c: int) {
    exists k :: 0 <= k < |events| && events[k] == HttpConnect(c) &&
      forall j :: k < j < |events| ==> events[j] != HttpClose(c) && events[j] != HttpStop
  }

  lemma OpenSnoc(events: seq<Event>, e: Event, c: int)
    ensures OpenAfter(events + [e], c) <==>
            e == HttpConnect(c) || (OpenAfter(events, c) && e != HttpClose(c) && e != HttpStop)
  {
    var all := events + [e];
    assert all[|events|] == e;
    assert forall j :: 0 <= j < |events| ==> all[j] == events[j];
    if OpenAfter(events, c) && e != HttpClose(c) && e != HttpStop {
      var k :| 0 <= k < |events| && events[k] == HttpConnect(c) &&
        forall j :: k < j < |events| ==> events[j] != HttpClose(c) && events[j] != HttpStop;
      assert all[k] == HttpConnect(c);
    }
  }

  lemma StepOpens(s: System, e: Event, c: int, env: Env)
    requires Shaped(s) && Enabled(s, e, env)
    ensures c in Step(s, e, env).http.open <==>
            e == HttpConnect(c) || (c in s.http.open && e != HttpClose(c) && e != HttpStop)
  {
    hide Ipc.Step, Ipc.Enabled, Ipc.Shaped, Serialize, Server.OnMessage, Server.HandlerCompletes, Http.Judge,
         Http.StatusFor, ParseLine;
  }

  /** In any run, a connection is open exactly when the last event about it is that it was made. */
  lemma OpenExactly(events: seq<Event>, c: int, listenerFd: int, token: string, env: Env)
    requires listenerFd >= 0 && Possible(Started(listenerFd, token), events, env)
    ensures c in After(Started(listenerFd, token), events, env).http.open <==> OpenAfter(events, c)
  {
    RunOpens(Started(listenerFd, token), [], events, c, env);
    assert [] + events == events;
  }

  lemma {:induction false} RunOpens(s: System, before: seq<Event>, events: seq<Event>, c: int, env: Env)
    requires Possible(s, events, env) && (c in s.http.open <==> OpenAfter(before, c))
    ensures c in After(s, events, env).http.open <==> OpenAfter(before + events, c)
    decreases |events|
  {
    hide Step, Enabled, Shaped, OpenAfter;
    if events == [] {
      assert before + events == before;
    } else {
      StepOpens(s, events[0], c, env);
      OpenSnoc(before, events[0], c);
      RunOpens(Step(s, events[0], env), before + [events[0]], events[1..], c, env);
      assert before + [events[0]] + events[1..] == before + events;
    }
  }
}
