/** The main results about HTTP requests, over every reachable state. */
module McpHttpTheorems {
  import opened Wrappers
  import opened Values
  import opened McpSystem
  import opened McpSystemProofs
  import opened McpSystemRuns
  import opened McpHttpProofs
  import opened HttpGate
  import Http = HttpTransport
  import Server = McpServer
  import ServerProofs = McpServerProofs
  import ServerRuns = McpServerRuns
  import IpcProofs

  lemma ReachableHttp(s: System, listenerFd: int, token: string, env: Env)
    requires listenerFd >= 0 && Reachable(s, listenerFd, token, env)
    ensures Shaped(s) && HttpInv(s, env) && ServerProofs.Invariant(s.server) && Mirrors(s)
  {
    hide ServerProofs.Invariant, HttpInv, IpcProofs.Inv;
    ReachableSound(s, listenerFd, token, env);
  }

  // ---------- Where a response came from ----------

  /** The reply behind the i-th response posted back, at a position that determines i. */
  lemma {:induction false} ReturnedFrom(replies: seq<Server.Reply>, posted: seq<Posted>, i: nat) returns (a: nat)
    requires KnownReplies(replies, posted) && i < |Returned(replies, posted)|
    ensures a < |replies| && |Returned(replies[..a], posted)| == i
    ensures var origin := posted[replies[a].callback].origin;
            origin.FromHttp? && Returned(replies, posted)[i] ==
                                Http.Pending(origin.request, origin.connection, replies[a].response)
  {
    var n := |replies| - 1;
    if i < |Returned(replies[..n], posted)| {
      a := ReturnedFrom(replies[..n], posted, i);
      assert replies[..n][..a] == replies[..a];
    } else {
      a := n;
    }
  }

  /** Conversely, each reply to an HTTP request is posted back. */
  lemma {:induction false} ReturnedHas(replies: seq<Server.Reply>, posted: seq<Posted>, a: nat)
    requires KnownReplies(replies, posted) && a < |replies| && posted[replies[a].callback].origin.FromHttp?
    ensures posted[replies[a].callback].origin.request in PendingRequests(Returned(replies, posted))
  {
    var n := |replies| - 1;
    if a < n {
      ReturnedHas(replies[..n], posted, a);
      var before := PendingRequests(Returned(replies[..n], posted));
      var k :| 0 <= k < |before| && before[k] == posted[replies[a].callback].origin.request;
      assert PendingRequests(Returned(replies, posted))[k] == before[k];
    } else {
      var all := PendingRequests(Returned(replies, posted));
      assert all[|all| - 1] == posted[replies[a].callback].origin.request;
    }
  }

  lemma {:induction false} PositionOf(posted: seq<Posted>, t: nat)
    requires t < |posted| && posted[t].origin.FromHttp?
    ensures |PostedByHttp(posted[..t])| < |PostedByHttp(posted)|
    ensures PostedByHttp(posted)[|PostedByHttp(posted[..t])|] == posted[t]
  {
    var n := |posted| - 1;
    if t < n {
      PositionOf(posted[..n], t);
      assert posted[..n][..t] == posted[..t];
    }
  }

  /** Messages of different requests below n, in request order. */
  predicate Ascending(f: seq<Posted>, n: nat) {
    && (forall i :: 0 <= i < |f| ==> f[i].origin.FromHttp? && f[i].origin.request < n)
    && (forall i, j :: 0 <= i < j < |f| ==> f[i].origin.request < f[j].origin.request)
  }

  lemma AscendingSnoc(f: seq<Posted>, n: nat, p: Posted)
    requires Ascending(f, n) && p.origin.FromHttp? && p.origin.request == n
    ensures Ascending(f + [p], n + 1)
  {
  }

  lemma {:induction false} ForwardedAscending(requests: seq<Http.Request>, token: string, read: Http.Reader)
    ensures Ascending(Forwarded(requests, token, read), |requests|)
  {
    hide VerdictOf;
    if requests != [] {
      var n := |requests| - 1;
      ForwardedAscending(requests[..n], token, read);
      var before := Forwarded(requests[..n], token, read);
      match VerdictOf(requests[n], token, read)
      case Reject(_) => assert Forwarded(requests, token, read) == before;
      case Forward(message) => AscendingSnoc(before, n, Posted(FromHttp(requests[n].connection, n), message));
    }
  }

  /** Two messages from HTTP belong to different requests. */
  lemma PostedRequestsDiffer(s: System, t: nat, t': nat, env: Env)
    requires Gated(s, env) && t < t' < |s.posted|
    requires s.posted[t].origin.FromHttp? && s.posted[t'].origin.FromHttp?
    ensures s.posted[t].origin.request != s.posted[t'].origin.request
  {
    hide Forwarded;
    ForwardedAscending(s.http.requests, s.http.token, env.read);
    PositionOf(s.posted, t);
    PositionOf(s.posted, t');
    PositionOf(s.posted[..t'], t);
    assert s.posted[..t'][..t] == s.posted[..t];
    hide PostedByHttp;
    var f := PostedByHttp(s.posted);
    var p, p' := |PostedByHttp(s.posted[..t])|, |PostedByHttp(s.posted[..t'])|;
    assert p < p' < |f| && f[p] == s.posted[t] && f[p'] == s.posted[t'];
    assert f == Forwarded(s.http.requests, s.http.token, env.read);
  }

  lemma ReturnedDistinct(s: System, i: nat, j: nat, env: Env)
    requires Shaped(s) && Gated(s, env) && ServerProofs.Invariant(s.server)
    requires i < j < |Returned(s.server.replies[..s.sentCount], s.posted)|
    ensures var returned := Returned(s.server.replies[..s.sentCount], s.posted);
            returned[i].request != returned[j].request
  {
    hide Gated, ServerProofs.Conforming, ServerProofs.AllMatch, ServerProofs.Ordered, Server.Initialized, Returned;
    var replies := s.server.replies[..s.sentCount];
    var a := ReturnedFrom(replies, s.posted, i);
    var b := ReturnedFrom(replies, s.posted, j);
    ServerRuns.OnceEach(s.server.replies, ServerProofs.CallTokens(ServerProofs.Pending(s.server, [])),
                        |s.server.messages|);
    assert a != b;
    assert replies[a] == s.server.replies[a] && replies[b] == s.server.replies[b];
    var t, t' := replies[a].callback, replies[b].callback;
    if t < t' {
      PostedRequestsDiffer(s, t, t', env);
    } else {
      PostedRequestsDiffer(s, t', t, env);
    }
  }

  // ---------- Each request is answered at most once ----------

  lemma {:induction false} RejectedExactly(requests: seq<Http.Request>, token: string, read: Http.Reader, r: nat)
    ensures r in Rejected(requests, token, read) <==> r < |requests| && VerdictOf(requests[r], token, read).Reject?
    ensures multiset(Rejected(requests, token, read))[r] <= 1
  {
    hide VerdictOf;
    if requests != [] {
      var n := |requests| - 1;
      RejectedExactly(requests[..n], token, read, r);
      var before := Rejected(requests[..n], token, read);
      assert r in multiset(before) <==> r in before;
    }
  }

  lemma {:induction false} DistinctCounts(a: seq<nat>, r: nat)
    requires forall i, j :: 0 <= i < j < |a| ==> a[i] != a[j]
    ensures multiset(a)[r] == if r in a then 1 else 0
  {
    if a != [] {
      var n := |a| - 1;
      DistinctCounts(a[..n], r);
      assert a == a[..n] + [a[n]];
    }
  }

  /** How often a request has been answered, dropped, or is waiting with its response. */
  function TimesHandled(h: Http.Transport, r: nat): nat {
    (multiset(AnswerRequests(h.answers)) + multiset(h.dropped) + multiset(PendingRequests(h.inbox)))[r]
  }

  /** The request's message is with the main thread: posted, and no reply to it handed on yet. */
  predicate WithMainThread(s: System, r: nat)
    requires Shaped(s)
  {
    exists t :: 0 <= t < |s.posted| && s.posted[t].origin.FromHttp? && s.posted[t].origin.request == r &&
      t !in ServerProofs.ReplyTokens(s.server.replies[..s.sentCount])
  }

  lemma HandledCount(s: System, r: nat, env: Env)
    requires Shaped(s) && HttpInv(s, env) && ServerProofs.Invariant(s.server)
    ensures var returned := PendingRequests(Returned(s.server.replies[..s.sentCount], s.posted));
            TimesHandled(s.http, r) ==
              if r in Rejected(s.http.requests, s.http.token, env.read) || r in returned then 1 else 0
  {
    hide Returned, VerdictOf, ServerProofs.Invariant, Gated, Rejected, Justified;
    var returned := Returned(s.server.replies[..s.sentCount], s.posted);
    var requests: seq<nat> := PendingRequests(returned);
    RejectedExactly(s.http.requests, s.http.token, env.read, r);
    forall i, j | 0 <= i < j < |requests| ensures requests[i] != requests[j] {
      ReturnedDistinct(s, i, j, env);
    }
    DistinctCounts(requests, r);
    var rejected: seq<nat> := Rejected(s.http.requests, s.http.token, env.read);
    assert TimesHandled(s.http, r) == (multiset(rejected) + multiset(requests))[r];
    assert r in multiset(rejected) <==> r in rejected;
    if r in requests {
      var k :| 0 <= k < |requests| && requests[k] == r;
      assert returned[k].request == r;
    }
  }

  /**
   A request is answered, dropped or waiting at most once in all; and exactly once as soon as its
   message is no longer with the main thread.
   */
  lemma HandledOnce(s: System, r: nat, listenerFd: int, token: string, env: Env)
    requires listenerFd >= 0 && Reachable(s, listenerFd, token, env)
    ensures Shaped(s) && TimesHandled(s.http, r) <= 1
    ensures r < |s.http.requests| ==> (TimesHandled(s.http, r) == 1 <==> !WithMainThread(s, r))
  {
    hide HttpInv, Reachable, ServerProofs.Invariant, WithMainThread;
    ReachableHttp(s, listenerFd, token, env);
    HandledCount(s, r, env);
    if r < |s.http.requests| {
      HandledOrPosted(s, r, env);
    }
  }

  lemma HandledOrPosted(s: System, r: nat, env: Env)
    requires Shaped(s) && HttpInv(s, env) && ServerProofs.Invariant(s.server) && r < |s.http.requests|
    ensures var returned := PendingRequests(Returned(s.server.replies[..s.sentCount], s.posted));
            (r in Rejected(s.http.requests, s.http.token, env.read) || r in returned) <==> !WithMainThread(s, r)
  {
    hide Returned, VerdictOf, ServerProofs.Invariant, PostedByHttp, Forwarded, Rejected, Justified, Balanced;
    var replies := s.server.replies[..s.sentCount];
    RejectedExactly(s.http.requests, s.http.token, env.read, r);
    if VerdictOf(s.http.requests[r], s.http.token, env.read).Reject? {
      forall t: nat | t < |s.posted| && s.posted[t].origin.FromHttp?
        ensures s.posted[t].origin.request != r
      {
        PostedIsForwarded(s.posted, t, s.http.requests, s.http.token, env.read);
      }
    } else {
      var t := PostedFor(s, r, env);
      ReturnedIffReplied(s, r, t, env);
    }
  }

  lemma PostedFor(s: System, r: nat, env: Env) returns (t: nat)
    requires Gated(s, env) && r < |s.http.requests|
    requires VerdictOf(s.http.requests[r], s.http.token, env.read).Forward?
    ensures t < |s.posted| && s.posted[t].origin.FromHttp? && s.posted[t].origin.request == r
  {
    hide VerdictOf;
    var p := ForwardedHas(s.http.requests, s.http.token, env.read, r);
    t := PostedHas(s.posted, p);
  }

  lemma {:induction false} ForwardedHas(requests: seq<Http.Request>, token: string, read: Http.Reader, r: nat)
    returns (p: Posted)
    requires r < |requests| && VerdictOf(requests[r], token, read).Forward?
    ensures p in Forwarded(requests, token, read) && p.origin.FromHttp? && p.origin.request == r
  {
    hide VerdictOf;
    var n := |requests| - 1;
    if r < n {
      p := ForwardedHas(requests[..n], token, read, r);
    } else {
      p := Posted(FromHttp(requests[n].connection, n), VerdictOf(requests[n], token, read).message);
      var f := Forwarded(requests, token, read);
      assert f[|f| - 1] == p;
    }
  }

  lemma {:induction false} PostedHas(posted: seq<Posted>, p: Posted) returns (t: nat)
    requires p in PostedByHttp(posted)
    ensures t < |posted| && posted[t] == p
  {
    var n := |posted| - 1;
    if p in PostedByHttp(posted[..n]) {
      t := PostedHas(posted[..n], p);
    } else {
      t := n;
    }
  }

  lemma ReturnedIffReplied(s: System, r: nat, t: nat, env: Env)
    requires Shaped(s) && Gated(s, env) && t < |s.posted|
    requires s.posted[t].origin.FromHttp? && s.posted[t].origin.request == r
    ensures r in PendingRequests(Returned(s.server.replies[..s.sentCount], s.posted)) <==> !WithMainThread(s, r)
  {
    hide Returned, Gated;
    var replies := s.server.replies[..s.sentCount];
    var returned := Returned(replies, s.posted);
    forall t': nat | t' < |s.posted| && s.posted[t'].origin.FromHttp? && t' != t
      ensures s.posted[t'].origin.request != r
    {
      if t < t' { PostedRequestsDiffer(s, t, t', env); } else { PostedRequestsDiffer(s, t', t, env); }
    }
    if r in PendingRequests(returned) {
      var i :| 0 <= i < |returned| && returned[i].request == r;
      var a := ReturnedFrom(replies, s.posted, i);
      assert replies[a].callback == t;
      assert ServerProofs.ReplyTokens(replies)[a] == t;
    }
    if t in ServerProofs.ReplyTokens(replies) {
      var a :| 0 <= a < |replies| && replies[a].callback == t;
      ReturnedHas(replies, s.posted, a);
    }
  }

  // ---------- What is dropped, and what is answered with ----------

  /** A response is dropped only when its connection has been closed. */
  lemma DroppedOnlyIfClosed(s: System, i: nat, listenerFd: int, token: string, env: Env)
    requires listenerFd >= 0 && Reachable(s, listenerFd, token, env)
    requires i < |s.http.dropped|
    ensures s.http.dropped[i] < |s.http.requests|
    ensures s.http.requests[s.http.dropped[i]].connection in s.http.seen - s.http.open
  {
    ReachableHttp(s, listenerFd, token, env);
    hide Gated, Balanced, Answered;
  }

  lemma PostedFate(s: System, t: nat, env: Env)
    requires Shaped(s) && HttpInv(s, env) && t < |s.posted| && s.posted[t].origin.FromHttp?
    ensures var r := s.posted[t].origin.request;
            && r < |s.http.requests| && s.http.requests[r].connection == s.posted[t].origin.connection
            && !s.http.requests[r].webSocket
            && FateOf(s.http.requests[r].info, s.http.token, env.read) == Taken(s.posted[t].message)
  {
    hide FateOf, Http.Judge, PostedByHttp, Forwarded, Balanced, Answered,
         DroppedClosed;
    PostedIsForwarded(s.posted, t, s.http.requests, s.http.token, env.read);
    JudgedSo(s.http.requests[s.posted[t].origin.request].info, s.http.token, env.read);
  }

  /**
   Every message from HTTP was carried by a POST request to /mcp whose authorization is "Bearer " in
   letters of either case and then exactly the transport's token, whose origin is absent or a valid URL
   of the loopback host, and whose Accept header covers JSON.
   */
  lemma OnlyAuthorizedRequestsPosted(s: System, t: nat, listenerFd: int, token: string, env: Env)
    requires listenerFd >= 0 && Reachable(s, listenerFd, token, env)
    requires t < |s.posted| && s.posted[t].origin.FromHttp?
    ensures var r := s.posted[t].origin.request;
            && r < |s.http.requests| && s.http.requests[r].connection == s.posted[t].origin.connection
            && !s.http.requests[r].webSocket
            && var info := s.http.requests[r].info;
               && info.path == "/mcp" && info.verb == "POST" && CarriesToken(info.authorization, s.http.token)
               && FromLoopback(info.origin) && TakesJson(info.accept)
               && env.read(info.data) == Some(s.posted[t].message)
  {
    hide CarriesToken, FromLoopback, TakesJson, Reachable, HttpInv, Http.Judge;
    ReachableHttp(s, listenerFd, token, env);
    PostedFate(s, t, env);
  }

  /**
   Every answer goes out on the connection of a request of its own. For a request that is rejected it
   carries the status and text of that rejection, and nothing else.
   */
  lemma AnswerGoesToItsRequest(s: System, k: nat, listenerFd: int, token: string, env: Env)
    requires listenerFd >= 0 && Reachable(s, listenerFd, token, env) && k < |s.http.answers|
    ensures s.http.answers[k].request < |s.http.requests|
    ensures s.http.requests[s.http.answers[k].request].connection == s.http.answers[k].connection
    ensures match VerdictOf(s.http.requests[s.http.answers[k].request], s.http.token, env.read)
            case Reject(status) =>
              && s.http.answers[k].status == status
              && s.http.answers[k].body == Http.RejectionBody(status)
            case Forward(_) => s.http.answers[k].status in {200, 202, 500}
  {
    hide VerdictOf, Reachable, Returned, Gated, Balanced;
    ReachableHttp(s, listenerFd, token, env);
    assert Justified(s.http, s.http.answers[k], Returned(s.server.replies[..s.sentCount], s.posted), env);
  }

  /** The request of the answer was forwarded to the server. */
  predicate ToForwarded(s: System, k: nat, env: Env) {
    && k < |s.http.answers| && s.http.answers[k].request < |s.http.requests|
    && VerdictOf(s.http.requests[s.http.answers[k].request], s.http.token, env.read).Forward?
  }

  /**
   The answer to a forwarded request follows from its message: 202 with no body exactly when the
   message deserves no reply, and otherwise the serialized reply that the message deserves, or 500
   when it cannot be serialized. `t` is the message's number.
   */
  lemma AnswerMatchesMessage(s: System, k: nat, listenerFd: int, token: string, env: Env) returns (t: nat, a: nat)
    requires listenerFd >= 0 && Reachable(s, listenerFd, token, env)
    requires ToForwarded(s, k, env)
    ensures Shaped(s) && t < |s.server.messages| && a < |s.server.replies|
    ensures s.posted[t].origin == FromHttp(s.http.answers[k].connection, s.http.answers[k].request)
    ensures s.server.messages[t] == s.posted[t].message && s.server.replies[a].callback == t
    ensures (s.http.answers[k].status, s.http.answers[k].body) ==
            Http.StatusFor(s.server.replies[a].response, env.write)
    ensures ServerProofs.Conforms(s.server.messages, s.server.replies[a])
    ensures s.http.answers[k].status == 202 <==> Server.VerdictAt(s.server.messages, t).Silence?
  {
    hide VerdictOf, Reachable, Returned, Gated, Balanced, ServerProofs.Conforms;
    ReachableHttp(s, listenerFd, token, env);
    var replies := s.server.replies[..s.sentCount];
    var returned := Returned(replies, s.posted);
    var answer := s.http.answers[k];
    assert Justified(s.http, answer, returned, env);
    var i :| 0 <= i < |returned| &&
      returned[i].request == answer.request &&
      Http.StatusFor(returned[i].response, env.write) == (answer.status, answer.body);
    assert IsRequest(s.http, returned[i].request, returned[i].connection);
    a := ReturnedFrom(replies, s.posted, i);
    assert replies[a] == s.server.replies[a];
    t := replies[a].callback;
    ConformingReply(s, a);
    SilentIffNone(s.server.messages, s.server.replies[a]);
  }

  lemma ConformingReply(s: System, a: nat)
    requires ServerProofs.Invariant(s.server) && a < |s.server.replies|
    ensures s.server.replies[a].callback < |s.server.messages|
    ensures ServerProofs.Conforms(s.server.messages, s.server.replies[a])
  {
    hide ServerProofs.Conforms;
  }

  lemma SilentIffNone(messages: seq<Dictionary>, reply: Server.Reply)
    requires reply.callback < |messages| && ServerProofs.Conforms(messages, reply)
    ensures reply.response.None? <==> Server.VerdictAt(messages, reply.callback).Silence?
  {
    hide ServerProofs.IsResult, ServerProofs.IsError, Server.VerdictAt;
  }

  // ---------- A closed connection is never answered ----------

  /** The answers sent on one connection, in order. */
  function AnswersOn(answers: seq<Http.Answer>, c: int): seq<Http.Answer> {
    if answers == [] then []
    else
      var n := |answers| - 1;
      AnswersOn(answers[..n], c) + if answers[n].connection == c then [answers[n]] else []
  }

  lemma AnswersOnSnoc(answers: seq<Http.Answer>, a: Http.Answer, c: int)
    ensures AnswersOn(answers + [a], c) == AnswersOn(answers, c) + if a.connection == c then [a] else []
  {
    assert (answers + [a])[..|answers|] == answers;
  }

  lemma SendOnAnother(h: Http.Transport, request: nat, connection: int, status: nat, body: string, c: int)
    requires c !in h.open
    ensures AnswersOn(Http.SendResponse(h, request, connection, status, body).answers, c) == AnswersOn(h.answers, c)
  {
    AnswersOnSnoc(h.answers, Http.Answer(request, connection, status, body), c);
  }

  lemma StepKeepsSilence(s: System, e: Event, c: int, env: Env)
    requires Shaped(s) && Enabled(s, e, env) && c in s.http.seen - s.http.open
    ensures var s' := Step(s, e, env);
            c in s'.http.seen - s'.http.open && AnswersOn(s'.http.answers, c) == AnswersOn(s.http.answers, c)
  {
    hide AnswersOn, Serialize, Http.Judge, Http.StatusFor, Http.RejectionBody, Server.OnMessage,
         Server.HandlerCompletes;
    match e
    case HttpRequest(connection, info) =>
      var h := s.http.(requests := s.http.requests + [Http.Request(connection, info, false)]);
      var verdict := Http.Judge(info, s.http.token, env.read);
      if verdict.Reject? {
        SendOnAnother(h, |s.http.requests|, connection, verdict.status, Http.RejectionBody(verdict.status), c);
      }
    case HttpWebSocket(connection, info) =>
      var h := s.http.(requests := s.http.requests + [Http.Request(connection, info, true)]);
      SendOnAnother(h, |s.http.requests|, connection, 405, Http.RejectionBody(405), c);
    case HttpRespond =>
      var p := s.http.inbox[0];
      var (status, body) := Http.StatusFor(p.response, env.write);
      SendOnAnother(s.http.(inbox := s.http.inbox[1..]), p.request, p.connection, status, body, c);
    case _ =>
  }

  /** Once a connection is closed, no continuation of the run sends an answer on it. */
  lemma ClosedConnectionStaysSilent(s: System, events: seq<Event>, c: int, listenerFd: int, token: string, env: Env)
    requires listenerFd >= 0 && Reachable(s, listenerFd, token, env)
    requires Possible(s, events, env) && c in s.http.seen - s.http.open
    ensures AnswersOn(After(s, events, env).http.answers, c) == AnswersOn(s.http.answers, c)
  {
    hide Sound, Reachable, Possible, After;
    ReachableSound(s, listenerFd, token, env);
    RunKeepsSilence(s, events, c, env);
  }

  lemma {:induction false} RunKeepsSilence(s: System, events: seq<Event>, c: int, env: Env)
    requires Sound(s, env) && Possible(s, events, env) && c in s.http.seen - s.http.open
    ensures AnswersOn(After(s, events, env).http.answers, c) == AnswersOn(s.http.answers, c)
    decreases |events|
  {
    hide Inv, HttpInv, Step, Enabled, AnswersOn;
    SoundShaped(s, env);
    if events != [] {
      SoundStep(s, events[0], env);
      StepKeepsSilence(s, events[0], c, env);
      RunKeepsSilence(Step(s, events[0], env), events[1..], c, env);
    }
  }
}
