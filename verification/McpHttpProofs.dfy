/** What every interleaving keeps of the HTTP requests and their responses. */
module McpHttpProofs {
  import opened Counting
  import opened Values
  import opened McpSystem
  import opened McpSystemProofs
  import opened HttpTransport
  import Ipc = IpcMachine
  import IpcTransport
  import Server = McpServer

  /** What a request deserves, judged from the request alone. */
  function VerdictOf(r: Request, token: string, read: Reader): Verdict {
    if r.webSocket then Reject(405) else Judge(r.info, token, read)
  }

  /** The numbers of the requests rejected on the spot. */
  function Rejected(requests: seq<Request>, token: string, read: Reader): seq<nat> {
    if requests == [] then []
    else
      var n := |requests| - 1;
      Rejected(requests[..n], token, read) + if VerdictOf(requests[n], token, read).Reject? then [n] else []
  }

  /** The messages forwarded to the main thread, each with its origin, in request order. */
  function Forwarded(requests: seq<Request>, token: string, read: Reader): seq<Posted> {
    if requests == [] then []
    else
      var n := |requests| - 1;
      Forwarded(requests[..n], token, read) +
      match VerdictOf(requests[n], token, read)
      case Reject(_) => []
      case Forward(message) => [Posted(FromHttp(requests[n].connection, n), message)]
  }

  /** What was posted by the HTTP transport, in order. */
  function PostedByHttp(posted: seq<Posted>): seq<Posted> {
    if posted == [] then []
    else
      var n := |posted| - 1;
      PostedByHttp(posted[..n]) + if posted[n].origin.FromHttp? then [posted[n]] else []
  }

  /** The responses posted back to the HTTP transport, oldest first. */
  function Returned(replies: seq<Server.Reply>, posted: seq<Posted>): seq<Pending>
    requires KnownReplies(replies, posted)
  {
    if replies == [] then []
    else
      var n := |replies| - 1;
      var origin := posted[replies[n].callback].origin;
      Returned(replies[..n], posted) +
      if origin.FromHttp? then [Pending(origin.request, origin.connection, replies[n].response)] else []
  }

  function AnswerRequests(answers: seq<Answer>): seq<nat> {
    seq(|answers|, i requires 0 <= i < |answers| => answers[i].request)
  }

  function PendingRequests(inbox: seq<Pending>): seq<nat> {
    seq(|inbox|, i requires 0 <= i < |inbox| => inbox[i].request)
  }

  // ---------- The invariant ----------

  /** Requests taken in are the rejected ones plus the forwarded ones, and only those were posted. */
  predicate Gated(s: System, env: Env) {
    PostedByHttp(s.posted) == Forwarded(s.http.requests, s.http.token, env.read)
  }

  /** Responses given, dropped or waiting are the rejections plus the responses posted back. */
  predicate Balanced(s: System, env: Env)
    requires Shaped(s)
  {
    multiset(AnswerRequests(s.http.answers)) + multiset(s.http.dropped) + multiset(PendingRequests(s.http.inbox)) ==
    multiset(Rejected(s.http.requests, s.http.token, env.read)) +
    multiset(PendingRequests(Returned(s.server.replies[..s.sentCount], s.posted)))
  }

  predicate IsRequest(h: Transport, request: nat, connection: int) {
    request < |h.requests| && h.requests[request].connection == connection
  }

  predicate Suffix(inbox: seq<Pending>, returned: seq<Pending>) {
    |inbox| <= |returned| && inbox == returned[|returned| - |inbox|..]
  }

  /** An answer's status and body are those of the rejection, or of the response posted back. */
  ghost predicate Justified(h: Transport, a: Answer, returned: seq<Pending>, env: Env) {
    IsRequest(h, a.request, a.connection) &&
    match VerdictOf(h.requests[a.request], h.token, env.read)
    case Reject(status) => a.status == status && a.body == RejectionBody(status)
    case Forward(_) =>
      exists i :: 0 <= i < |returned| &&
        returned[i].request == a.request && StatusFor(returned[i].response, env.write) == (a.status, a.body)
  }

  predicate ReturnedKnown(h: Transport, returned: seq<Pending>, env: Env) {
    forall i :: 0 <= i < |returned| ==>
      IsRequest(h, returned[i].request, returned[i].connection) &&
      VerdictOf(h.requests[returned[i].request], h.token, env.read).Forward?
  }

  ghost predicate Answered(h: Transport, returned: seq<Pending>, env: Env) {
    && Suffix(h.inbox, returned)
    && ReturnedKnown(h, returned, env)
    && (forall i :: 0 <= i < |h.answers| ==> Justified(h, h.answers[i], returned, env))
  }

  /** Only responses to closed connections are dropped. */
  predicate DroppedClosed(h: Transport) {
    && h.open <= h.seen
    && (forall i :: 0 <= i < |h.requests| ==> h.requests[i].connection in h.seen)
    && (forall i :: 0 <= i < |h.dropped| ==>
          h.dropped[i] < |h.requests| && h.requests[h.dropped[i]].connection !in h.open)
  }

  ghost predicate HttpInv(s: System, env: Env) {
    && Shaped(s)
    && Gated(s, env) && Balanced(s, env)
    && Answered(s.http, Returned(s.server.replies[..s.sentCount], s.posted), env)
    && DroppedClosed(s.http)
  }

  lemma StartedHttpInv(listenerFd: int, token: string, env: Env)
    ensures HttpInv(McpSystem.Started(listenerFd, token), env)
  {
    hide VerdictOf, Answered, DroppedClosed, Gated, Balanced, Returned;
    var s := McpSystem.Started(listenerFd, token);
    assert Gated(s, env) by { NothingTaken(s, env); }
    assert Balanced(s, env) && Answered(s.http, Returned([], s.posted), env) && DroppedClosed(s.http) by {
      NothingTaken(s, env);
    }
    assert s.server.replies[..s.sentCount] == [];
  }

  lemma NothingTaken(s: System, env: Env)
    requires Shaped(s) && s.server.replies == [] && s.posted == []
    requires s.http == HttpTransport.Started(s.http.token)
    ensures Gated(s, env) && Balanced(s, env) && Answered(s.http, Returned([], s.posted), env) && DroppedClosed(s.http)
  {
    hide VerdictOf, Ipc.Shaped;
  }

  // ---------- Helpers ----------

  lemma {:induction false} ReturnedExtends(replies: seq<Server.Reply>, posted: seq<Posted>, p: Posted)
    requires KnownReplies(replies, posted)
    ensures KnownReplies(replies, posted + [p]) && Returned(replies, posted + [p]) == Returned(replies, posted)
  {
    if replies != [] {
      ReturnedExtends(replies[..|replies| - 1], posted, p);
    }
  }

  lemma PostedByHttpSnoc(posted: seq<Posted>, p: Posted)
    ensures PostedByHttp(posted + [p]) == PostedByHttp(posted) + if p.origin.FromHttp? then [p] else []
  {
    assert (posted + [p])[..|posted|] == posted;
  }

  lemma RequestSnoc(requests: seq<Request>, r: Request, token: string, read: Reader)
    ensures Rejected(requests + [r], token, read) ==
              Rejected(requests, token, read) + if VerdictOf(r, token, read).Reject? then [|requests|] else []
    ensures Forwarded(requests + [r], token, read) ==
              Forwarded(requests, token, read) +
              match VerdictOf(r, token, read)
              case Reject(_) => []
              case Forward(message) => [Posted(FromHttp(r.connection, |requests|), message)]
  {
    assert (requests + [r])[..|requests|] == requests;
  }

  lemma ReturnedSnoc(s: System)
    requires Shaped(s) && s.sentCount < |s.server.replies|
    ensures Returned(s.server.replies[..s.sentCount + 1], s.posted) ==
              Returned(s.server.replies[..s.sentCount], s.posted) +
              match NextOrigin(s)
              case FromHttp(c, r) => [Pending(r, c, NextReply(s).response)]
              case _ => []
  {
    var before := s.server.replies[..s.sentCount];
    var after := s.server.replies[..s.sentCount + 1];
    assert after[..|before|] == before;
  }

  // ---------- Steps ----------

  /** A step that leaves the HTTP transport, the sent replies and the HTTP requests alone. */
  lemma ElsewhereKeeps(s: System, s': System, env: Env)
    requires Shaped(s) && Shaped(s') && s'.http == s.http
    requires s'.sentCount == s.sentCount && s'.server.replies[..s.sentCount] == s.server.replies[..s.sentCount]
    requires s'.posted == s.posted || (s'.posted != [] && s'.posted[..|s'.posted| - 1] == s.posted &&
               !s'.posted[|s'.posted| - 1].origin.FromHttp?)
    requires HttpInv(s, env)
    ensures HttpInv(s', env)
  {
    hide PostedByHttp, Returned, Forwarded, Rejected, Answered, DroppedClosed, AnswerRequests, PendingRequests,
         VerdictOf, Ipc.Shaped;
    if s'.posted != s.posted {
      var p := s'.posted[|s'.posted| - 1];
      assert s'.posted == s.posted + [p];
      PostedByHttpSnoc(s.posted, p);
      ReturnedExtends(s.server.replies[..s.sentCount], s.posted, p);
      assert PostedByHttp(s.posted) + [] == PostedByHttp(s.posted);
    }
    assert Returned(s'.server.replies[..s'.sentCount], s'.posted) ==
           Returned(s.server.replies[..s.sentCount], s.posted);
  }

  lemma ConnectKeeps(s: System, c: int, env: Env)
    requires HttpInv(s, env) && c !in s.http.seen
    ensures HttpInv(s.(http := OnConnect(s.http, c)), env)
  {
    hide PostedByHttp, Returned, Forwarded, Rejected;
    AnsweredFrame(s.http, OnConnect(s.http, c), Returned(s.server.replies[..s.sentCount], s.posted), env);
    hide Answered;
  }

  lemma CloseKeeps(s: System, open': set<int>, env: Env)
    requires HttpInv(s, env) && open' <= s.http.open
    ensures HttpInv(s.(http := s.http.(open := open')), env)
  {
    hide PostedByHttp, Returned, Forwarded, Rejected;
    AnsweredFrame(s.http, s.http.(open := open'), Returned(s.server.replies[..s.sentCount], s.posted), env);
    hide Answered;
  }

  lemma AnsweredFrame(h: Transport, h': Transport, returned: seq<Pending>, env: Env)
    requires Answered(h, returned, env)
    requires h'.requests == h.requests && h'.token == h.token && h'.inbox == h.inbox && h'.answers == h.answers
    ensures Answered(h', returned, env)
  {
    hide VerdictOf, StatusFor, RejectionBody;
    forall i | 0 <= i < |h.answers| ensures Justified(h', h'.answers[i], returned, env) {
      assert Justified(h, h.answers[i], returned, env);
    }
  }

  /** Recording one more request disturbs nothing said of the earlier ones. */
  lemma AnsweredMoreRequests(h: Transport, r: Request, returned: seq<Pending>, env: Env)
    requires Answered(h, returned, env)
    ensures Answered(h.(requests := h.requests + [r]), returned, env)
  {
    hide VerdictOf, StatusFor, RejectionBody;
    var h' := h.(requests := h.requests + [r]);
    forall i | 0 <= i < |h.answers| ensures Justified(h', h'.answers[i], returned, env) {
      assert Justified(h, h.answers[i], returned, env);
    }
  }

  lemma AnswerRequestsSnoc(answers: seq<Answer>, a: Answer)
    ensures AnswerRequests(answers + [a]) == AnswerRequests(answers) + [a.request]
  {
  }

  /** One more response through the gate: it is an answer on an open connection, or dropped. */
  lemma SendResponseCounts(h: Transport, request: nat, connection: int, status: nat, body: string)
    ensures var h' := SendResponse(h, request, connection, status, body);
            multiset(AnswerRequests(h'.answers)) + multiset(h'.dropped) ==
            multiset(AnswerRequests(h.answers)) + multiset(h.dropped) + multiset{request}
  {
    AnswerRequestsSnoc(h.answers, Answer(request, connection, status, body));
  }

  lemma SendResponseAnswered(h: Transport, a: Answer, returned: seq<Pending>, env: Env)
    requires Answered(h, returned, env) && Justified(h, a, returned, env)
    ensures Answered(SendResponse(h, a.request, a.connection, a.status, a.body), returned, env)
  {
    hide VerdictOf, StatusFor, RejectionBody;
    var h' := SendResponse(h, a.request, a.connection, a.status, a.body);
    forall i | 0 <= i < |h'.answers| ensures Justified(h', h'.answers[i], returned, env) {
      assert Justified(h, h'.answers[i], returned, env);
    }
  }

  /** A request rejected on the spot. */
  lemma RejectKeeps(s: System, r: Request, status: nat, env: Env)
    requires HttpInv(s, env) && r.connection in s.http.open
    requires VerdictOf(r, s.http.token, env.read) == Reject(status)
    ensures HttpInv(s.(http := SendResponse(s.http.(requests := s.http.requests + [r]),
                                            |s.http.requests|, r.connection, status, RejectionBody(status))), env)
  {
    hide PostedByHttp, Returned, Forwarded, Rejected, VerdictOf, StatusFor, RejectionBody, Answered, Justified,
         AnswerRequests, PendingRequests;
    var n := |s.http.requests|;
    var h := s.http.(requests := s.http.requests + [r]);
    var returned := Returned(s.server.replies[..s.sentCount], s.posted);
    RequestSnoc(s.http.requests, r, s.http.token, env.read);
    SendResponseCounts(h, n, r.connection, status, RejectionBody(status));
    AnsweredMoreRequests(s.http, r, returned, env);
    RejectionJustified(h, n, status, returned, env);
    SendResponseAnswered(h, Answer(n, r.connection, status, RejectionBody(status)), returned, env);
    var s' := s.(http := SendResponse(h, n, r.connection, status, RejectionBody(status)));
    assert Rejected(s.http.requests, s.http.token, env.read) + [n] == Rejected(h.requests, h.token, env.read);
    CountsSnoc(Rejected(s.http.requests, s.http.token, env.read), n);
    assert Gated(s', env) by {
      assert Forwarded(s.http.requests, s.http.token, env.read) + [] ==
             Forwarded(s.http.requests, s.http.token, env.read);
    }
    assert multiset(Rejected(s'.http.requests, s'.http.token, env.read)) ==
           multiset(Rejected(s.http.requests, s.http.token, env.read)) + multiset{n};
    assert multiset(AnswerRequests(s'.http.answers)) + multiset(s'.http.dropped) ==
           multiset(AnswerRequests(s.http.answers)) + multiset(s.http.dropped) + multiset{n};
    AccountGrows(multiset(AnswerRequests(s.http.answers)) + multiset(s.http.dropped),
                 multiset(PendingRequests(s.http.inbox)),
                 multiset(Rejected(s.http.requests, s.http.token, env.read)),
                 multiset(PendingRequests(returned)), multiset{n});
    assert Balanced(s', env);
    assert DroppedClosed(s'.http);
  }

  lemma AccountGrows(given: multiset<nat>, waiting: multiset<nat>, rejected: multiset<nat>, returned: multiset<nat>,
                     n: multiset<nat>)
    requires given + waiting == rejected + returned
    ensures (given + n) + waiting == (rejected + n) + returned
    ensures given + (waiting + n) == rejected + (returned + n)
  {
    forall x: nat
      ensures ((given + n) + waiting)[x] == ((rejected + n) + returned)[x]
      ensures (given + (waiting + n))[x] == (rejected + (returned + n))[x]
    {
      assert (given + waiting)[x] == (rejected + returned)[x];
    }
  }

  lemma RejectionJustified(h: Transport, n: nat, status: nat, returned: seq<Pending>, env: Env)
    requires n < |h.requests| && VerdictOf(h.requests[n], h.token, env.read) == Reject(status)
    ensures Justified(h, Answer(n, h.requests[n].connection, status, RejectionBody(status)), returned, env)
  {
  }

  /** A request whose message goes to the main thread. */
  lemma ForwardKeeps(s: System, r: Request, message: Dictionary, env: Env)
    requires HttpInv(s, env) && r.connection in s.http.open
    requires VerdictOf(r, s.http.token, env.read) == Forward(message)
    ensures HttpInv(s.(http := s.http.(requests := s.http.requests + [r]),
                       posted := s.posted + [Posted(FromHttp(r.connection, |s.http.requests|), message)]), env)
  {
    hide PostedByHttp, Returned, Forwarded, Rejected, VerdictOf, Answered;
    var p := Posted(FromHttp(r.connection, |s.http.requests|), message);
    var returned := Returned(s.server.replies[..s.sentCount], s.posted);
    RequestSnoc(s.http.requests, r, s.http.token, env.read);
    PostedByHttpSnoc(s.posted, p);
    ReturnedExtends(s.server.replies[..s.sentCount], s.posted, p);
    AnsweredMoreRequests(s.http, r, returned, env);
  }

  /** The oldest response posted back runs on the HTTP thread. */
  /** Running a response moves its request from those pending to those answered or dropped. */
  lemma RespondBalances(s: System, env: Env)
    requires Shaped(s) && Balanced(s, env) && s.http.inbox != []
    ensures Balanced(s.(http := SendMCPResponse(s.http, env.write)), env)
  {
    hide Returned, Rejected, StatusFor, RejectionBody, AnswerRequests;
    var p := s.http.inbox[0];
    var h := s.http.(inbox := s.http.inbox[1..]);
    var (status, body) := StatusFor(p.response, env.write);
    assert PendingRequests(s.http.inbox) == [p.request] + PendingRequests(h.inbox) by {
      assert s.http.inbox == [p] + h.inbox;
    }
    CountsCons(p.request, PendingRequests(h.inbox));
    SendResponseCounts(h, p.request, p.connection, status, body);
  }

  lemma RespondKeeps(s: System, env: Env)
    requires HttpInv(s, env) && s.http.inbox != []
    ensures HttpInv(s.(http := SendMCPResponse(s.http, env.write)), env)
  {
    hide PostedByHttp, Returned, Forwarded, Rejected, VerdictOf, StatusFor, RejectionBody, Answered, Justified,
         AnswerRequests, PendingRequests, Balanced;
    var returned := Returned(s.server.replies[..s.sentCount], s.posted);
    var p := s.http.inbox[0];
    var h := s.http.(inbox := s.http.inbox[1..]);
    var (status, body) := StatusFor(p.response, env.write);
    RespondBalances(s, env);
    ResponseJustified(s.http, returned, env);
    SendResponseAnswered(h, Answer(p.request, p.connection, status, body), returned, env);
    JustifiedIsRequest(h, Answer(p.request, p.connection, status, body), returned, env);
    assert DroppedClosed(SendResponse(h, p.request, p.connection, status, body));
  }

  lemma JustifiedIsRequest(h: Transport, a: Answer, returned: seq<Pending>, env: Env)
    requires Justified(h, a, returned, env)
    ensures IsRequest(h, a.request, a.connection)
  {
  }

  lemma ResponseJustified(h: Transport, returned: seq<Pending>, env: Env)
    requires Answered(h, returned, env) && h.inbox != []
    ensures var p := h.inbox[0];
            var (status, body) := StatusFor(p.response, env.write);
            && Justified(h.(inbox := h.inbox[1..]), Answer(p.request, p.connection, status, body), returned, env)
            && Answered(h.(inbox := h.inbox[1..]), returned, env)
  {
    hide VerdictOf, StatusFor, RejectionBody;
    var h' := h.(inbox := h.inbox[1..]);
    assert returned[|returned| - |h.inbox|] == h.inbox[0];
    forall i | 0 <= i < |h.answers| ensures Justified(h', h'.answers[i], returned, env) {
      assert Justified(h, h.answers[i], returned, env);
    }
  }

  /** A reply handed on by the main thread: for HTTP it joins the inbox. */
  lemma DeliverKeeps(s: System, outcomes: seq<IpcTransport.SendReturn>, env: Env)
    requires Shaped(s) && Deliverable(s, outcomes, env) && Shaped(Deliver(s, outcomes, env)) && HttpInv(s, env)
    ensures HttpInv(Deliver(s, outcomes, env), env)
  {
    var s' := Deliver(s, outcomes, env);
    assert s'.posted == s.posted && s'.server == s.server && s'.sentCount == s.sentCount + 1;
    assert s'.http == match NextOrigin(s)
                      case FromHttp(c, r) => PostResponse(s.http, Pending(r, c, NextReply(s).response))
                      case _ => s.http;
    HandOnKeeps(s, s', env);
  }

  lemma HandOnKeeps(s: System, s': System, env: Env)
    requires HttpInv(s, env) && s.sentCount < |s.server.replies| && Shaped(s')
    requires s'.posted == s.posted && s'.server == s.server && s'.sentCount == s.sentCount + 1
    requires s'.http == match NextOrigin(s)
                        case FromHttp(c, r) => PostResponse(s.http, Pending(r, c, NextReply(s).response))
                        case _ => s.http
    ensures HttpInv(s', env)
  {
    hide PostedByHttp, Returned, Forwarded, Rejected, VerdictOf, Answered, Justified, AnswerRequests;
    ReturnedSnoc(s);
    var returned := Returned(s.server.replies[..s.sentCount], s.posted);
    match NextOrigin(s)
    case FromHttp(c, r) =>
      var p := Pending(r, c, NextReply(s).response);
      PostedIsForwarded(s.posted, NextReply(s).callback, s.http.requests, s.http.token, env.read);
      PendingSnoc(s.http.inbox, p);
      PendingSnoc(returned, p);
      CountsSnoc(PendingRequests(s.http.inbox), r);
      CountsSnoc(PendingRequests(returned), r);
      AccountGrows(multiset(AnswerRequests(s.http.answers)) + multiset(s.http.dropped),
                   multiset(PendingRequests(s.http.inbox)),
                   multiset(Rejected(s.http.requests, s.http.token, env.read)),
                   multiset(PendingRequests(returned)), multiset{r});
      AnsweredReturnedMore(s.http, p, returned, env);
    case _ => assert returned + [] == returned;
  }

  lemma PendingSnoc(inbox: seq<Pending>, p: Pending)
    ensures PendingRequests(inbox + [p]) == PendingRequests(inbox) + [p.request]
  {
  }

  lemma AnsweredReturnedMore(h: Transport, p: Pending, returned: seq<Pending>, env: Env)
    requires Answered(h, returned, env)
    requires IsRequest(h, p.request, p.connection) && VerdictOf(h.requests[p.request], h.token, env.read).Forward?
    ensures Answered(PostResponse(h, p), returned + [p], env)
  {
    hide VerdictOf, StatusFor, RejectionBody;
    var h' := PostResponse(h, p);
    forall i | 0 <= i < |h.answers| ensures Justified(h', h'.answers[i], returned + [p], env) {
      assert Justified(h, h.answers[i], returned, env);
      if VerdictOf(h.requests[h.answers[i].request], h.token, env.read).Forward? {
        var k :| 0 <= k < |returned| &&
          returned[k].request == h.answers[i].request &&
          StatusFor(returned[k].response, env.write) == (h.answers[i].status, h.answers[i].body);
        assert (returned + [p])[k] == returned[k];
      }
    }
  }

  /** Whatever HTTP posted is the message of a forwarded request. */
  lemma {:induction false} PostedIsForwarded(posted: seq<Posted>, t: nat, requests: seq<Request>, token: string,
          read: Reader)
    requires t < |posted| && posted[t].origin.FromHttp?
    requires PostedByHttp(posted) == Forwarded(requests, token, read)
    ensures var r := posted[t].origin.request;
            && r < |requests| && requests[r].connection == posted[t].origin.connection
            && VerdictOf(requests[r], token, read) == Forward(posted[t].message)
  {
    InPostedByHttp(posted, t);
    ForwardedAreRequests(requests, token, read, posted[t]);
  }

  lemma {:induction false} InPostedByHttp(posted: seq<Posted>, t: nat)
    requires t < |posted| && posted[t].origin.FromHttp?
    ensures posted[t] in PostedByHttp(posted)
  {
    if t < |posted| - 1 {
      InPostedByHttp(posted[..|posted| - 1], t);
    }
  }

  lemma {:induction false} ForwardedAreRequests(requests: seq<Request>, token: string, read: Reader, p: Posted)
    requires p in Forwarded(requests, token, read)
    ensures p.origin.FromHttp? && p.origin.request < |requests|
    ensures requests[p.origin.request].connection == p.origin.connection
    ensures VerdictOf(requests[p.origin.request], token, read) == Forward(p.message)
  {
    hide VerdictOf;
    var n := |requests| - 1;
    if p in Forwarded(requests[..n], token, read) {
      ForwardedAreRequests(requests[..n], token, read, p);
    }
  }
}
