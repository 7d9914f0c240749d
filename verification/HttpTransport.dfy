/**
 The HTTP transport: which requests reach the server, and which connections may be answered. The
 HTTP server underneath reports connects, requests and closes, and never uses a connection id twice.
 */
module HttpTransport {
  import opened Wrappers
  import opened Values
  import CommaLists

  /** The Origin header: absent, or a URL that is well formed or not. */
  datatype OriginHeader = NoOrigin | OriginUrl(valid: bool, host: string)

  datatype RequestInfo = RequestInfo(
    path: string,
    verb: string,
    origin: OriginHeader,
    authorization: string,
    accept: string,
    data: string)

  // ---------- Header checks ----------

  function LowerChar(c: char): char {
    if 'A' <= c <= 'Z' then (c as int + 32) as char else c
  }

  function Lower(s: string): string {
    seq(|s|, i requires 0 <= i < |s| => LowerChar(s[i]))
  }

  predicate EqualsIgnoringCase(a: string, b: string) {
    Lower(a) == Lower(b)
  }

  predicate IsLoopbackOriginHost(host: string) {
    host == "127.0.0.1" || host == "::1" || EqualsIgnoringCase(host, "localhost")
  }

  predicate IsAllowedOrigin(info: RequestInfo) {
    info.origin.NoOrigin? || (info.origin.valid && IsLoopbackOriginHost(info.origin.host))
  }

  const BEARER_PREFIX := "Bearer "

  predicate IsAuthorized(info: RequestInfo, token: string) {
    && |info.authorization| >= |BEARER_PREFIX|
    && EqualsIgnoringCase(info.authorization[..|BEARER_PREFIX|], BEARER_PREFIX)
    && info.authorization[|BEARER_PREFIX|..] == token
  }

  function BeforeParameters(item: string): string {
    if item == "" || item[0] == ';' then "" else [item[0]] + BeforeParameters(item[1..])
  }

  function TrimBlanksLeft(s: string): string {
    if s != "" && (s[0] == ' ' || s[0] == '\t') then TrimBlanksLeft(s[1..]) else s
  }

  function TrimBlanksRight(s: string): string {
    if s != "" && (s[|s| - 1] == ' ' || s[|s| - 1] == '\t') then TrimBlanksRight(s[..|s| - 1]) else s
  }

  function MediaType(item: string): string {
    if ';' in item then TrimBlanksRight(TrimBlanksLeft(BeforeParameters(item))) else item
  }

  predicate MatchesMimeType(item: string, expected: string) {
    || EqualsIgnoringCase(MediaType(item), expected)
    || EqualsIgnoringCase(MediaType(item), "*/*")
    || EqualsIgnoringCase(MediaType(item), "application/*")
  }

  predicate HeaderContainsMimeType(header: string, expected: string) {
    exists i :: 0 <= i < |CommaLists.Tokens(header)| && MatchesMimeType(CommaLists.Tokens(header)[i], expected)
  }

  predicate AcceptsJson(info: RequestInfo) {
    HeaderContainsMimeType(info.accept, "application/json")
  }

  // ---------- The gate ----------

  datatype Verdict = Reject(status: nat) | Forward(message: Dictionary)

  type Reader = string -> Option<Dictionary>

  function Judge(info: RequestInfo, token: string, read: Reader): Verdict {
    if info.path != "/mcp" then Reject(404)
    else if !IsAllowedOrigin(info) then Reject(403)
    else if !IsAuthorized(info, token) then Reject(401)
    else if info.verb != "POST" then Reject(405)
    else if !AcceptsJson(info) then Reject(406)
    else match read(info.data)
      case None => Reject(400)
      case Some(message) => Forward(message)
  }

  // ---------- Connections and responses ----------

  datatype Request = Request(connection: int, info: RequestInfo, webSocket: bool)

  /** One call of HttpServer::SendResponse. */
  datatype Answer = Answer(request: nat, connection: int, status: nat, body: string)

  /** A response on its way from the main thread to the HTTP thread. */
  datatype Pending = Pending(request: nat, connection: int, response: Option<Dictionary>)

  /**
   `open` is the program's set of open connections; `seen` and `requests` record every connection and
   request; `answers` and `dropped` record what became of the responses.
   */
  datatype Transport = Transport(
    token: string,
    open: set<int>,
    seen: set<int>,
    requests: seq<Request>,
    inbox: seq<Pending>,
    answers: seq<Answer>,
    dropped: seq<nat>)

  function Started(token: string): Transport {
    Transport(token, {}, {}, [], [], [], [])
  }

  function OnConnect(h: Transport, connection: int): Transport {
    h.(open := h.open + {connection}, seen := h.seen + {connection})
  }

  function OnClose(h: Transport, connection: int): Transport {
    h.(open := h.open - {connection})
  }

  function StopOnHttpThread(h: Transport): Transport {
    h.(open := {})
  }

  /** Every response passes this gate: none goes out on a connection that is not open. */
  function SendResponse(h: Transport, request: nat, connection: int, status: nat, body: string): Transport {
    if connection !in h.open then h.(dropped := h.dropped + [request])
    else h.(answers := h.answers + [Answer(request, connection, status, body)])
  }

  function RejectionBody(status: nat): string {
    match status
    case 404 => "Not Found"
    case 403 => "Forbidden"
    case 401 => "Unauthorized"
    case 405 => "Method Not Allowed"
    case 406 => "Not Acceptable"
    case _ => "Invalid JSON"
  }

  /** A request is rejected on the spot, or its message goes to the main thread. */
  function OnHttpRequest(h: Transport, connection: int, info: RequestInfo, read: Reader)
    : (Transport, Option<Dictionary>)
  {
    var recorded := h.(requests := h.requests + [Request(connection, info, false)]);
    match Judge(info, h.token, read)
    case Reject(status) => (SendResponse(recorded, |h.requests|, connection, status, RejectionBody(status)), None)
    case Forward(message) => (recorded, Some(message))
  }

  /** A web socket request or message is answered like a request with the wrong method. */
  function OnWebSocket(h: Transport, connection: int, info: RequestInfo): Transport {
    SendResponse(h.(requests := h.requests + [Request(connection, info, true)]),
                 |h.requests|, connection, 405, RejectionBody(405))
  }

  function PostResponse(h: Transport, pending: Pending): Transport {
    h.(inbox := h.inbox + [pending])
  }

  type Writer = Dictionary -> Option<string>

  function StatusFor(response: Option<Dictionary>, write: Writer): (nat, string) {
    match response
    case None => (202, "")
    case Some(d) =>
      match write(d)
      case None => (500, "Failed to serialize MCP response")
      case Some(json) => (200, json)
  }

  /** The oldest posted response runs on the HTTP thread. */
  function SendMCPResponse(h: Transport, write: Writer): Transport
    requires h.inbox != []
  {
    var pending := h.inbox[0];
    var (status, body) := StatusFor(pending.response, write);
    SendResponse(h.(inbox := h.inbox[1..]), pending.request, pending.connection, status, body)
  }
}
