/** The HTTP transport as the object the program keeps, proved to move as HttpTransport says. */
module HttpTransportClass {
  import opened Wrappers
  import opened Values
  import CommaLists
  import opened HttpTransport

  /** The loop over the items of an Accept header. */
  method ContainsMimeType(header: string, expectedType: string) returns (found: bool)
    ensures found == HttpTransport.HeaderContainsMimeType(header, expectedType)
  {
    hide CommaLists.Tokens, MatchesMimeType;
    var items := CommaLists.Tokens(header);
    for i := 0 to |items|
      invariant forall j :: 0 <= j < i ==> !MatchesMimeType(items[j], expectedType)
    {
      if MatchesMimeType(items[i], expectedType) {
        return true;
      }
    }
    return false;
  }

  class MCPHttpTransport {
    const token: string
    var openConnections: set<int>
    ghost var seen: set<int>
    ghost var requests: seq<Request>
    ghost var inbox: seq<Pending>
    ghost var answers: seq<Answer>
    ghost var dropped: seq<nat>

    ghost function State(): Transport
      reads this
    {
      Transport(token, openConnections, seen, requests, inbox, answers, dropped)
    }

    constructor (token: string)
      ensures State() == Started(token)
    {
      this.token := token;
      openConnections := {};
      seen, requests, inbox, answers, dropped := {}, [], [], [], [];
    }

    method OnConnect(connection: int)
      modifies this`openConnections, this`seen
      ensures State() == HttpTransport.OnConnect(old(State()), connection)
    {
      openConnections := openConnections + {connection};
      seen := seen + {connection};
    }

    method OnClose(connection: int)
      modifies this`openConnections
      ensures State() == HttpTransport.OnClose(old(State()), connection)
    {
      openConnections := openConnections - {connection};
    }

    method StopOnHttpThread()
      modifies this`openConnections
      ensures State() == HttpTransport.StopOnHttpThread(old(State()))
    {
      openConnections := {};
    }

    /** SendTextResponse, and every other place that answers: only an open connection is sent to. */
    method SendTextResponse(ghost request: nat, connection: int, status: nat, body: string)
      modifies this`answers, this`dropped
      ensures State() == SendResponse(old(State()), request, connection, status, body)
    {
      if connection !in openConnections {
        dropped := dropped + [request];
        return;
      }
      answers := answers + [Answer(request, connection, status, body)];
    }

    method OnHttpRequest(connection: int, info: RequestInfo, read: Reader) returns (message: Option<Dictionary>)
      modifies this`requests, this`answers, this`dropped
      ensures (State(), message) == HttpTransport.OnHttpRequest(old(State()), connection, info, read)
    {
      hide IsAllowedOrigin, IsAuthorized, HttpTransport.HeaderContainsMimeType;
      ghost var request := |requests|;
      requests := requests + [Request(connection, info, false)];
      message := None;
      if info.path != "/mcp" {
        SendTextResponse(request, connection, 404, "Not Found");
        return;
      }
      if !IsAllowedOrigin(info) {
        SendTextResponse(request, connection, 403, "Forbidden");
        return;
      }
      if !IsAuthorized(info, token) {
        SendTextResponse(request, connection, 401, "Unauthorized");
        return;
      }
      if info.verb != "POST" {
        SendTextResponse(request, connection, 405, "Method Not Allowed");
        return;
      }
      var acceptsJson := ContainsMimeType(info.accept, "application/json");
      if !acceptsJson {
        SendTextResponse(request, connection, 406, "Not Acceptable");
        return;
      }
      message := read(info.data);
      if message.None? {
        SendTextResponse(request, connection, 400, "Invalid JSON");
      }
    }

    method OnWebSocketRequest(connection: int, info: RequestInfo)
      modifies this`requests, this`answers, this`dropped
      ensures State() == OnWebSocket(old(State()), connection, info)
    {
      ghost var request := |requests|;
      requests := requests + [Request(connection, info, true)];
      SendTextResponse(request, connection, 405, "Method Not Allowed");
    }

    /** The oldest posted response, when its task runs. */
    method SendMCPResponse(connection: int, response: Option<Dictionary>, write: Writer)
      requires inbox != [] && connection == inbox[0].connection && response == inbox[0].response
      modifies this`inbox, this`answers, this`dropped
      ensures State() == HttpTransport.SendMCPResponse(old(State()), write)
    {
      ghost var request := inbox[0].request;
      inbox := inbox[1..];
      if connection !in openConnections {
        dropped := dropped + [request];
        return;
      }
      if response.None? {
        answers := answers + [Answer(request, connection, 202, "")];
        return;
      }
      var json := write(response.value);
      if json.None? {
        SendTextResponse(request, connection, 500, "Failed to serialize MCP response");
        return;
      }
      answers := answers + [Answer(request, connection, 200, json.value)];
    }
  }
}
