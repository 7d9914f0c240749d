/** What each kind of message is answered with at once, read off the message itself. */
module McpRouting {
  import opened Wrappers
  import opened Values
  import opened McpServer
  import opened McpServerProofs
  import opened McpServerRuns
  import opened McpToolCalls

  predicate HasMethod(message: Dictionary, name: string) {
    "method" in message && message["method"] == Str(name)
  }

  predicate HasNoMethod(message: Dictionary) {
    "method" in message ==> !message["method"].Str?
  }

  predicate Fails(response: Option<Dictionary>, id: Value, code: int, text: string) {
    && response.Some? && IsError(response.value, id, code)
    && response.value["error"].entries["message"] == Str(text)
  }

  predicate Succeeds(response: Option<Dictionary>, id: Value, result: Dictionary) {
    response.Some? && IsResult(response.value, id) && response.value["result"] == Dict(result)
  }

  /** The list of the registered tools, each with its own name, description and schema, in order. */
  predicate ListsTools(response: Option<Dictionary>, id: Value, tools: seq<Tool>) {
    && response.Some? && IsResult(response.value, id)
    && var result := response.value["result"].entries;
       && result.Keys == {"tools"} && result["tools"].List? && |result["tools"].items| == |tools|
       && forall i :: 0 <= i < |tools| ==>
            result["tools"].items[i] == Dict(map["name" := Str(tools[i].name),
                                                 "description" := Str(tools[i].description),
                                                 "inputSchema" := Dict(tools[i].inputSchema)])
  }

  predicate DescribesServer(response: Option<Dictionary>, id: Value) {
    && response.Some? && IsResult(response.value, id)
    && var result := response.value["result"].entries;
       && result.Keys == {"serverInfo", "protocolVersion", "capabilities"}
       && result["serverInfo"] == Dict(map["name" := Str("browserd"), "version" := Str("1.0.0")])
       && result["protocolVersion"] == Str("2024-11-05")
       && result["capabilities"] == Dict(map["tools" := Dict(map["listChanged" := Bool(false)])])
  }

  /** The response that a message deserves at once; a named call of an initialized server has none yet. */
  predicate Fits(message: Dictionary, initialized: bool, tools: seq<Tool>, response: Option<Dictionary>) {
    if "id" !in message || HasMethod(message, "notifications/initialized") then response.None?
    else
      var id := message["id"];
      if HasNoMethod(message) then Fails(response, id, -32600, "Invalid Request")
      else if HasMethod(message, "initialize") then DescribesServer(response, id)
      else if HasMethod(message, "ping") then Succeeds(response, id, map[])
      else if !initialized then Fails(response, id, -32002, "Server not initialized")
      else if HasMethod(message, "tools/list") then ListsTools(response, id, tools)
      else if HasMethod(message, "tools/call") then Fails(response, id, -32602, "Missing tool name")
      else Fails(response, id, -32601, "Method not found: " + message["method"].s)
  }

  /** The message makes the server count as initialized. */
  predicate Opens(message: Dictionary) {
    HasMethod(message, "notifications/initialized") || (HasMethod(message, "initialize") && "id" in message)
  }

  predicate IsNamedCall(message: Dictionary, initialized: bool) {
    initialized && "id" in message && AsksFor(message, Named(message), Arguments(message))
  }

  /** A message that is no named call of an initialized server is answered at once, as it deserves. */
  lemma AnsweredAtOnce(s: Server, message: Dictionary, handlers: Handlers) returns (response: Option<Dictionary>)
    requires !IsNamedCall(message, s.initialized)
    ensures OnMessage(s, message, handlers) ==
            s.(messages := s.messages + [message], initialized := s.initialized || Opens(message),
               replies := s.replies + [Reply(|s.messages|, response)])
    ensures Fits(message, s.initialized, s.tools, response)
  {
    OnlyCallsJoin(message, s.initialized);
    AtOnceReply(s, message, handlers);
    OpensInitializes(message);
    response := AtOnceResponse(s, message);
    hide OnMessage, AtOnceResponse, VerdictOn, Fits, Initializes, Opens, AsksFor, Named, Arguments;
    AtOnceFits(s, message);
  }

  lemma OpensInitializes(message: Dictionary)
    ensures Opens(message) == Initializes(message)
  {
  }

  lemma ListedTools(id: Value, tools: seq<Tool>)
    ensures ListsTools(Some(ResultMessage(id, ToolsListResult(tools))), id, tools)
  {
  }

  lemma ServerDescribed(id: Value)
    ensures DescribesServer(Some(ResultMessage(id, InitializeResult())), id)
  {
  }

  lemma Failed(id: Value, code: int, text: string)
    ensures Fails(Some(ErrorMessage(id, code, text)), id, code, text)
  {
  }

  /** How the method is read. */
  lemma MethodRead(message: Dictionary)
    ensures var kind := MethodOf(message);
            && (kind.Missing? <==> HasNoMethod(message))
            && (kind.Initialize? <==> HasMethod(message, "initialize"))
            && (kind.NotifyInitialized? <==> HasMethod(message, "notifications/initialized"))
            && (kind.Ping? <==> HasMethod(message, "ping"))
            && (kind.ToolsList? <==> HasMethod(message, "tools/list"))
            && (kind.ToolsCall? <==> HasMethod(message, "tools/call"))
            && (kind.Other? ==> "method" in message && message["method"] == Str(kind.name))
  {
  }

  lemma AtOnceFits(s: Server, message: Dictionary)
    requires !VerdictOn(message, s.initialized).ToolCall?
    ensures Fits(message, s.initialized, s.tools, AtOnceResponse(s, message))
  {
    hide ListsTools, DescribesServer, Fails, ErrorMessage, InitializeResult, ToolsListResult, ExecuteNextToolCall,
         IsResult, MethodOf, HasMethod, Params, FindString, ResultMessage, Succeeds;
    MethodRead(message);
    if "id" in message {
      var id := message["id"];
      ListedTools(id, s.tools);
      ServerDescribed(id);
      Succeeded(id);
      forall code, text ensures Fails(Some(ErrorMessage(id, code, text)), id, code, text) {
        Failed(id, code, text);
      }
    }
  }

  lemma Succeeded(id: Value)
    ensures Succeeds(Some(ResultMessage(id, map[])), id, map[])
  {
  }

  // ---------- Over runs ----------

  /** A reply that does not answer a named call was given by the event that received its message. */
  lemma StepFits(s: Server, e: Event, handlers: Handlers, i: nat)
    requires Invariant(s) && |s.replies| <= i < |Step(s, e, handlers).replies|
    requires var after := Step(s, e, handlers);
             after.replies[i].callback < |after.messages| &&
             !VerdictAt(after.messages, after.replies[i].callback).ToolCall?
    ensures e.Receive? && Step(s, e, handlers).replies[i].callback == |s.messages|
    ensures Step(s, e, handlers).messages == s.messages + [e.message]
    ensures Fits(e.message, s.initialized, s.tools, Step(s, e, handlers).replies[i].response)
  {
    hide Balanced, Matches, Deserved, Reports, OnMessage, HandlerCompletes, VerdictOn, Fits;
    match e
    case Receive(message) =>
      ReceivedVerdict(s, message);
      OnMessageKeeps(s, message, handlers);
      OnlyCallsJoin(message, s.initialized);
      if VerdictOn(message, s.initialized).ToolCall? {
        var call := MessageExplained(s, message, handlers, i);
        DeservedAnswersCall(s, handlers, call, OnMessage(s, message, handlers).replies[i]);
        assert false;
      } else {
        var response := AnsweredAtOnce(s, message, handlers);
      }
    case Complete(content, isError) =>
      var call := CompletionExplained(s, content, isError, handlers, i);
      HandlerCompletesKeeps(s, content, isError, handlers);
      ExplainsItsCall(s, e, i, call, Step(s, e, handlers).replies[i], handlers);
      MatchedVerdict(s.messages, call);
      assert false;
    case _ =>
  }

  lemma DeservedAnswersCall(s: Server, handlers: Handlers, call: PendingToolCall, reply: Reply)
    requires Deserved(s.tools, s.hasController, handlers, call, reply)
    ensures reply.callback == call.callback
  {
  }

  /**
   In any run, every reply to a message other than a named call of an initialized server is the one that
   the message deserves, given whether an earlier message had opened the server, and the tools
   registered when event k received it.
   */
  lemma {:induction false} EveryReplyFits(events: seq<Event>, handlers: Handlers, i: nat) returns (k: nat)
    requires var s := Run(INITIAL, events, handlers);
             && i < |s.replies| && s.replies[i].callback < |s.messages|
             && !VerdictAt(s.messages, s.replies[i].callback).ToolCall?
    ensures var s := Run(INITIAL, events, handlers);
            var t := s.replies[i].callback;
            && k < |events| && events[k] == Receive(s.messages[t])
            && Fits(s.messages[t], exists j :: 0 <= j < t && Opens(s.messages[j]), At(events, k, handlers).tools,
                    s.replies[i].response)
  {
    hide Invariant, Step, Run, VerdictAt, Fits, Opens;
    assert events[..|events|] == events;
    var s := Run(INITIAL, events, handlers);
    var t := s.replies[i].callback;
    k := AddedAt(events, |events|, handlers, i);
    AtNext(events, k, handlers);
    AtGrows(events, k + 1, |events|, handlers);
    var before, after := At(events, k, handlers), At(events, k + 1, handlers);
    CallbackKnown(after, i);
    SameVerdict(after.messages, s.messages, t);
    StepFits(before, events[k], handlers, i);
    InitializedOnceOpened(before, s.messages);
    assert after.messages[t] == events[k].message;
  }

  lemma InitializedOnceOpened(s: Server, messages: seq<Dictionary>)
    requires Invariant(s) && s.messages <= messages
    ensures s.initialized <==> exists j :: 0 <= j < |s.messages| && Opens(messages[j])
  {
    hide Conforming, AllMatch, Counted, Ordered, Opens, Initializes;
    forall j | 0 <= j < |s.messages| ensures Opens(messages[j]) == Initializes(s.messages[j]) {
      OpensInitializes(s.messages[j]);
    }
  }
}
