/** The MCP server as the object the program keeps, proved to move as McpServer says. */
module McpServerClass {
  import opened Wrappers
  import opened Values
  import opened McpServer
  import opened McpServerProofs

  class MCPServer {
    var initialized: bool
    var toolCallInProgress: bool
    var toolCallQueue: seq<PendingToolCall>
    var hasController: bool
    var tools: seq<Tool>
    /** The call whose completion callback a handler still holds. */
    var running: Option<PendingToolCall>
    /** Everything received so far: the next message's callback is named by its length. */
    var messages: seq<Dictionary>
    ghost var replies: seq<Reply>

    ghost function State(): Server
      reads this
    {
      Server(initialized, toolCallInProgress, toolCallQueue, hasController, tools, running, messages, replies)
    }

    ghost predicate Valid()
      reads this
    {
      Invariant(State())
    }

    constructor ()
      ensures Valid() && State() == INITIAL
    {
      initialized, toolCallInProgress, toolCallQueue := false, false, [];
      hasController, tools := false, [];
      running, messages, replies := None, [], [];
      new;
      InitialInvariant();
    }

    method SetController(present: bool)
      requires Valid()
      modifies this`hasController
      ensures Valid() && State() == old(State()).(hasController := present)
    {
      SettingsKeep(State(), present, tools);
      hide Invariant;
      hasController := present;
    }

    method RegisterTool(tool: Tool)
      requires Valid()
      modifies this`tools
      ensures Valid() && State() == old(State()).(tools := old(tools) + [tool])
    {
      SettingsKeep(State(), hasController, tools + [tool]);
      hide Invariant;
      tools := tools + [tool];
    }

    /** Runs a response callback: the transport that owns it gets the response. */
    method RunCallback(ghost callback: nat, response: Option<Dictionary>)
      modifies this`replies
      ensures replies == old(replies) + [Reply(callback, response)]
    {
      replies := replies + [Reply(callback, response)];
    }

    method SendNoResponse(ghost callback: nat)
      modifies this`replies
      ensures State() == McpServer.SendNoResponse(old(State()), callback)
    {
      RunCallback(callback, None);
    }

    method SendResult(id: Value, result: Dictionary, ghost callback: nat)
      modifies this`replies
      ensures State() == McpServer.SendResult(old(State()), id, result, callback)
    {
      var response: Dictionary := map[];
      response := response["jsonrpc" := Str("2.0")];
      response := response["id" := id];
      response := response["result" := Dict(result)];
      assert response == ResultMessage(id, result);
      RunCallback(callback, Some(response));
    }

    method SendError(id: Value, code: int, message: string, ghost callback: nat)
      modifies this`replies
      ensures State() == McpServer.SendError(old(State()), id, code, message, callback)
    {
      var response: Dictionary := map[];
      response := response["jsonrpc" := Str("2.0")];
      response := response["id" := id];
      var error: Dictionary := map[];
      error := error["code" := Int(code)];
      error := error["message" := Str(message)];
      assert error == map["code" := Int(code), "message" := Str(message)];
      response := response["error" := Dict(error)];
      assert response == ErrorMessage(id, code, message);
      RunCallback(callback, Some(response));
    }

    /** The position of the first tool of this name, or the number of tools. */
    method FindTool(name: string) returns (k: nat)
      ensures k == ToolPosition(tools, name)
    {
      k := 0;
      while k < |tools| && tools[k].name != name
        invariant k <= |tools|
        invariant forall j :: 0 <= j < k ==> tools[j].name != name
      {
        k := k + 1;
      }
    }

    method ExecuteNextToolCall(handlers: Handlers)
      modifies this`toolCallInProgress, this`toolCallQueue, this`running, this`replies
      ensures State() == McpServer.ExecuteNextToolCall(old(State()), handlers)
      decreases |toolCallQueue|, 1
    {
      if |toolCallQueue| == 0 {
        toolCallInProgress := false;
        return;
      }

      toolCallInProgress := true;
      var call := toolCallQueue[0];
      toolCallQueue := toolCallQueue[1..];

      if !hasController {
        OnToolCallComplete(call, TextContent("No browser controller"), true, handlers);
        return;
      }

      var k := FindTool(call.name);
      if k < |tools| {
        RunHandler(tools[k], call, handlers);
        return;
      }

      SendError(call.id, -32602, "Unknown tool: " + call.name, call.callback);
      ExecuteNextToolCall(handlers);
    }

    /** A tool handler: it runs its completion callback before returning, or keeps it. */
    method RunHandler(tool: Tool, call: PendingToolCall, handlers: Handlers)
      modifies this`toolCallInProgress, this`toolCallQueue, this`running, this`replies
      ensures State() ==
              match handlers(tool, call.args, call.callback)
              case Defers => old(State()).(running := Some(call))
              case CompletesNow(content, isError) =>
                McpServer.OnToolCallComplete(old(State()), call, content, isError, handlers)
      decreases |toolCallQueue|, 3
    {
      match handlers(tool, call.args, call.callback)
      case Defers => running := Some(call);
      case CompletesNow(content, isError) => OnToolCallComplete(call, content, isError, handlers);
    }

    method OnToolCallComplete(call: PendingToolCall, content: seq<Value>, isError: bool, handlers: Handlers)
      modifies this`toolCallInProgress, this`toolCallQueue, this`running, this`replies
      ensures State() == McpServer.OnToolCallComplete(old(State()), call, content, isError, handlers)
      decreases |toolCallQueue|, 2
    {
      var result: Dictionary := map[];
      result := result["content" := List(content)];
      if isError {
        result := result["isError" := Bool(true)];
      }
      assert result == ToolResult(content, isError);
      SendResult(call.id, result, call.callback);
      ExecuteNextToolCall(handlers);
    }

    /** A handler that kept its completion callback runs it, once. */
    method CompleteRunning(content: seq<Value>, isError: bool, handlers: Handlers)
      requires Valid() && running.Some?
      modifies this`toolCallInProgress, this`toolCallQueue, this`running, this`replies
      ensures Valid() && State() == HandlerCompletes(old(State()), content, isError, handlers)
    {
      HandlerCompletesKeeps(State(), content, isError, handlers);
      hide Balanced;
      var call := running.value;
      running := None;
      OnToolCallComplete(call, content, isError, handlers);
    }

    // ---------- Messages ----------

    method OnMessage(message: Dictionary, handlers: Handlers)
      requires Valid()
      modifies this`initialized, this`toolCallInProgress, this`toolCallQueue, this`running, this`messages, this`replies
      ensures Valid() && State() == McpServer.OnMessage(old(State()), message, handlers)
    {
      OnMessageKeeps(State(), message, handlers);
      hide Balanced, ToolPosition, McpServer.Route;
      var callback := |messages|;
      messages := messages + [message];
      var kind := ReadMethod(message);
      Route(kind, message, callback, handlers);
    }

    /** Compares the method name with the ones the server knows, in the program's order. */
    method ReadMethod(message: Dictionary) returns (kind: Method)
      ensures kind == MethodOf(message)
    {
      var name := FindString(message, "method");
      if name.None? {
        return Missing;
      } else if name.value == "initialize" {
        return Initialize;
      } else if name.value == "notifications/initialized" {
        return NotifyInitialized;
      } else if name.value == "ping" {
        return Ping;
      } else if name.value == "tools/list" {
        return ToolsList;
      } else if name.value == "tools/call" {
        return ToolsCall;
      } else {
        return Other(name.value);
      }
    }

    method Route(kind: Method, message: Dictionary, callback: nat, handlers: Handlers)
      requires kind == MethodOf(message)
      modifies this`initialized, this`toolCallInProgress, this`toolCallQueue, this`running, this`replies
      ensures State() == McpServer.Route(old(State()), message, callback, handlers)
    {
      hide MethodOf, ToolPosition, InitializeResult, McpServer.HandleToolsCall, ResultMessage, ErrorMessage;
      var id := Find(message, "id");
      if kind.Missing? {
        if id.Some? {
          SendError(id.value, -32600, "Invalid Request", callback);
        } else {
          SendNoResponse(callback);
        }
      } else if kind.Initialize? {
        if id.Some? {
          HandleInitialize(id.value, callback);
        } else {
          SendNoResponse(callback);
        }
      } else if kind.NotifyInitialized? {
        initialized := true;
        SendNoResponse(callback);
      } else if kind.Ping? {
        if id.Some? {
          SendResult(id.value, map[], callback);
        } else {
          SendNoResponse(callback);
        }
      } else if !initialized {
        if id.Some? {
          SendError(id.value, -32002, "Server not initialized", callback);
        } else {
          SendNoResponse(callback);
        }
      } else if kind.ToolsList? {
        if id.Some? {
          HandleToolsList(id.value, callback);
        } else {
          SendNoResponse(callback);
        }
      } else if kind.ToolsCall? {
        if id.Some? {
          HandleToolsCall(Params(message), id.value, callback, handlers);
        } else {
          SendNoResponse(callback);
        }
      } else {
        if id.Some? {
          SendError(id.value, -32601, "Method not found: " + kind.name, callback);
        } else {
          SendNoResponse(callback);
        }
      }
    }

    method HandleInitialize(id: Value, ghost callback: nat)
      modifies this`initialized, this`replies
      ensures State() ==
              McpServer.SendResult(old(State()).(initialized := true), id, InitializeResult(), callback)
    {
      initialized := true;
      SendResult(id, InitializeResult(), callback);
    }

    method HandleToolsList(id: Value, ghost callback: nat)
      modifies this`replies
      ensures State() == McpServer.SendResult(old(State()), id, ToolsListResult(tools), callback)
    {
      var list: seq<Value> := [];
      for i := 0 to |tools|
        invariant list == ToolInfos(tools[..i])
      {
        list := list + [ToolInfo(tools[i])];
      }
      assert tools[..|tools|] == tools;
      SendResult(id, map["tools" := List(list)], callback);
    }

    method HandleToolsCall(params: Dictionary, id: Value, callback: nat, handlers: Handlers)
      modifies this`toolCallInProgress, this`toolCallQueue, this`running, this`replies
      ensures State() == McpServer.HandleToolsCall(old(State()), params, id, callback, handlers)
    {
      var name := FindString(params, "name");
      if name.None? {
        SendError(id, -32602, "Missing tool name", callback);
        return;
      }
      var arguments := FindDict(params, "arguments");
      var args := if arguments.Some? then arguments.value else map[];
      toolCallQueue := toolCallQueue + [PendingToolCall(name.value, args, id, callback)];
      if !toolCallInProgress {
        ExecuteNextToolCall(handlers);
      }
    }
  }
}
