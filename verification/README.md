# Verified model of browserd's concurrent core

browserd is a Chromium-based browser daemon that is driven over the Model Context Protocol (MCP). This
project models the parts of it in which several parties race or in which state lives across calls, and
proves what they keep over every run.

**The MCP server and its three transports** (`McpSystem` and the modules below it). One main thread runs
the MCP server: it routes JSON-RPC messages and runs tool calls one at a time from a single queue, with
handlers that may complete before they return or much later. An IPC thread accepts one client at a time on
a Unix socket, cuts its bytes into lines and posts them; replies go back under a lock, guarded by the
client's generation number. An HTTP thread and standard input feed the same server. `IpcMachine` makes
every critical section, system call and dispatched line of the IPC thread a step of its own, and
`McpSystem` interleaves these with the main thread, the HTTP thread and standard input. The operating
system (`Kernel`) gives a closed descriptor number to a later connection whenever it likes. The main results
are in `McpTheorems`, `McpCallOrder`, `McpReplies`, `McpToolCalls`, `McpHttpTheorems`, `McpHttpAnswers`,
`IpcTheorems`, `IpcReadiness` and `McpServerRuns`. `HttpGate` and `McpRouting` read requests and messages
character by character and key by key, so that what the program's own tests mean is stated apart from them.
The imperative classes (`McpServerClass`, `IpcTransportClass`, `IpcLoopClass`, `HttpTransportClass`) carry
the program's own control flow and are proved to move as these machines do; `IpcLoopClass` shows that the
IPC thread's loop, with the other thread's calls anywhere in between, is a run of `IpcMachine` from its start.

**One-shot requests.** `Navigation` and `Screenshot` model the navigation waiter and the two nested
screenshot requests as machines in which browser events, posted tasks, timers and deletions race. Each is
compared with a definition that looks at the sequence of events only: the answer is that of the first event
that decides.

**Switch policy, tabs, observers, scrolling.** `EmbedderSwitches` folds a policy of set, clear and merge
operations over a command line, and `SwitchDelivery` says which process gets which switch; `GuiTabs` keeps
the tabs of the GUI runtime; `Observers` reconciles page observers with the pages that exist; `Scroll`
splits a scroll into wheel events of random size.

What is assumed:

- Tool handlers, browser events, the results of `poll`, `accept`, `recv` and `send`, and random numbers are
  arbitrary inputs. A handler completes at most once, as a OnceCallback can.
- JSON reading and writing are functions given from outside. Where a result needs it, the written JSON holds
  no raw newline (`WritesOneLine`).
- `EINTR` interrupts a send finitely often (`Decides`).
- `accept` returns a number that is not in use. The HTTP server never uses a connection id twice.
- Messages and posted tasks of one thread run in the order in which they were posted. A timer never fires
  early; only the results about deadlines assume that it fires on time.
- Counters are unbounded.

Where the code and an expectation differ, the model follows the code. Three such places are stated exactly.

- A read can succeed on a descriptor number that the main thread has just closed: the bytes are then those of
  somebody else, and a line the client never sent is dispatched in its name, although every reply to it is
  dropped. In any run, the bytes heard under a generation are those its client sent if and only if no read
  under it succeeded in a state without an active client (`HeardExactlyUnlessStale`). `StaleReads` has the runs
  of the whole server in which it happens.
- `recv` is called because `poll` reported a client ready, but it is called on the client of the second
  snapshot. When the main thread closes the polled client and `accept` installs the next one in the same round,
  readiness carries over to a client that `poll` never looked at, and the read may block. In any run, `recv` is
  called on the polled client if and only if the active generation is the same at both snapshots
  (`ReadsPolledClient`). `CarriedReadiness` has the runs of the whole server in which it differs.
- Preparing a child's command line twice equals once if and only if the last process type that the policy gives
  in the child's scope (or the child's own) selects the same scope, or every value that the policy and the
  defaults give in the newly selected scope finds its work done (`ChildTwice`). `RetypedChildDiffers` covers
  every policy that makes a GPU process of another child without leaving it both fixed switches, and
  `HarmlessRetyping` shows a change of scope that does no harm.

## Model

| member | source | states |
|---|---|---|
| McpTheorems.OwnRepliesWhole | browserd/mcp/mcp_ipc_transport_posix.cc:366-391 | in every reachable state of the whole server, what a client generation received is whole replies to its own requests in order, then at most a part of the next; a connected client has all of them |
| McpTheorems.ClosedStaysClosed | browserd/mcp/mcp_ipc_transport_posix.cc:369-371 | once a generation's client is disconnected, no continuation writes another byte to it, even if its descriptor number is in use again |
| McpTheorems.RefusedClientsUntouched | browserd/mcp/mcp_ipc_transport_posix.cc:293-307 | a refused extra client is never written to or read from |
| McpTheorems.StdoutIsStdioReplies | browserd/mcp/mcp_transport.cc:59-90 | splitting standard output at newlines gives exactly the replies to the messages read from standard input |
| McpTheorems.StepKeepsClosed | browserd/mcp/mcp_ipc_transport_posix.cc:288-391 | every single step of any thread keeps a closed generation closed and its received bytes unchanged |
| McpCallOrder.CallsDeliveredInOrder | browserd/mcp/mcp_server.cc:167-231 | per client generation, the tool calls whose replies it received whole are a prefix of the calls it made, in the order made and without those whose reply cannot be serialized, although all transports share the queue |
| McpCallOrder.StdoutCallsInOrder | browserd/mcp/mcp_transport.cc:59-95 | the same for the calls read from standard input and the lines written to standard output |
| McpCallOrder.HandedOnInOrder | browserd/mcp/mcp_server.cc:167-231 | the replies handed on so far to any one origin answer a prefix of its tool calls, in order, those without a serializable reply aside |
| McpReplies.LineMatches | browserd/mcp/mcp_ipc_transport.cc:86-99 | every whole line that the client of a generation received is the written reply to a message of its own, and that reply is the one its message deserves |
| McpReplies.ConnectedClientServed | browserd/mcp/mcp_ipc_transport.cc:80-99 | when nothing is left to run, a client still connected has exactly one line for each of its own requests whose reply can be written, and no other line |
| McpReplies.StdoutLineMatches | browserd/mcp/mcp_transport.cc:59-76 | every line of standard output is the written reply to a message read from standard input, and that reply is the one its message deserves |
| McpReplies.AllReplied | browserd/mcp/mcp_server.cc:61-231 | when nothing is left to run, every message has been replied to |
| McpToolCalls.IdleServerTakesCall | browserd/mcp/mcp_server.cc:167-217 | what an idle server with a controller does with a named call: if no tool has the name, the one new reply is the "Unknown tool" error; otherwise the handler of the first such tool is run with the arguments of the call, and either its report is the one new reply or the call is outstanding and nothing is answered |
| McpToolCalls.CompletionReports | browserd/mcp/mcp_server.cc:219-231 | when a handler that kept its callback completes, the next reply is its call's result, with the content it reports and `isError` exactly when it reports an error; with an empty queue that is the only new reply |
| McpToolCalls.EveryAnswerExplained | browserd/mcp/mcp_server.cc:167-231 | in any run, every reply to a tool call is what the call, with the name and arguments its own message asks for, deserved when event k found the server: what its outstanding handler then reported; or, by the controller and the tools registered then, the missing controller, the unknown tool, or what the handler of the first tool with its name reported. Tools registered then still are |
| McpToolCalls.StepExplained | browserd/mcp/mcp_server.cc:61-231 | the same for one event in any state that keeps the invariant |
| McpToolCalls.OutstandingIsRegistered | browserd/mcp/mcp_server.cc:195-212 | in any run, a registered tool has the name of the outstanding call, and that call has the name, the arguments and the id of its message |
| McpToolCalls.ExecuteWorks | browserd/mcp/mcp_server.cc:187-217 | running the queue answers its first n calls in order, each as it deserves, and stops at the first call whose handler keeps its callback, or with an empty queue |
| McpToolCalls.CallJoinsQueue | browserd/mcp/mcp_server.cc:167-185 | a named call of an initialized server joins the end of the queue with the name and the arguments under `params`, and runs at once only if the server is idle |
| McpToolCalls.OnlyCallsJoin | browserd/mcp/mcp_server.cc:81-116 | no other message counts as a tool call |
| McpToolCalls.ToolsAndController | browserd/mcp/mcp_server.cc:53-59 | in any run, the tools are those registered so far in order, and the controller is the one last set |
| McpRouting.AnsweredAtOnce | browserd/mcp/mcp_server.cc:61-165 | any other message is answered at once with exactly the response that its method and id call for: codes, texts, the tools with their names, descriptions and schemas in order, and the server's description |
| McpRouting.EveryReplyFits | browserd/mcp/mcp_server.cc:61-263 | in any run, every such reply fits its message, given whether an earlier message had opened the server and which tools were registered when it came |
| McpRouting.MethodRead | browserd/mcp/mcp_server.cc:63-116 | the methods are told apart by their names |
| McpServerPart.ServerRun | browserd/mcp/mcp_server.cc:29-51 | in any run of the whole server, the MCP server goes through a run of its own, made of the messages posted, the completions and the settings; so all that holds of its runs holds there |
| McpServerPart.ReachableServerRun | browserd/mcp/mcp_server.cc:29-59 | in every reachable state, the MCP server is in a state of one of its own runs |
| McpInputs.DispatchedLinesPosted | browserd/mcp/mcp_ipc_transport.cc:71-86 | what is posted for an IPC client is what can be read of the lines dispatched under its generation: empty lines and lines that do not parse are left out |
| McpInputs.StdinLinesPosted | browserd/mcp/mcp_transport.cc:78-95 | in any run, what is posted for standard input is what can be read of its lines, in order |
| McpServerRuns.CallsAnsweredInOrder | browserd/mcp/mcp_server.cc:167-231 | in any run, tool calls in arrival order = answered calls in answer order ++ the outstanding one ++ the queue; busy exactly while a handler is outstanding; idle only with an empty queue |
| McpServerRuns.AnsweredAtMostOnce | browserd/mcp/mcp_server.cc:61-125 | no response callback is used twice, and a message has been answered if and only if it is not waiting in the queue or outstanding |
| McpServerRuns.RepliesConform | browserd/mcp/mcp_server.cc:61-263 | every reply is the one its message deserves by the message history: none without an id, else one object with the same id and exactly one of result and error, with the right error code; `notifications/initialized` is always silent |
| McpServerRuns.NoCallBeforeInitialization | browserd/mcp/mcp_server.cc:81-103 | a call is queued, run or answered as a tool call only after an earlier message that initializes the server |
| McpServerRuns.Drain | browserd/mcp/mcp_server.cc:187-231 | as many completions as there are outstanding and queued calls leave the server idle with every message answered exactly once, for any mix of immediate and deferred handlers |
| McpServerRuns.CompleteAppends | browserd/mcp/mcp_server.cc:219-231 | the first reply after a completion is the running call's, with the content that the handler reported; earlier replies stay |
| McpServerRuns.OnMessageAppends | browserd/mcp/mcp_server.cc:61-125 | handling a message only adds replies |
| McpServerRuns.RunKeeps | browserd/mcp/mcp_server.cc:61-231 | every run keeps the server's invariant |
| McpServerProofs.OnMessageKeeps | browserd/mcp/mcp_server.cc:61-125 | handling a message keeps the account of answered and pending calls, their order, and the conformity of replies |
| McpServerProofs.ExecuteKeeps | browserd/mcp/mcp_server.cc:187-217 | running the queue keeps that account, through any depth of immediate completions |
| McpServerProofs.CompleteKeeps | browserd/mcp/mcp_server.cc:219-231 | a completion moves its call from pending to answered, in order |
| McpServerProofs.HandlerCompletesKeeps | browserd/mcp/mcp_server.cc:203-231 | a deferred handler's completion keeps the invariant and adds no message |
| McpServerProofs.AtOnceReply | browserd/mcp/mcp_server.cc:61-125 | a message that is no named tool call gets exactly one reply at once and changes nothing but the initialized flag |
| McpServerProofs.AtOnceConforms | browserd/mcp/mcp_server.cc:68-172 | that reply has the kind and the error code that the message and the history call for |
| McpServerProofs.ToolCallDoesNotInitialize | browserd/mcp/mcp_server.cc:81-112 | a message counts as a tool call only when the server was initialized before it |
| McpServer.ToolCalls | browserd/mcp/mcp_server.cc:110-180 | lists exactly the messages that are named tool calls, in arrival order |
| McpServer.ToolCallsExtend | browserd/mcp/mcp_server.cc:110-180 | whether a message is a tool call depends only on it and on the messages before it |
| McpServer.InitializedExtends | browserd/mcp/mcp_server.cc:81-90 | the server is initialized from the first initializing message on |
| McpServerClass.MCPServer.OnMessage | browserd/mcp/mcp_server.cc:61-125 | the method moves the object as the machine says, and keeps the invariant |
| McpServerClass.MCPServer.Route | browserd/mcp/mcp_server.cc:68-125 | the branches on method, id and the initialized flag |
| McpServerClass.MCPServer.HandleInitialize | browserd/mcp/mcp_server.cc:127-148 | sets the flag and answers with the server's capabilities |
| McpServerClass.MCPServer.HandleToolsList | browserd/mcp/mcp_server.cc:150-165 | the loop lists every registered tool in order |
| McpServerClass.MCPServer.HandleToolsCall | browserd/mcp/mcp_server.cc:167-185 | a named call joins the end of the queue and the queue is started if idle |
| McpServerClass.MCPServer.ExecuteNextToolCall | browserd/mcp/mcp_server.cc:187-217 | the mutual recursion with handlers and completions terminates (the queue shrinks) and computes the step that `McpToolCalls.ExecuteWorks` describes: known tools run their handler, unknown ones are an error |
| McpServerClass.MCPServer.RunHandler | browserd/mcp/mcp_server.cc:203-212 | the handler of the tool found, given the arguments of the call, completes before it returns or keeps the callback |
| McpServerClass.MCPServer.OnToolCallComplete | browserd/mcp/mcp_server.cc:219-231 | the result is sent first, then the next call is started |
| McpServerClass.MCPServer.CompleteRunning | browserd/mcp/mcp_server.cc:203-231 | a late completion keeps the invariant |
| McpServerClass.MCPServer.FindTool | browserd/mcp/mcp_server.cc:203-212 | the search finds the first tool with the name, or none |
| McpServerClass.MCPServer.SendNoResponse | browserd/mcp/mcp_server.cc:233-235 | the callback is run without a response |
| McpServerClass.MCPServer.SendResult | browserd/mcp/mcp_server.cc:237-246 | builds the result object key by key |
| McpServerClass.MCPServer.SendError | browserd/mcp/mcp_server.cc:248-263 | builds the error object key by key |
| McpServerClass.MCPServer.SetController | browserd/mcp/mcp_server.cc:53-55 | changes the controller and nothing else |
| McpServerClass.MCPServer.RegisterTool | browserd/mcp/mcp_server.cc:57-59 | adds one tool at the end |
| IpcTheorems.DescriptorsConserved | browserd/mcp/mcp_ipc_transport_posix.cc:288-364 | in every reachable state each accepted connection is closed once, unless it is the active client or the one just accepted; the table holds nothing else; no close or write ever hits a foreign number |
| IpcTheorems.NothingOpenAfterExit | browserd/mcp/mcp_ipc_transport_posix.cc:351-364 | after the loop nothing is open, every connection was closed exactly once, and the path was unlinked once |
| IpcTheorems.FailedReadClosesItsOwn | browserd/mcp/mcp_ipc_transport_posix.cc:328-337 | the equality test after a failed read closes the connection whose read failed, and leaves all others alone |
| IpcTheorems.NewcomerTakesFreeSlot | browserd/mcp/mcp_ipc_transport_posix.cc:290-307 | the connection just accepted is installed as the next generation on its own descriptor, with nothing buffered, if the slot is free; otherwise it is closed and the active client, its buffer and its bytes stay as they were |
| McpStops.StopEndsLoop | browserd/mcp/mcp_ipc_transport_posix.cc:236-364 | in any run, once the transport has been stopped and the IPC thread has come to its loop condition again, it takes no snapshot, polls, accepts, reads and dispatches nothing any more |
| McpStops.StopClosesAll | browserd/mcp/mcp_ipc_transport.cc:16-26 | a stop sets the flag, closes the client and the listener and unbinds the path, all in one step |
| IpcTheorems.LinesFollowBytes | browserd/mcp/mcp_ipc_transport_posix.cc:339-348 | the lines dispatched under a generation are the lines of the bytes heard under it, however chunked, and what is posted for it is what parses, in order |
| IpcTheorems.HeardExactlyUnlessStale | browserd/mcp/mcp_ipc_transport_posix.cc:314-339 | in any run the bytes heard under a generation are exactly those read from its client if and only if no read under it succeeded while there was no active client; after such a read the client is disconnected |
| IpcTheorems.StaleIffClosedMeanwhile | browserd/mcp/mcp_ipc_transport_posix.cc:314-339 | a read goes stale if and only if the other thread closed the client after the second snapshot |
| IpcReadiness.ReadsPolledClient | browserd/mcp/mcp_ipc_transport_posix.cc:236-327 | in any run, when `recv` is about to be called, `poll` had reported a client ready; it is the client that `recv` is called on, on the same descriptor, if and only if the active generation is the same at both snapshots; otherwise the polled client has been closed and the next one is read in its place |
| CarriedReadiness.ReadinessIsCarried | browserd/mcp/mcp_ipc_transport_posix.cc:244-327 | for every request, a run of the whole server from the start in which `poll` reports the first client ready and `recv` is called on the second |
| StaleReads.AskedIsReached | browserd/mcp/mcp_ipc_transport_posix.cc:236-348 | a run of the whole server in which a client connects and its request is posted |
| StaleReads.AskingIsReached | browserd/mcp/mcp_ipc_transport_posix.cc:236-348 | a run of the whole server in which a client connects, its request is posted, and the IPC thread is about to read again |
| StaleReads.Answers | browserd/mcp/mcp_server.cc:61-125 | the main thread then handles the request |
| StaleReads.Drops | browserd/mcp/mcp_ipc_transport_posix.cc:366-390 | its reply fails to be sent, and the client is closed |
| StaleReads.Loses | browserd/mcp/mcp_ipc_transport_posix.cc:366-390 | answering and dropping together, wherever the IPC thread stands |
| StaleReads.StaleReadIsReached | browserd/mcp/mcp_ipc_transport_posix.cc:314-390 | from the start, for every request and every stray line, the whole run up to a line dispatched after a stale read |
| StaleReads.StaleLineDispatched | browserd/mcp/mcp_ipc_transport_posix.cc:314-348 | at its end that line has been dispatched and posted in the name of a client that sent only its request |
| StaleReads.RequestsExist | browserd/mcp/mcp_server.cc:68-76 | every line read as a message with an id and no method is such a request |
| StaleReads.ExampleIsRequest | browserd/mcp/mcp_server.cc:68-76 | a concrete line and server for it |
| IpcProofs.StepKeepsDescriptors | browserd/mcp/mcp_ipc_transport_posix.cc:236-391 | every step of either thread keeps the account of descriptors |
| IpcProofs.StepKeeps | browserd/mcp/mcp_ipc_transport_posix.cc:236-391 | every step keeps the account of descriptors, bytes, buffer and lines |
| IpcProofs.DropKeepsDescriptors | browserd/mcp/mcp_ipc_transport_posix.cc:328-337 | dropping a client after a failed read closes it once |
| IpcProofs.InstallKeepsDescriptors | browserd/mcp/mcp_ipc_transport_posix.cc:293-303 | installing or refusing keeps at most one client installed |
| IpcProofs.SendKeepsDescriptors | browserd/mcp/mcp_ipc_transport_posix.cc:366-391 | a send keeps the account of descriptors; it closes the client exactly when the message is for the active client and does not get out whole, which takes a failing send, and otherwise leaves it installed |
| IpcProofs.ReceiveKeepsFraming | browserd/mcp/mcp_ipc_transport_posix.cc:339-340 | a received chunk extends the buffer of the generation it is read for |
| IpcProofs.SplitLineKeepsFraming | browserd/mcp/mcp_ipc_transport_posix.cc:341-348 | taking a line off the buffer moves it to the dispatched lines of that generation |
| IpcProofs.InstallKeepsFraming | browserd/mcp/mcp_ipc_transport_posix.cc:298-302 | a new client starts with an empty buffer, so bytes of two clients never mix |
| IpcTransport.OnlyFailureTruncates | browserd/mcp/mcp_ipc_transport_posix.cc:373-390 | short counts and interruptions lose nothing: a message is cut only by a failing send |
| IpcTransport.SentUntilFailure | browserd/mcp/mcp_ipc_transport_posix.cc:373-390 | what gets out is what the returns before the first failure accept: the whole message, or less if there is one |
| Kernel.WriteTwice | browserd/mcp/mcp_ipc_transport_posix.cc:374-390 | sending in pieces delivers the concatenation |
| IpcTransportClass.MCPIPCTransport.SendSerializedResponse | browserd/mcp/mcp_ipc_transport_posix.cc:366-391 | the shrinking-span loop sends the longest prefix the returns allow and closes the client exactly if that is not all |
| IpcTransportClass.MCPIPCTransport.RequestStopLocked | browserd/mcp/mcp_ipc_transport_posix.cc:357-364 | closes the client and the listener if open, and unlinks the path if bound |
| IpcTransportClass.MCPIPCTransport.Destroy | browserd/mcp/mcp_ipc_transport.cc:16-26 | the destructor's critical section |
| IpcTransportClass.MCPIPCTransport.InstallAccepted | browserd/mcp/mcp_ipc_transport_posix.cc:294-303 | a free slot is taken under a new generation, an occupied one is not |
| IpcTransportClass.MCPIPCTransport.CloseAfterFailedRead | browserd/mcp/mcp_ipc_transport_posix.cc:329-334 | closes the active client only if it is the one read from |
| IpcTransportClass.MCPIPCTransport.CloseActiveClient | browserd/mcp/mcp_ipc_transport_posix.cc:30-36 | closes and forgets the client, if there is one |
| IpcTransportClass.MCPIPCTransport.CloseListeningSocket | browserd/mcp/mcp_ipc_transport_posix.cc:30-36 | closes and forgets the listener, if there is one |
| IpcTransportClass.MCPIPCTransport.RecordListener | browserd/mcp/mcp_ipc_transport_posix.cc:224-228 | the listening socket is recorded, and nothing else changes |
| IpcLoopClass.IpcThread.RunLoop | browserd/mcp/mcp_ipc_transport_posix.cc:214-355 | without a listening socket nothing happens; otherwise the loop starts in the first state of the machine and each round is one pass of the machine through the loop condition, until a round ends the loop and the stop section runs |
| IpcLoopClass.ServesRuns | browserd/mcp/mcp_ipc_transport_posix.cc:236-349 | the rounds of the loop together are one run of the machine |
| IpcLoopClass.IpcThread.Round | browserd/mcp/mcp_ipc_transport_posix.cc:236-349 | one round of the loop, with main-thread calls anywhere in between, is a run of the step machine with exactly one pass through the loop condition and the steps that the system calls' results ask for; accept may return a number that the other thread freed during the round |
| IpcLoopClass.IpcThread.PollDescriptors | browserd/mcp/mcp_ipc_transport_posix.cc:266-349 | nothing ready, or what is ready is served |
| IpcLoopClass.IpcThread.Call | browserd/mcp/mcp_ipc_transport_posix.cc:357-391 | one call of the main thread is one step of the machine |
| IpcLoopClass.IpcThread.Meanwhile | browserd/mcp/mcp_ipc_transport_posix.cc:357-391 | the main thread's sends and stop, called at any point of the loop, are steps of the machine and free descriptor numbers only |
| IpcLoopClass.IpcThread.TakeSnapshot | browserd/mcp/mcp_ipc_transport_posix.cc:236-247 | the stop test and the first snapshot |
| IpcLoopClass.IpcThread.AcceptClient | browserd/mcp/mcp_ipc_transport_posix.cc:288-312 | accept, install or refuse |
| IpcLoopClass.IpcThread.InstallClient | browserd/mcp/mcp_ipc_transport_posix.cc:293-303 | the install section, with the buffer cleared for a new client |
| IpcLoopClass.IpcThread.CloseExtraClient | browserd/mcp/mcp_ipc_transport_posix.cc:305-307 | the refused client is closed |
| IpcLoopClass.IpcThread.ReadClient | browserd/mcp/mcp_ipc_transport_posix.cc:314-349 | the second snapshot and the read |
| IpcLoopClass.IpcThread.DropClient | browserd/mcp/mcp_ipc_transport_posix.cc:328-337 | a failed read |
| IpcLoopClass.IpcThread.DropActive | browserd/mcp/mcp_ipc_transport_posix.cc:329-336 | the client is closed if it is still the active one, and the buffer is cleared |
| IpcLoopClass.IpcThread.TakeChunk | browserd/mcp/mcp_ipc_transport_posix.cc:326-339 | a chunk is appended to the buffer |
| IpcLoopClass.IpcThread.DispatchLines | browserd/mcp/mcp_ipc_transport_posix.cc:340-348 | the loop over complete lines |
| IpcLoopClass.IpcThread.DispatchLine | browserd/mcp/mcp_ipc_transport_posix.cc:342-347 | one line, without its trailing carriage return |
| IpcLoopClass.IpcThread.Leave | browserd/mcp/mcp_ipc_transport_posix.cc:351-354 | the stop section after the loop |
| Framing.TakeLines | browserd/mcp/mcp_ipc_transport_posix.cc:339-348 | the loop yields exactly the complete lines of the bytes and leaves what follows the last newline |
| Framing.FeedIsChunkIndependent | browserd/mcp/mcp_ipc_transport_posix.cc:339-348 | lines and left-over buffer depend on the concatenated bytes only |
| Framing.SameBytesSameLines | browserd/mcp/mcp_ipc_transport_posix.cc:326-348 | two ways to chunk the same bytes give the same lines and the same buffer |
| Framing.OneReturnDropped | browserd/mcp/mcp_ipc_transport_posix.cc:342-345 | one carriage return before the newline is dropped, and a line without one is dispatched as it is |
| Framing.SplitJoin | browserd/mcp/mcp_transport.cc:28-37 | splitting newline-terminated messages gives back the messages |
| Framing.JoinSplit | browserd/mcp/mcp_transport.cc:28-37 | joining the lines and the rest gives back the bytes |
| Framing.PrefixOfJoin | browserd/mcp/mcp_ipc_transport_posix.cc:373-390 | a truncated output is whole messages and at most a part of the next one |
| McpSystemProofs.StepKeeps | browserd/mcp/mcp_ipc_transport.cc:72-99 | every step of every thread keeps that each client has received only its own replies |
| McpSystemProofs.SplitLineKeeps | browserd/mcp/mcp_ipc_transport.cc:72-84 | a dispatched line that parses is posted with the generation it was read under |
| McpSystemProofs.DeliverKeeps | browserd/mcp/mcp_ipc_transport.cc:86-99 | a reply goes to the transport and the generation of its message, or nowhere |
| McpSystemProofs.RunMessageKeeps | browserd/mcp/mcp_server.cc:61-125 | a posted message handled on the main thread keeps the whole account |
| McpSystemProofs.IpcSendEffect | browserd/mcp/mcp_ipc_transport_posix.cc:366-391 | a locked send reaches only the live client of its generation |
| McpSystemRuns.SoundStep | browserd/mcp/mcp_server.cc:29-51 | every event of the whole server keeps the invariant of all its parts |
| McpHttpTheorems.HandledOnce | browserd/mcp/mcp_http_transport.cc:181-307 | a request is answered, dropped or waiting at most once in all, and exactly once if and only if its message is no longer with the main thread |
| McpHttpTheorems.DroppedOnlyIfClosed | browserd/mcp/mcp_http_transport.cc:265-270 | a response is dropped only when its connection was closed |
| McpHttpTheorems.ClosedConnectionStaysSilent | browserd/mcp/mcp_http_transport.cc:261-307 | once a connection is closed no continuation answers on it |
| McpHttpTheorems.OnlyAuthorizedRequestsPosted | browserd/mcp/mcp_http_transport.cc:185-247 | every message from HTTP was carried by a POST request to /mcp whose authorization is seven characters that spell "Bearer " in either case and then exactly the token, whose origin is absent or a valid URL with a loopback host, and whose Accept header covers JSON |
| McpHttpTheorems.AnswerGoesToItsRequest | browserd/mcp/mcp_http_transport.cc:185-307 | every HTTP answer goes out on the connection of its own request, with the status and text of the rejection if that request is rejected |
| McpHttpTheorems.AnswerMatchesMessage | browserd/mcp/mcp_http_transport.cc:265-293 | the answer to a forwarded request is the one its own message, posted for that connection and request, deserves: 202 exactly for silence, else the written reply, or 500 |
| McpHttpAnswers.RequestMeetsItsFate | browserd/mcp/mcp_http_transport.cc:185-247 | a request on an open connection is answered with the status and text of the first test it fails and posts nothing, or its message is posted for that connection and request; nothing else changes |
| McpHttpAnswers.WrongTokenIsRefused | browserd/mcp/mcp_http_transport.cc:205-216 | with any other token, a request to the right place on an open connection is answered 401 and its message is not posted |
| McpHttpAnswers.EveryAnswerDeserved | browserd/mcp/mcp_http_transport.cc:185-307 | in every reachable state, every answer is the one its request deserves: 405 for a web socket; the status and text of the first test it fails; or 202 without a body for silence, 200 with the written reply, or 500 when it cannot be written, for the server's reply to its message |
| McpHttpAnswers.OpenExactly | browserd/mcp/mcp_http_transport.cc:176-183 | in any run, a connection is open if and only if the last event about it is that it was made |
| McpHttpAnswers.SameToken | browserd/mcp/mcp_http_transport.cc:164-164 | the token never changes |
| HttpGate.TokenTest | browserd/mcp/mcp_http_transport.cc:309-319 | the authorization passes if and only if it spells "Bearer " in either case and goes on with exactly the token |
| HttpGate.OriginTest | browserd/mcp/mcp_http_transport.cc:321-330 | the origin passes if and only if it is absent, or valid with the host 127.0.0.1, ::1 or localhost in either case |
| HttpGate.AcceptTest | browserd/mcp/mcp_http_transport.cc:76-94 | the Accept header passes if and only if some item, without its parameters and the blanks around it, is application/json, application/* or */* in either case |
| HttpGate.JudgedSo | browserd/mcp/mcp_http_transport.cc:185-237 | the tests come in this order, each with its status and text |
| McpHttpProofs.RespondKeeps | browserd/mcp/mcp_http_transport.cc:265-293 | a response run on the HTTP thread is sent or dropped, once |
| McpHttpProofs.RejectKeeps | browserd/mcp/mcp_http_transport.cc:185-237 | a rejected request is answered on the spot and posts nothing |
| McpHttpProofs.ForwardKeeps | browserd/mcp/mcp_http_transport.cc:239-246 | a forwarded request posts its message with its connection id |
| HttpTransportClass.MCPHttpTransport.OnHttpRequest | browserd/mcp/mcp_http_transport.cc:185-247 | the chain of checks, each with its status, before a message is handed on |
| HttpTransportClass.MCPHttpTransport.OnConnect | browserd/mcp/mcp_http_transport.cc:181-183 | opens the connection id |
| HttpTransportClass.MCPHttpTransport.OnClose | browserd/mcp/mcp_http_transport.cc:261-263 | closes the connection id |
| HttpTransportClass.MCPHttpTransport.StopOnHttpThread | browserd/mcp/mcp_http_transport.cc:176-179 | closes all connection ids |
| HttpTransportClass.MCPHttpTransport.OnWebSocketRequest | browserd/mcp/mcp_http_transport.cc:249-259 | web sockets are refused |
| HttpTransportClass.MCPHttpTransport.SendMCPResponse | browserd/mcp/mcp_http_transport.cc:265-293 | 202, 200 or 500, and only on an open connection |
| HttpTransportClass.MCPHttpTransport.SendTextResponse | browserd/mcp/mcp_http_transport.cc:295-307 | only an open connection is sent to |
| HttpTransportClass.ContainsMimeType | browserd/mcp/mcp_http_transport.cc:76-94 | the loop over the Accept header accepts exactly when one of its items matches |
| Navigation.AnswersFirstDecision | browserd/core/browser_controller.cc:1100-1321 | over any order of events the callback is run exactly for the first event that decides, with its status, and one self-delete is posted, after the answer |
| Navigation.OkMeansArrived | browserd/core/browser_controller.cc:1167-1283 | Ok means that loading had stopped at that moment, and that by then a finish, stop or check event had shown a valid URL that is not about:blank and is the target, or an HTTP URL of an HTTP target's host; without such an event no answer is Ok |
| Navigation.AnswersWhatIsGiven | browserd/core/browser_controller.cc:1167-1321 | in any run, the waiter answers a status at event i if and only if that event gives it, by its own fields and what earlier events have shown, and no earlier event gives any |
| Navigation.TimesOutExactly | browserd/core/browser_controller.cc:1121-1124 | with timers neither early nor late, a waiter that times out does so 15 seconds after it was created |
| Navigation.AnsweredInTime | browserd/core/browser_controller.cc:1121-1124 | with timers on time the waiter has answered within 15 seconds, before any later event |
| Navigation.StepKeeps | browserd/core/browser_controller.cc:1167-1321 | every event keeps the waiter in step with the first decision |
| NavigationWaiterClass.NavigationWaiter.DidFinishNavigation | browserd/core/browser_controller.cc:1167-1200 | the handler moves the object as the machine says |
| NavigationWaiterClass.NavigationWaiter.DidStopLoading | browserd/core/browser_controller.cc:1202-1222 | likewise |
| NavigationWaiterClass.NavigationWaiter.DidFailLoad | browserd/core/browser_controller.cc:1224-1239 | likewise |
| NavigationWaiterClass.NavigationWaiter.WebContentsDestroyed | browserd/core/browser_controller.cc:1241-1244 | likewise |
| NavigationWaiterClass.NavigationWaiter.CheckCurrentState | browserd/core/browser_controller.cc:1247-1269 | likewise |
| NavigationWaiterClass.NavigationWaiter.OnTimeout | browserd/core/browser_controller.cc:1285-1300 | likewise |
| NavigationWaiterClass.NavigationWaiter.Complete | browserd/core/browser_controller.cc:1302-1314 | stops the timer and observing, runs the callback once and posts the deletion |
| NavigationWaiterClass.NavigationWaiter.Receive | browserd/core/browser_controller.cc:1167-1314 | one event, whichever it is, is one step of the machine |
| NavigationWaiterClass.NavigationWaiter.ReceiveAll | browserd/core/browser_controller.cc:1100-1321 | a whole life of the object is a run of the machine |
| Screenshot.AnswersFirstDecision | browserd/core/browser_controller.cc:728-974 | over any order of snapshot, timers, script result and deletions the callback is run exactly for the first event that decides; both objects post their deletion once, never before answering |
| Screenshot.AnswersWhatIsGiven | browserd/core/browser_controller.cc:728-974 | in any run, the capture answers a result at event i if and only if that event gives it, by its own fields (which image, which script value, which timer, with which text), and no earlier event gives any |
| Screenshot.TimeoutsExact | browserd/core/browser_controller.cc:838-921 | with timers on time, the two timeouts come 8 and 18 seconds after the start |
| Screenshot.SettledMeansAnsweredAndDeleted | browserd/core/browser_controller.cc:799-974 | a started capture with no timer and no deletion left has answered once and both objects are gone |
| Screenshot.AnsweredInTime | browserd/core/browser_controller.cc:838-921 | with timers on time it has answered within 18 seconds of its start, before any later event |
| Screenshot.StepKeeps | browserd/core/browser_controller.cc:728-974 | every event keeps the capture in step with the first decision |
| Screenshot.EvaluationSound | browserd/core/browser_controller.cc:799-812 | completing the nested request keeps both objects' accounts, wherever the outer one stands |
| ScreenshotClasses.ScreenshotCaptureRequest.Start | browserd/core/browser_controller.cc:822-848 | the two refusals, or the 8 second timer and the snapshot request |
| ScreenshotClasses.ScreenshotCaptureRequest.OnSnapshotFromBrowser | browserd/core/browser_controller.cc:850-875 | each kind of image gives its result |
| ScreenshotClasses.ScreenshotCaptureRequest.OnTimeout | browserd/core/browser_controller.cc:904-922 | the fallback creates and starts the nested request, which may answer before it returns |
| ScreenshotClasses.ScreenshotCaptureRequest.OnDomFallback | browserd/core/browser_controller.cc:924-959 | the checks on the script's value, in order |
| ScreenshotClasses.ScreenshotCaptureRequest.Complete | browserd/core/browser_controller.cc:961-974 | runs the callback once and posts the deletion |
| ScreenshotClasses.JavaScriptEvaluationRequest.Start | browserd/core/browser_controller.cc:728-762 | the two refusals, or the script, with a timer if the timeout is positive |
| ScreenshotClasses.JavaScriptEvaluationRequest.OnResult | browserd/core/browser_controller.cc:764-791 | a result, or an exception with its message |
| ScreenshotClasses.JavaScriptEvaluationRequest.OnTimeout | browserd/core/browser_controller.cc:793-797 | the timeout error |
| ScreenshotClasses.JavaScriptEvaluationRequest.Complete | browserd/core/browser_controller.cc:799-812 | runs the bound callback once, even when the capture is gone, and posts the deletion |
| ScreenshotClasses.ReceiveOuter | browserd/core/browser_controller.cc:822-922 | an event of the capture moves both objects as the machine says |
| ScreenshotClasses.ReceiveInner | browserd/core/browser_controller.cc:764-812 | an event of the nested request moves both objects as the machine says |
| ScreenshotClasses.Receive | browserd/core/browser_controller.cc:728-974 | one event, whichever it is, is one step of the machine |
| EmbedderSwitchTheorems.ChildTwice | browserd/embedder_switches.cc:186-194 | preparing a child's command line twice equals once (features compared item by item) if and only if the policy leaves the process type in the same scope, or every value given in the new scope finds its work done |
| EmbedderSwitchTheorems.SettledExactly | browserd/embedder_switches.cc:81-101 | a list of set, clear and merge operations leaves a switch as it is if and only if it is empty, or a plain switch has its last value, or a feature switch has every item offered or lists just what follows the last clearing |
| EmbedderSwitchTheorems.TwiceSwitch | browserd/embedder_switches.cc:186-194 | what both passes leave of a switch, from the command line and the policy alone |
| EmbedderSwitchTheorems.SameValuesAgain | browserd/embedder_switches.cc:138-194 | within the same scope the second pass gives every switch the values of the first, defaults included |
| EmbedderSwitchTheorems.ScopeKept | browserd/embedder_switches.cc:109-136 | the first pass leaves the child with the last process type that the policy gives in its scope, or its own, and with the scope of that type |
| EmbedderSwitchTheorems.RetypedChildDiffers | browserd/embedder_switches.cc:109-194 | twice differs from once for every policy that makes a GPU process of another child without leaving it both fixed switches |
| EmbedderSwitchTheorems.RetypedChildExample | browserd/embedder_switches.cc:109-194 | a concrete such policy |
| EmbedderSwitchTheorems.HarmlessRetyping | browserd/embedder_switches.cc:109-194 | a concrete policy that changes the scope and does no harm |
| EmbedderSwitchTheorems.OnlyRelevantSwitchesMatter | browserd/embedder_switches.cc:126-136 | a switch's final value depends on its own value and the in-scope policy entries of its name, in order, and on nothing else |
| EmbedderSwitchTheorems.ChildSwitch | browserd/embedder_switches.cc:138-194 | the same for a child, with the GPU defaults added |
| EmbedderSwitchTheorems.ReplayTwice | browserd/embedder_switches.cc:81-101 | any list of set, clear and merge operations on one switch is idempotent |
| EmbedderSwitchTheorems.MergesCollect | browserd/embedder_switches.cc:40-101 | merges without a clearing end with exactly the old items and those offered |
| EmbedderSwitchTheorems.ChildFeatures | browserd/embedder_switches.cc:186-194 | a feature is on a child's list if and only if it was there or was offered and no later entry cleared the switch |
| EmbedderSwitchTheorems.FeaturesOfReplay | browserd/embedder_switches.cc:81-101 | the same for any list of operations |
| EmbedderSwitchTheorems.GpuChildHasFallback | browserd/embedder_switches.cc:138-159 | a GPU child always ends with the fallback feature enabled or disabled, and with both fixed switches |
| EmbedderSwitchTheorems.OtherChildGetsPolicyOnly | browserd/embedder_switches.cc:109-142 | any other child gets what the policy gives in its scope and nothing else; a switch that the policy names for the GPU only stays as it was |
| SwitchDelivery.DeliveredToChild | browserd/embedder_switches.cc:109-160 | a plain switch of a child ends with the last value given to all children (bit 8) or to its own kind (bit 2 for a GPU process, bit 4 for a renderer), and otherwise stays as it was; a GPU process ends with its two fixed switches without a value |
| SwitchDelivery.DeliveredToBrowser | browserd/embedder_switches.cc:126-136 | a plain switch of the browser ends with the last value given to it (bit 1), and otherwise stays as it was |
| SwitchDelivery.OneEntryDelivered | browserd/embedder_switches.cc:109-136 | for a policy of one entry: a child has the switch if and only if the entry is for all children or for its own kind, and the browser if and only if it is for the browser |
| SwitchDelivery.ChildFeatureList | browserd/embedder_switches.cc:94-160 | an item is on a feature list of a child if and only if it was there or was offered to it and has not been cleared since, or it is the fallback feature, the process is a GPU process, the list is that of disabled features, and the feature is not enabled |
| SwitchDelivery.BrowserFeatures | browserd/embedder_switches.cc:94-136 | the same for the browser, which has no defaults |
| EmbedderSwitches.MergeTokens | browserd/embedder_switches.cc:40-66 | a merge into a non-empty string has the existing items in order, then the first occurrences of the new ones |
| EmbedderSwitches.MergeIsUnion | browserd/embedder_switches.cc:40-66 | a merge holds exactly the items of either string |
| EmbedderSwitches.MergeTwice | browserd/embedder_switches.cc:40-66 | merging the same string again changes no item |
| EmbedderSwitches.MergeAppends | browserd/embedder_switches.cc:49-65 | merging a new item puts a comma and the item at the end of the list |
| CommaLists.SplitJoin | browserd/embedder_switches.cc:49-64 | splitting undoes joining for trimmed, non-empty, comma-free items |
| CommaLists.ItemOfPiece | browserd/embedder_switches.cc:49-55 | a piece without a comma is one item, without the whitespace around it, or none |
| CommaLists.CommaSeparates | browserd/embedder_switches.cc:49-55 | a comma separates the items before it from those after it |
| EmbedderSwitchClasses.MergeCommaSeparatedValues | browserd/embedder_switches.cc:40-66 | the two loops compute the merge |
| EmbedderSwitchClasses.FindToken | browserd/embedder_switches.cc:68-79 | the search finds exactly the items of the list |
| EmbedderSwitchClasses.AppendSwitch | browserd/embedder_switches.cc:81-101 | set, clear or merge in place; a missing command line or name changes nothing |
| EmbedderSwitchClasses.ScopeForChildProcess | browserd/embedder_switches.cc:109-124 | the scope bits for a process type |
| EmbedderSwitchClasses.AppendDefaultGpuChildSwitches | browserd/embedder_switches.cc:138-159 | the GPU defaults |
| EmbedderSwitchClasses.SwitchPolicy.AppendSwitchesForScope | browserd/embedder_switches.cc:126-136 | the loop applies the entries that share a bit with the scope, in order; who that reaches is `SwitchDelivery.OneEntryDelivered` |
| EmbedderSwitchClasses.SwitchPolicy.SetEmbedderSwitches | browserd/embedder_switches.cc:176-180 | replaces the policy |
| EmbedderSwitchClasses.SwitchPolicy.ClearEmbedderSwitches | browserd/embedder_switches.cc:182-184 | empties the policy |
| EmbedderSwitchClasses.SwitchPolicy.AppendEmbedderSwitchesForBrowser | browserd/embedder_switches.cc:186-188 | applies the browser's scope |
| EmbedderSwitchClasses.SwitchPolicy.AppendEmbedderSwitchesForChild | browserd/embedder_switches.cc:190-194 | applies the child's scope, then the GPU defaults |
| GuiTabTheorems.TabsStayConsistent | browserd/gui/gui_runtime.cc:78-233 | in every reachable state ids differ, nothing is active exactly when there are no tabs and otherwise the active id names one, and quit has run once if and only if a shutdown has started |
| GuiTabTheorems.IdsNeverReused | browserd/gui/gui_runtime.cc:86-102 | no id is given twice, and every window is open or was closed, exactly once |
| GuiTabTheorems.DelayedCloseRemovesItsOwnTab | browserd/gui/gui_runtime.cc:207-229 | a delayed close message finds the tab of the window that posted it, if still open, and no other |
| GuiTabTheorems.CloseRemovesOneTab | browserd/gui/gui_runtime.cc:125-148 | a close removes the tab asked for, keeps the others in order, and keeps the active one unless it was removed |
| GuiTabTheorems.CreateAddsActiveTab | browserd/gui/gui_runtime.cc:78-123 | in every reachable state, a creation that succeeds puts one tab after the old ones, with an id no tab ever had and a close callback; that id is returned and is the active one. One that fails leaves tabs and active id as they were. Neither closes or posts anything |
| GuiTabTheorems.UserCloseOnlyPosts | browserd/gui/gui_runtime.cc:207-212 | the user closing a window posts one message for its tab and uses up its callback; tabs and active id stay |
| GuiTabTheorems.ShutdownClosesAll | browserd/gui/gui_runtime.cc:157-172 | the first shutdown closes every window in the order of the tabs and quits; any other does nothing |
| GuiTabTheorems.ClosesOnlyClose | browserd/gui/gui_runtime.cc:125-229 | a close opens no window and gives no id; a posted message is used up, and a close posts none |
| GuiTabTheorems.CloseReportsWhetherFound | browserd/gui/gui_runtime.cc:125-148 | closing reports whether there was such a tab |
| GuiTabTheorems.IdsAreNumbered | browserd/gui/gui_runtime.cc:86-86 | the next id is "gui-" and the decimal number of the next tab |
| GuiTabTheorems.LastCloseQuits | browserd/gui/gui_runtime.cc:144-172 | under `shutdown_on_zero_tabs` a close that leaves no tab has the quit callback run, once |
| GuiTabTheorems.StepKeeps | browserd/gui/gui_runtime.cc:78-233 | every operation keeps the invariant |
| GuiTabs.TargetIdInjective | browserd/gui/gui_runtime.cc:86-86 | different numbers give different ids |
| GuiTabs.Find | browserd/gui/gui_runtime.cc:186-197 | the first tab with an id, or none |
| GuiRuntimeClass.GuiRuntime.Initialize | browserd/gui/gui_runtime.cc:38-43 | creates the initial tab if asked to |
| GuiRuntimeClass.GuiRuntime.CreateTab | browserd/gui/gui_runtime.cc:78-123 | may fail before or after using up an id; otherwise the new tab is last and active, as `GuiTabTheorems.CreateAddsActiveTab` says |
| GuiRuntimeClass.GuiRuntime.CloseTab | browserd/gui/gui_runtime.cc:125-148 | closes the named or the active tab |
| GuiRuntimeClass.GuiRuntime.Shutdown | browserd/gui/gui_runtime.cc:157-172 | closes everything and quits, the first time only |
| GuiRuntimeClass.GuiRuntime.FindTab | browserd/gui/gui_runtime.cc:186-197 | the search loop |
| GuiRuntimeClass.GuiRuntime.OnWindowCloseRequested | browserd/gui/gui_runtime.cc:207-212 | posts the removal, once per window |
| GuiRuntimeClass.GuiRuntime.RemoveClosedWindow | browserd/gui/gui_runtime.cc:214-229 | removes the tab if it is still there |
| GuiRuntimeClass.GuiRuntime.ChooseFallbackActiveTab | browserd/gui/gui_runtime.cc:231-233 | the first tab, or none |
| Observers.RefreshWatchesExactly | browserd/core/browser_controller.cc:1373-1411 | after a refresh the observers watch exactly the listed pages, by identity and not by address, each once, over any history with reused addresses |
| Observers.SurvivorsStay | browserd/core/browser_controller.cc:1385-1395 | an observer stays, as itself, if and only if it still watches a listed page |
| Observers.OrderKept | browserd/core/browser_controller.cc:1385-1407 | survivors keep their order and newcomers follow |
| Observers.NewcomersFollowList | browserd/core/browser_controller.cc:1397-1407 | new observers come in the order in which the list first names their pages |
| Observers.StepKeeps | browserd/core/browser_controller.cc:1014-1017 | an address held by an observer is always that of its own page |
| ObserversClass.Instrumentation.RefreshSharedRuntimeBehavior | browserd/core/browser_controller.cc:1373-1411 | removes, appends, then points the behavior simulator at the active page; without a runtime the list is cleared |
| ObserversClass.Instrumentation.UpdateWebContents | browserd/core/browser_controller.cc:1038-1046 | the simulator observes the page given, or none |
| Observers.SimulatorFollows | browserd/core/browser_controller.cc:1038-1046 | the page simulated always exists and is the one at its address; a refresh makes it the active page |
| Observers.NoRuntimeClears | browserd/core/browser_controller.cc:1373-1382 | without a runtime a refresh drops every observer and points the simulator at nothing |
| Observers.CreationTouchesNoObserver | browserd/core/browser_controller.cc:1014-1017 | a new page changes no observer, not even at an address that one held before |
| Observers.DestructionDetachesItsOwn | browserd/core/browser_controller.cc:1014-1017 | the end of a page detaches its own observer and its own simulation, and no other |
| ObserversClass.Instrumentation.RemoveUnwanted | browserd/core/browser_controller.cc:1385-1395 | the removing loop |
| ObserversClass.Instrumentation.AppendMissing | browserd/core/browser_controller.cc:1397-1407 | the appending loop |
| ObserversClass.Instrumentation.AlreadyObserved | browserd/core/browser_controller.cc:1398-1402 | the search loop |
| Scroll.DistanceConserved | browserd/core/browser_interactions.cc:632-676 | whatever chunks are drawn, sent plus remaining is the larger requested distance at every moment, and each requested axis moved by the distance sent |
| Scroll.OkMovesTotal | browserd/core/browser_interactions.cc:632-676 | on Ok each requested axis moved sign x T, in between ceil(T/80) and ceil(T/40) events and 12 to 30 ms per event |
| Scroll.EventsAreDrawn | browserd/core/browser_interactions.cc:632-676 | event i moves both requested axes by 40 and the number drawn for it, or by what remains if that is less, and a pause of 12 ms and the number drawn follows |
| Scroll.ExactWhenOneAxisOrDiagonal | browserd/core/browser_interactions.cc:1308-1319 | the scroll done is the scroll asked for if and only if one axis is zero or both have the same size |
| Scroll.NoViewStopsShort | browserd/core/browser_interactions.cc:642-646 | without a view the scroll ends with an error, short of the total |
| Scroll.ScrollEnds | browserd/core/browser_interactions.cc:637-676 | with a view all along the scroll ends in Ok |
| Scroll.ScrollState.StepOnce | browserd/core/browser_interactions.cc:632-676 | one step on the shared state: its wheel event, its answer, its delay and what remains, as the machine says; the answer is returned, and another step is posted exactly when there is none |
| Scroll.BeginScroll | browserd/core/browser_interactions.cc:1308-1319 | nothing to scroll makes no state and returns Ok at once; otherwise the first step runs before the call returns, and its answer, if it gives one, is returned |

## Left out

- ScreenshotClasses.JavaScriptEvaluationRequest.Start: the callback is a screenshot's; the other callers of the same request, which bind callbacks of their own, are not modelled.
- McpHttpTheorems.HandledOnce: whether the connection is still open is judged when the response runs on the HTTP thread, as the code does, not when the main thread produced it.
- Navigation.AnsweredInTime: assumes that timers fire on time.
- Screenshot.AnsweredInTime: assumes that timers fire on time.
- Scroll.ScrollEnds: assumes that the posted steps keep being called.
- IpcLoopClass.IpcThread.RunLoop: the calls of the main thread and the results of the system calls are given for any number of rounds; that the stop flag is ever set is not assumed, so the loop may still be running when they are used up.
- Creating the listening socket, the parent-directory and stale-socket checks, and starting and stopping the threads: single decisions around system calls.
- The Windows named-pipe transport.
- What follows the end of standard input (`OnTransportClosed`): at most one call of the controller's shutdown.
- Values that are not ASCII on a command line, switch names that begin with dashes, and the order and repetition of arguments in argv: the command line is a map from switch to value.
- Wrap-around of the 64-bit counters, and `std::abs` of the least int in a scroll.
- `DevToolsEvaluationClient`, which nothing constructs, and `ReloadWaiter`, which has no timeout.
- Lifetimes behind raw pointers: the web contents a screenshot or a scroll was given are taken to exist.
- HTTP response headers, host checks at start-up, and the HTTP parser.
- What tool handlers do, page scripts, mouse and key input, cookies, window geometry and the C embedding interface.
