# Verified model of FineCode's stateful cores

FineCode runs code actions in extension-runner processes and talks to them, to the workspace manager
and to editors over JSON-RPC. This project models the parts of it whose guarantees hold over whole runs,
and proves those guarantees in Dafny. `dafny verify dfyconfig.toml` checks everything.

Each component is modelled twice. A specification gives its state as a value and every atomic stretch
between two awaits (or lock operations) as a function; what a component promises is proved as lemmas
about every run, that is, about every sequence of those steps that the event loop, the threads or the
environment can choose. A class or a method with loops then performs the same steps on fields, and its
contract says that it does. The modules on history and effects say what the steps mean: which events an
outcome, a file, a row or a reply comes from, in the messages and numbers that go over the wire.

| module | models |
|---|---|
| `Messages`, `Options`, `Sequences` | messages, futures' outcomes, the ways a request can end; small shared vocabulary |
| `ServerSession`, `SessionHistory` | the server side of a session: outbound futures, request tasks, cancellation, exit; what its events lead to |
| `Client`, `ClientHistory` | the client: async requests, incoming requests, timeouts, the stop handler; what its events lead to |
| `RpcSystem`, `RpcHistory` | client and server joined by two FIFO channels; which step on which side decides an outcome |
| `WmClient` | the pending table of the workspace manager's client |
| `Framing` | header and newline framing over arbitrary chunks, timeouts and cuts |
| `Wal`, `WalByName`, `WalEffects`, `WalNames`, `WalWriter` | the write-ahead log: append, rotation, clean-up, recovery; in number order, by file names, event by event, and at work on named files |
| `Ingest`, `IngestMeaning` | reading log files into the event table: keys, counters, deduplication; what lines and rows say |
| `WalStore` | log and table together, ingests reading line by line while the log goes on |
| `Services`, `ServiceHistory`, `ServiceLeaks` | handlers, their instances and the services these use: shutdown, reload, disposal; what the events lead to, and what no shutdown reaches |
| `PartialResults` | the throttled sender of partial results |
| `ServeState`, `ServeHistory` | the hand-over of the store between the explorer and the ingester |
| `MypyGate` | one dmypy run per project |
| `Grouping` | two ways of giving files to projects |
| `Worklist` | reachable workspace packages |
| `TestIds`, `TestTree`, `ListedIds` | pytest node ids, their printer and parser, the tree of tests and the ids in it |

## What the proofs found

Some promises do not hold on all inputs. The code is modelled as it is; each of these comes with the exact
condition.

- **A failing append burns a sequence number.** `append` counts the event and opens the file before the
  event is dumped. If dumping raises, the next event leaves a gap, and if the file had to be created, a
  writer that reopens the directory starts again at 1. What is read back is still the end of everything
  appended; its numbers are consecutive exactly when the burned and the forgotten numbers cancel out before
  each append (`Wal.ReadBackIsContiguousSuffix`, `Wal.NumberedIff`). Bounds, deletion order and exactly-once
  ingestion hold all the same.
- **Past file number 999999 the log breaks.** Names sort as numbers only up to there
  (`WalNames.NamesSortAsNumbersIff`); beyond, a reopened writer deletes its newest file and gives that file's
  places again, so an equal event can be taken for a duplicate and lost (`WalByName.NewestFileIsDeleted`,
  `WalByName.OrderHoldsIff`, `WalStore.EventIsLost`, `WalStore.HoldsEachOnceIff`).
- **A shutdown during a handler's initialisation can make the next one raise.** When the awaited
  initialisation ends after the handler was shut down, its status becomes initialised again although the
  cached instance is in no `used_by` list; the removal in the next shutdown raises, and the handlers after it
  are not shut down (`Services.StepRevivesIff`, `Services.ShutdownAllFailsIff`).
- **Instances can leak.** Nothing keeps two runs from instantiating one handler at the same time; the second
  instance takes the first one's place in the cache, and no shutdown ever reaches the first one. The same
  happens to an instance that registers after the shutdown of its handler, unless its initialisation ends
  after that (`ServiceLeaks.StepStrandsIff`, `ServiceLeaks.StrandedForGood`, `ServiceLeaks.AllServicesFreeIff`).
- **A sender that raises under the timer silences it.** The finished timer stays in its field, so no later
  value starts a new one until everything is sent at once (`PartialResults.StepKeepsAliveIff`,
  `PartialResults.RaisingTimerSilences`).
- **The mypy gate can stay shut.** File versions are read after the entry is made and outside the `try`
  (`MypyGate.EntryIsGoneIff`).
- **Node ids need more than parts free of `::`.** A part that ends with a colon moves the separator
  (`TestIds.SplitJoinIff`). The documentation of test ids promises the round trip for every listed id
  (`presets/fine_test/fine_test/test_id.py:32-36`); it never holds for the node of a
  class (`ListedIds.ListedRoundTripsIff`), and `TestIds.ParsePrintIff` says for which ids at all it holds.
- **One file can be listed twice.** The tree goes by the text before `::`, and ids by the path, so two spellings
  of a path make two nodes with one id (`TestTree.SameIdIff`).
- **Newline framing delivers a message whose newline is missing** (`Framing.BodyBeforeNewline`).
- **An early cancel is lost**, as a request registers itself only when it begins, and so is every cancel of
  a request whose id is null (`ServerSession.EarlyCancelIsLost`, `ServerSession.CancelReachesItsTask`).

## Assumptions

- The event loop switches only at awaits; channels are FIFO.
- The JSON serialiser escapes to ASCII, is never empty, and reads back what it wrote; SHA-256 does not
  collide; paths have no NUL; a directory lists each file once.
- DuckDB lets one connection at a time open the store for writing, and closing a connection does not raise.
- `update` of partial results is a function of the two values, associative where conservation is stated.

## Model

| member | source | states |
|---|---|---|
| `RpcSystem.OutcomeComesFromOwnRequest` | finecode_jsonrpc/src/finecode_jsonrpc/client.py:576-719 | In every run of client and server over two FIFO channels, with any timeouts, cancels and completion order, a future that completes holds the conversion of the end of the one server task that received that very request as it was sent; no other server task has its id. |
| `RpcSystem.ValueIsTheHandlersValue` | finecode_jsonrpc/src/finecode_jsonrpc/client.py:677-719 | Case by case of how the handler of that very request ended: a value is the conversion of what it returned, its own error has its own code and message, a cancellation is -32800, an unknown method -32601, any other failure -32603 with its message. |
| `RpcSystem.OutcomeIsFinal` | finecode_jsonrpc/src/finecode_jsonrpc/client.py:609-619 | The first outcome of a client future is never replaced, over the whole run. |
| `RpcSystem.NobodyWaitsWhenQuiet` | finecode_jsonrpc/src/finecode_jsonrpc/client.py:486-549 | When both channels are drained and every server task has ended, no caller is still waiting and there are as many tasks as requests. |
| `RpcSystem.RunKeepsValid` | finecode_jsonrpc/src/finecode_jsonrpc/jsonrpc_server.py:200-289 | Every run keeps the joint invariant: task number f serves request number f, the client's table holds exactly what awaits a response, and every answered request has its own answer as outcome. |
| `RpcSystem.RunGoesOn` | finecode_jsonrpc/src/finecode_jsonrpc/client.py:486-719 | Any step of client, server or channel that can happen continues a run. |
| `RpcHistory.OutcomeIsDecided` | finecode_jsonrpc/src/finecode_jsonrpc/client.py:576-719 | In every run, every outcome of a client's request was decided by one earlier step: the end of the handler that served this very request on the server, with its value converted or its error, the lack of a handler, the caller's own cancellation, or the stop of the server. |
| `RpcHistory.ServersOutcomeIsDecided` | finecode_jsonrpc/src/finecode_jsonrpc/jsonrpc_server.py:224-237 | The same for the server's own requests: a value or an error is what the client's handler made of that very request, or the client's refusal of it; otherwise the request was cancelled on the server, or the transport closed. |
| `RpcHistory.ServerRequestIs` | finecode_jsonrpc/src/finecode_jsonrpc/jsonrpc_server.py:152-170 | There is one message under the number of each request of the server, as it was sent. |
| `ServerSession.RunKeepsInvariant` | finecode_jsonrpc/src/finecode_jsonrpc/jsonrpc_server.py:152-327 | In every interleaving the outbound table holds ids below the next id mapped to their own future, pending or cancelled; every pending future is in it; the active table holds running tasks under their own id; ended tasks and responses correspond. |
| `ServerSession.RunGoesOn` | finecode_jsonrpc/src/finecode_jsonrpc/jsonrpc_server.py:200-327 | Any event that the event loop can perform continues a run, so the invariant excludes nothing. |
| `ServerSession.OutcomeNeverReplaced` | finecode_jsonrpc/src/finecode_jsonrpc/jsonrpc_server.py:224-237 | A future of the server that has an outcome keeps it for the rest of the run. |
| `ServerSession.ExitFinishesEveryFuture` | finecode_jsonrpc/src/finecode_jsonrpc/jsonrpc_server.py:315-327 | When the transport closes, every future issued so far is done, both tables are empty, and exactly those tasks that were registered are cancelled. |
| `ServerSession.OneResponsePerEndedTask` | finecode_jsonrpc/src/finecode_jsonrpc/jsonrpc_server.py:239-289 | For every id, even one that a client reuses: as many responses with it were enqueued as tasks serving it have ended; each has exactly one of result and error, and each ended task's own response is among them, also when the result cannot be serialised. |
| `ServerSession.ResponsesMatchEndedTasks` | finecode_jsonrpc/src/finecode_jsonrpc/jsonrpc_server.py:239-289 | The one-to-one correspondence behind it, for every state that satisfies the invariant. |
| `ServerSession.DeliveryAloneAnswersNothing` | finecode_jsonrpc/src/finecode_jsonrpc/jsonrpc_server.py:200-222 | Delivering a message enqueues nothing: notifications and responses produce no response and start nothing, and a request only creates its own task. |
| `ServerSession.CancelReachesItsTask` | finecode_jsonrpc/src/finecode_jsonrpc/jsonrpc_server.py:303-313 | A cancel notification reaches exactly what is registered under its id and takes it off the table, unless the id is null: then it changes nothing. Everything else is untouched. |
| `ServerSession.EarlyCancelIsLost` | finecode_jsonrpc/src/finecode_jsonrpc/jsonrpc_server.py:251-253 | A cancel for a request whose task has not begun leaves no trace exactly when its id is null or nothing else is registered under it. |
| `ServerSession.JsonRpcServerSession.SendRequest` | finecode_jsonrpc/src/finecode_jsonrpc/jsonrpc_server.py:152-170 | Sending performs the specified step on the session's fields: next id, future, table entry, message. |
| `ServerSession.JsonRpcServerSession.ForgetTimedOut` | finecode_jsonrpc/src/finecode_jsonrpc/jsonrpc_server.py:172-176 | After a timeout only the table entry goes. |
| `ServerSession.JsonRpcServerSession.HandleMessage` | finecode_jsonrpc/src/finecode_jsonrpc/jsonrpc_server.py:200-222 | The dispatch on which members a message has performs the specified delivery. |
| `ServerSession.JsonRpcServerSession.ResolveResponse` | finecode_jsonrpc/src/finecode_jsonrpc/jsonrpc_server.py:224-237 | A response pops its entry and completes its future unless that was cancelled; completing never meets a future that is done. |
| `ServerSession.JsonRpcServerSession.BeginRequest` | finecode_jsonrpc/src/finecode_jsonrpc/jsonrpc_server.py:239-253 | The first stretch of a request's task: an unknown method is answered at once, any other request is registered. |
| `ServerSession.JsonRpcServerSession.EndRequest` | finecode_jsonrpc/src/finecode_jsonrpc/jsonrpc_server.py:257-270 | However the handler ends, one response is sent and the registration goes. |
| `ServerSession.JsonRpcServerSession.BuiltinCancelRequest` | finecode_jsonrpc/src/finecode_jsonrpc/jsonrpc_server.py:303-313 | The built-in handler performs the specified cancel: nothing without an id, with a null id, or without an entry. |
| `ServerSession.JsonRpcServerSession.HandleExit` | finecode_jsonrpc/src/finecode_jsonrpc/jsonrpc_server.py:315-327 | The two loops at exit perform the specified exit step. |
| `SessionHistory.AnswerIsTheHandlersEnd` | finecode_jsonrpc/src/finecode_jsonrpc/jsonrpc_server.py:239-289 | In every run, for every task that ended: at its recorded place the log has a response with the request's own id, with the value returned, the handler's own code and message, -32800 for a cancellation, -32601 for an unknown method, or -32603 with the message of any other failure; and it ended so by an event of its own. |
| `SessionHistory.ResponseCompletes` | finecode_jsonrpc/src/finecode_jsonrpc/jsonrpc_server.py:224-237 | In every run, a response to a waiting request of the server hands over its result, or its error if it has one, and changes no other future. |
| `SessionHistory.OutcomeHasCause` | finecode_jsonrpc/src/finecode_jsonrpc/jsonrpc_server.py:224-237 | Conversely every value came with the result of a delivered response with that number, every error with its error; the others from the future's own cancellation or the end of the transport. |
| `SessionHistory.CancellingCancels` | finecode_jsonrpc/src/finecode_jsonrpc/jsonrpc_server.py:172-176 | A timeout or a cancellation cancels that future if it waits, and changes nothing else. |
| `SessionHistory.TableIff` | finecode_jsonrpc/src/finecode_jsonrpc/jsonrpc_server.py:152-237 | The outbound table has exactly the requests sent since when no response, no timeout of theirs and no end of the transport has come. |
| `SessionHistory.FutureWasSent` | finecode_jsonrpc/src/finecode_jsonrpc/jsonrpc_server.py:152-170 | Every future is that of the request sent under its number, with its method and parameters, and the message stays in the log. |
| `SessionHistory.EachStepSends` | finecode_jsonrpc/src/finecode_jsonrpc/jsonrpc_server.py:152-289 | Nothing is sent but requests, notifications and one answer for each task that ends. |
| `SessionHistory.TaskWasDelivered` | finecode_jsonrpc/src/finecode_jsonrpc/jsonrpc_server.py:200-222 | Every task is that of a request that was delivered, in order of delivery. |
| `SessionHistory.RegisteredIff` | finecode_jsonrpc/src/finecode_jsonrpc/jsonrpc_server.py:251-313 | A task is registered under an id exactly since it began, until a task with the id ends, another one begins, a cancel names it or the transport closes. |
| `SessionHistory.ToldToStopIff` | finecode_jsonrpc/src/finecode_jsonrpc/jsonrpc_server.py:303-327 | A running task was told to stop exactly if a cancel for its id or the end of the transport came while it was registered. |
| `Client.StepKeepsValid` | finecode_jsonrpc/src/finecode_jsonrpc/client.py:486-549 | Every step keeps the client's invariant: ids are used once, the table maps an id to its own future, expected types belong to the requests, and the log of sent messages has each request once, in order. The stop handler, which completes futures without removing them, is included. |
| `Client.ResponseSettles` | finecode_jsonrpc/src/finecode_jsonrpc/client.py:677-719 | A response to a waiting request settles exactly that future with the conversion for that request's method, or with the conversion's failure. |
| `Client.IncomingChangesNoFuture` | finecode_jsonrpc/src/finecode_jsonrpc/client.py:621-675 | An incoming request changes no future and no table entry. |
| `Client.OutcomeNeverReplaced` | finecode_jsonrpc/src/finecode_jsonrpc/client.py:609-619 | No step changes the outcome of a future that is done: late responses, timeouts, cancels and the server stopping included. |
| `Client.JsonRpcClient.SendRequest` | finecode_jsonrpc/src/finecode_jsonrpc/client.py:486-534 | Up to its await, sending performs the specified step, and it raises exactly when it has changed nothing. |
| `Client.JsonRpcClient.HandleMessage` | finecode_jsonrpc/src/finecode_jsonrpc/client.py:576-719 | The dispatch performs the specified step: an error, a request, a response, or nothing. |
| `Client.JsonRpcClient.HandleRequest` | finecode_jsonrpc/src/finecode_jsonrpc/client.py:621-675 | An incoming request is refused with its error code or served. |
| `Client.JsonRpcClient.EndTask` | finecode_jsonrpc/src/finecode_jsonrpc/client.py:762-809 | However a served request ends, the specified answer is sent, and none after a cancellation. |
| `Client.JsonRpcClient.ServerProcessStopped` | finecode_jsonrpc/src/finecode_jsonrpc/client.py:322-332 | The stop handler fails what is pending and leaves the table as it is. |
| `ClientHistory.OutcomeHasCause` | finecode_jsonrpc/src/finecode_jsonrpc/client.py:576-719 | In every run of the client, every outcome came to a waiting request by an event that carries it: a response with its id and that error, or a result that converts so or fails to; its own cancellation; or the stop of the server. |
| `ClientHistory.ResponseCompletes` | finecode_jsonrpc/src/finecode_jsonrpc/client.py:677-719 | A response to a waiting request settles it with its error, or with the conversion of its result for that method, and no other. |
| `ClientHistory.CancellingCancels` | finecode_jsonrpc/src/finecode_jsonrpc/client.py:536-549 | A timeout or a cancellation cancels that future if it waits, and changes nothing else. |
| `ClientHistory.StoppingFailsAll` | finecode_jsonrpc/src/finecode_jsonrpc/client.py:322-332 | When the server stops every waiting request fails, and nothing else changes. |
| `ClientHistory.ResponseHasCause` | finecode_jsonrpc/src/finecode_jsonrpc/client.py:762-809 | Every response in the log is the answer of a handler that ended, under its request's id, or the refusal of a request. |
| `ClientHistory.EndingAnswers` | finecode_jsonrpc/src/finecode_jsonrpc/client.py:762-809 | The answer is the value returned, the handler's own code and message, or -32603 with the message; a cancelled handler answers nothing. |
| `ClientHistory.RequestIsServedOrRefused` | finecode_jsonrpc/src/finecode_jsonrpc/client.py:621-675 | An incoming request is served exactly if its method is known, its parameters fit and there is an implementation; otherwise it is refused with -32602 for the parameters and -32601 else. |
| `ClientHistory.ServedWasDelivered` | finecode_jsonrpc/src/finecode_jsonrpc/client.py:621-675 | Whatever is being served was delivered as a request and not refused. |
| `ClientHistory.SendingSends` | finecode_jsonrpc/src/finecode_jsonrpc/client.py:486-534 | A request goes out under its own id, with its method and parameters, exactly if its method is known and it can be dumped. |
| `WmClient.RunKeepsValid` | src/finecode/wm_client.py:499-529 | Every run keeps the pending table exact: an entry for each request that waits, under its own number. |
| `WmClient.RunGoesOn` | src/finecode/wm_client.py:533-579 | Any request, arrival, cancellation, end of the loop or close continues a run. |
| `WmClient.ReplyIsFinal` | src/finecode/wm_client.py:541-557 | A reply is never replaced, and a reply that was received carries the request's own id. |
| `WmClient.LoopEndFailsEveryWaiter` | src/finecode/wm_client.py:574-579 | When the reader loop ends, and again at close, every request issued so far is done and the table is empty. |
| `WmClient.ResponseReachesItsWaiter` | src/finecode/wm_client.py:541-557 | A response completes the request it names and nothing else; receiving it twice changes nothing more. |
| `WmClient.ApiClient.Request` | src/finecode/wm_client.py:499-520 | A request performs the specified step and writes a message under its number. |
| `WmClient.ApiClient.Dispatch` | src/finecode/wm_client.py:541-567 | One turn of the reader loop performs the specified step. |
| `WmClient.ApiClient.FailPending` | src/finecode/wm_client.py:574-579 | The loop over the pending futures fails exactly those that wait. |
| `WmClient.ReplyHasCause` | src/finecode/wm_client.py:533-579 | Every reply came while the request was waiting: a message that arrived with its number, its own cancellation, or the end of the loop or of the client. |
| `WmClient.IssuingWaits` | src/finecode/wm_client.py:499-516 | A request gets the next number and waits under it. |
| `WmClient.CancellingEndsTheWait` | src/finecode/wm_client.py:523-523 | Cancelling ends that wait and changes nothing else. |
| `WmClient.ApiClient.Answer` | src/finecode/wm_client.py:523-529 | An error is raised with its code and message, a result is returned, and a response without either is null. |
| `Framing.CharactersAreBytes` | finecode_jsonrpc/src/finecode_jsonrpc/server_transport.py:144-149 | The announced length, counted in characters, is the length in bytes exactly when the text is ASCII. |
| `Framing.Utf8ReadsBack` | finecode_jsonrpc/src/finecode_jsonrpc/server_transport.py:149-149 | Every character reads back from its bytes, which are the shortest sequence for it. |
| `Framing.AnnouncementReadsBack` | finecode_jsonrpc/src/finecode_jsonrpc/server_transport.py:255-259 | The header line that announces a length is recognised and gives that length back, for every length. |
| `Framing.CutStream` | finecode_jsonrpc/src/finecode_jsonrpc/server_transport.py:249-295 | On any stream of frames with extra header lines in any position and any bodies, cut at any byte, the reader delivers exactly the JSON objects among the bodies of the complete frames, in order. |
| `Framing.SendRoundTrip` | finecode_jsonrpc/src/finecode_jsonrpc/server_transport.py:139-154 | The concatenated output of `send`, cut at any byte, is read as exactly the messages sent entirely before the cut; uncut, as all of them. |
| `Framing.EverythingSentIsDelivered` | finecode_jsonrpc/src/finecode_jsonrpc/server_transport.py:398-410 | Reading everything that was sent delivers everything. |
| `Framing.LinesRoundTrip` | finecode_jsonrpc/src/finecode_jsonrpc/server_transport.py:193-231 | The same for newline framing, where a message counts as soon as its body is there. |
| `Framing.BodyBeforeNewline` | finecode_jsonrpc/src/finecode_jsonrpc/server_transport.py:205-213 | The two ways of counting complete messages differ exactly when the cut falls between a body and its newline. |
| `Framing.StreamReader.ReadLine` | finecode_jsonrpc/src/finecode_jsonrpc/server_transport.py:242-244 | For every schedule of chunks and timeouts, a line read is the next line of the bytes still to come; a timeout loses nothing. |
| `Framing.StreamReader.ReadExactly` | finecode_jsonrpc/src/finecode_jsonrpc/server_transport.py:262-267 | For every schedule, the next n bytes, or nothing when the stream ends before. |
| `Framing.ReadMessages` | finecode_jsonrpc/src/finecode_jsonrpc/server_transport.py:235-295 | The loop with its remembered length delivers what the bytes say, for every chunking and every timeout; the server's stdio and TCP readers and the subprocess reader are this loop, so they agree. |
| `Framing.ReadMessagesFromReader` | finecode_jsonrpc/src/finecode_jsonrpc/client.py:1170-1297 | The client's reader, which tests every line for the end of the header, reads the same messages but those of another protocol version, for every chunking; each goes to the synchronous request that it answers if that is pending at the moment, and to the queue otherwise, in order. |
| `Framing.PickedIsSplit` | finecode_jsonrpc/src/finecode_jsonrpc/client.py:1259-1294 | Between the two no message is lost and none is delivered twice, whatever requests are pending when. |
| `Framing.ReadMessagesNewline` | finecode_jsonrpc/src/finecode_jsonrpc/server_transport.py:193-231 | The newline reader delivers what the bytes say, for every chunking and every timeout. |
| `Framing.RestrictedIsFiltered` | finecode_jsonrpc/src/finecode_jsonrpc/client.py:1247-1256 | Dropping messages while reading is filtering what is delivered. |
| `Framing.SendThenRead` | finecode_jsonrpc/src/finecode_jsonrpc/transports.py:163-263 | Sending, any arrival schedule of the bytes, and reading give back the messages sent. |
| `Framing.SentBytesAre` | finecode_jsonrpc/src/finecode_jsonrpc/server_transport.py:144-149 | The bytes sent: the length of the body in bytes, in decimal, then the type of the content, a blank line and the body. |
| `Framing.AnnouncedIff` | finecode_jsonrpc/src/finecode_jsonrpc/server_transport.py:255-259 | A line announces a length exactly if it is this text, digits of that value, CR and LF. |
| `Wal.RunKeepsConsistent` | finecode_extension_runner/src/finecode_extension_runner/wal.py:87-177 | In every run of appends, appends that raise, reopenings and deaths between rotation and write: what is on disk is the end of what was appended, no file but the newest is empty, and the writer's file is the newest one. Files are taken in number order, as the code takes them up to 999999 (`WalByName.RunAgrees`). |
| `Wal.ReadBackIsContiguousSuffix` | finecode_extension_runner/src/finecode_extension_runner/wal.py:87-123 | In every such run, reading the segments in order gives a contiguous end of everything ever appended, up to the last event; and its numbers are consecutive exactly when every append fits whose event is read back after another: as many appends raised right before it as numbers were forgotten by an opening on an empty newest file that no append came after. |
| `Wal.NumberedIff` | finecode_extension_runner/src/finecode_extension_runner/wal.py:99-123 | In every such run the events ever appended are numbered 1, 2, 3, ... exactly when every append fits. |
| `Wal.RepairedFits` | finecode_extension_runner/src/finecode_extension_runner/wal.py:99-177 | An append fits if every append that raised since the last event was followed by a reopening, and had met an empty history or a newest file below the limit. |
| `Wal.FailuresCanCancelOut` | finecode_extension_runner/src/finecode_extension_runner/wal.py:99-177 | That is not necessary: a run whose events are numbered 1, 2 although an append raised on a full newest file, because one more raised after the reopening. |
| `Wal.FailedAppendLeavesGap` | finecode_extension_runner/src/finecode_extension_runner/wal.py:99-123 | An append whose event cannot be dumped burns a number, as the number is counted first: the next event leaves a gap. |
| `Wal.FailedAppendThenReopen` | finecode_extension_runner/src/finecode_extension_runner/wal.py:121-177 | From every reachable state, reopening right after such an append repairs the counter exactly when nothing was appended yet, or the append met a newest file with records and below the limit. |
| `Wal.RunKeepsBounded` | finecode_extension_runner/src/finecode_extension_runner/wal.py:128-144 | In every run with one configuration, failed appends included, there are at most one segment more than configured, and each is below the limit but for its last record. Files in number order. |
| `WalByName.RunAgrees` | finecode_extension_runner/src/finecode_extension_runner/wal.py:87-177 | The same machine with files taken by the order of their names, as the code does. As long as the writer has not gone past file number 999999, every run of it is a run of `Wal`, state by state. |
| `WalByName.ReadBackIsContiguousSuffix` | finecode_extension_runner/src/finecode_extension_runner/wal.py:87-177 | As long as that holds, reading the files in the order in which they are listed gives a contiguous end of everything appended, up to the last event, with consecutive numbers exactly when the appends of what is read fit. |
| `WalByName.RunKeepsBounded` | finecode_extension_runner/src/finecode_extension_runner/wal.py:128-144 | As long as that holds, with one configuration there are at most one file more than configured, each below the limit but for its last record. |
| `WalByName.OnlyOldestAreDeleted` | finecode_extension_runner/src/finecode_extension_runner/wal.py:138-144 | As long as that holds, a step deletes only the oldest files, never the newest one, and every file that stays keeps its lines. |
| `WalByName.RunKeepsPlaces` | finecode_extension_runner/src/finecode_extension_runner/wal.py:138-158 | As long as that holds, each record on disk is at the file and line it was given, and places only move forward: none is given twice, not even after its file was deleted. |
| `WalByName.NewestFileIsDeleted` | finecode_extension_runner/src/finecode_extension_runner/wal.py:138-158 | On the files 999999 and 1000000 a reopened writer takes 999999 for its own, and its next rotation deletes 1000000, the newest. |
| `WalByName.PlaceIsGivenAgain` | finecode_extension_runner/src/finecode_extension_runner/wal.py:138-158 | The append after that gives file 1000000, line 1 a second time. |
| `WalByName.OrderHoldsIff` | finecode_extension_runner/src/finecode_extension_runner/wal.py:138-158 | All runs up to a file number delete only the oldest files and give no place twice exactly when that number is at most 999999. |
| `WalEffects.EachStepChanges` | finecode_extension_runner/src/finecode_extension_runner/wal.py:87-144 | In every run up to 999999, file by file: a step deletes a file exactly if it rotates and at least as many files with higher numbers were there as are to be kept; it creates at most the file it opens for appending, adds exactly one line at the end of it with the next number and what was appended, and leaves all other files as they are. |
| `WalEffects.RotationLeaves` | finecode_extension_runner/src/finecode_extension_runner/wal.py:138-144 | Hence a rotation leaves of the old files exactly as many as configured, or all if there were not so many. |
| `WalEffects.EachStepCounts` | finecode_extension_runner/src/finecode_extension_runner/wal.py:87-177 | An append moves on to the next file exactly if it rotates and counts one number, whether or not it fails; a new writer takes the last file listed and the number of its last line. |
| `WalEffects.HistoryIsAppended` | finecode_extension_runner/src/finecode_extension_runner/wal.py:87-123 | In every run, past 999999 too, the history is what the appends were given, in order. |
| `WalEffects.ReadBackIsAppended` | finecode_extension_runner/src/finecode_extension_runner/wal.py:87-177 | So reading the files as they are listed gives the last of what was appended, up to the last event. |
| `WalEffects.SizeIsLength` | finecode_extension_runner/src/finecode_extension_runner/wal.py:132-133 | The size of a file is the length of its lines put end to end. |
| `WalNames.NameReadsBack` | finecode_extension_runner/src/finecode_extension_runner/wal.py:149-158 | Every segment name parses back to its number, however large. |
| `WalNames.NameIs` | finecode_extension_runner/src/finecode_extension_runner/wal.py:179-180 | A name is `wal-`, the number in decimal with six digits or more without a leading zero, and `.jsonl`. |
| `WalNames.SixDigitNamesSortAsNumbers` | finecode_extension_runner/src/finecode_extension_runner/wal.py:146-147 | Names up to 999999 sort as their numbers do. |
| `WalNames.SevenDigitsSortFirst` | finecode_extension_runner/src/finecode_extension_runner/wal.py:179-180 | File 1000000 is listed before file 999999. |
| `WalNames.NamesSortAsNumbersIff` | finecode_extension_runner/src/finecode_extension_runner/wal.py:179-180 | The names up to a last number sort as numbers exactly when that number is at most 999999. |
| `WalWriter.Writer.constructor` | finecode_extension_runner/src/finecode_extension_runner/wal.py:64-81 | Opening any directory of named files, whatever the numbers, finds the segment number and the sequence number of the specified opening. |
| `WalWriter.Writer.ListSegments` | finecode_extension_runner/src/finecode_extension_runner/wal.py:146-147 | The listing has every file once, in the order of the names. |
| `WalWriter.Writer.DiscoverLastSegmentIndex` | finecode_extension_runner/src/finecode_extension_runner/wal.py:149-158 | The number parsed from the last name listed is the one that the specification opens on. |
| `WalWriter.Writer.DiscoverLastSequence` | finecode_extension_runner/src/finecode_extension_runner/wal.py:160-177 | The last line of the last file listed has the number that the specification goes on from. |
| `WalWriter.Writer.Append` | finecode_extension_runner/src/finecode_extension_runner/wal.py:87-123 | From any state, appending to the named files performs the specified append by name order, rotation and clean-up included. |
| `WalWriter.Writer.AppendFailing` | finecode_extension_runner/src/finecode_extension_runner/wal.py:87-123 | An append whose event cannot be dumped performs the specified step: rotated, counted, file opened, nothing written. |
| `WalWriter.Writer.OpenActive` | finecode_extension_runner/src/finecode_extension_runner/wal.py:121-121 | Opening the file for appending creates it exactly when it is not there. |
| `WalWriter.Writer.RotateIfNeeded` | finecode_extension_runner/src/finecode_extension_runner/wal.py:128-136 | From any state, testing the active file's existence and size performs the specified rotation. |
| `WalWriter.Writer.CleanUpOldSegments` | finecode_extension_runner/src/finecode_extension_runner/wal.py:138-144 | Unlinking listed files from the front performs the specified clean-up. |
| `Ingest.KeyInjective` | extensions/fine_wal_explorer/fine_wal_explorer/ingest_wal_to_store_handler.py:443-449 | The NUL-joined key tells the source id, file path, line number and record, for every source id, when path and record have no NUL. |
| `Ingest.NulInPathCollides` | extensions/fine_wal_explorer/fine_wal_explorer/ingest_wal_to_store_handler.py:444-446 | With a NUL in a path two different places would share a key. |
| `Ingest.SourceBalances` | extensions/fine_wal_explorer/fine_wal_explorer/ingest_wal_to_store_handler.py:118-155 | Per source: read = inserted + duplicate + failed + filtered by time. |
| `Ingest.TotalsAreSums` | extensions/fine_wal_explorer/fine_wal_explorer/ingest_wal_to_store_handler.py:157-162 | The totals of a run are the sums over its sources, each counted from the table its predecessors left. |
| `Ingest.InsertedIsGrowth` | extensions/fine_wal_explorer/fine_wal_explorer/ingest_wal_to_store_handler.py:146-155 | The table grows by exactly the number of events reported as inserted. |
| `Ingest.RowsStay` | extensions/fine_wal_explorer/fine_wal_explorer/ingest_wal_to_store_handler.py:313-365 | Reading lines changes and drops no row. |
| `Ingest.NewRowsAreCandidates` | extensions/fine_wal_explorer/fine_wal_explorer/ingest_wal_to_store_handler.py:332-365 | Every new row belongs to a line that parsed and was not filtered. |
| `Ingest.CandidatesHaveRows` | extensions/fine_wal_explorer/fine_wal_explorer/ingest_wal_to_store_handler.py:313-323 | Every line that parses and is not filtered has a row under its hash afterwards. |
| `Ingest.TimesSpanNewRows` | extensions/fine_wal_explorer/fine_wal_explorer/ingest_wal_to_store_handler.py:146-153 | The first and last times reported are the least and greatest times of rows that were added. |
| `Ingest.FirstIngestHasNoDuplicates` | extensions/fine_wal_explorer/fine_wal_explorer/ingest_wal_to_store_handler.py:112-155 | A first ingest into an empty table, with distinct source ids and each file listed once, counts no duplicate. |
| `Ingest.ReingestInsertsNothing` | extensions/fine_wal_explorer/fine_wal_explorer/ingest_wal_to_store_handler.py:318-323 | Reading the same files again, under the same or a stricter time limit, inserts nothing and leaves the table as it is. |
| `Ingest.ResumingCompletes` | extensions/fine_wal_explorer/fine_wal_explorer/ingest_wal_to_store_handler.py:112-155 | After a run that stopped at any line, whatever stopped it, a full run gives the table that one full run gives. |
| `Ingest.Store.InsertEvent` | extensions/fine_wal_explorer/fine_wal_explorer/ingest_wal_to_store_handler.py:313-365 | A row is inserted exactly when its hash is not there. |
| `Ingest.Store.Run` | extensions/fine_wal_explorer/fine_wal_explorer/ingest_wal_to_store_handler.py:54-187 | The handler's run: its early failures change nothing, an empty list of sources returns at once, a missing source stops it with the rows so far, and otherwise report and table are those of the specification. |
| `Ingest.ValidateSourceSpecs` | extensions/fine_wal_explorer/fine_wal_explorer/ingest_wal_to_store_handler.py:189-192 | Comparing the length of the ids with the size of their set accepts exactly lists without repetition. |
| `Ingest.DiscoverFiles` | extensions/fine_wal_explorer/fine_wal_explorer/ingest_wal_to_store_handler.py:201-223 | The files kept are those listed whose names are not excluded, in order. |
| `IngestMeaning.LineMeans` | extensions/fine_wal_explorer/fine_wal_explorer/ingest_wal_to_store_handler.py:118-137 | A line is skipped if it is blank; fails exactly if it is no JSON object, has no type of event that is a text and not blank, a time that does not parse, or a version that is no number; is filtered exactly if it has a time before the limit; and otherwise gives a row whose every column is the (mapped) member of the record, or its default. |
| `IngestMeaning.AllItemsIff` | extensions/fine_wal_explorer/fine_wal_explorer/ingest_wal_to_store_handler.py:201-223 | Read are exactly the lines of files that are at the location of a source and not excluded, each under its own number. |
| `IngestMeaning.GoodLinesAreStored` | extensions/fine_wal_explorer/fine_wal_explorer/ingest_wal_to_store_handler.py:112-155 | After a run every such line that is a record and not too old has a row under the hash of its source, file, number and record. |
| `IngestMeaning.NewRowsSayTheirLines` | extensions/fine_wal_explorer/fine_wal_explorer/ingest_wal_to_store_handler.py:423-466 | Every row that a run adds says, column by column, what such a line says. |
| `IngestMeaning.SummarySays` | extensions/fine_wal_explorer/fine_wal_explorer/ingest_wal_to_store_handler.py:157-162 | The report on a source has its id, the number of its files, the number of its lines that are not blank, of those that fail, of the rows by which the table grew, and of the rows that were there already. |
| `WalStore.StoreHoldsEachEventOnce` | extensions/fine_wal_explorer/fine_wal_explorer/ingest_wal_to_store_handler.py:112-155 | Exactly once: over every run in which appends, failed appends, rotations, deletions, reopenings and deaths come between any two lines that an ingest reads, ingests break off anywhere, and the writer has not gone past file number 999999, the store has one row for each well-formed event that an ingest has read so far, with the columns that its line says, and no other row. Without a time filter. |
| `WalStore.RunKeepsValid` | extensions/fine_wal_explorer/fine_wal_explorer/ingest_wal_to_store_handler.py:112-155 | The invariant behind it, for every such state: the rows are those of the events read, and an ingest under way has read every event that was on disk when it began and that it has passed. |
| `WalStore.HoldsEachOnceIff` | finecode_extension_runner/src/finecode_extension_runner/wal.py:138-158 | If the line of a certain event parses, all runs up to a file number hold each event once exactly when that number is at most 999999. |
| `WalStore.EventIsLost` | extensions/fine_wal_explorer/fine_wal_explorer/ingest_wal_to_store_handler.py:313-323 | Past it there is a run in which the directory is reopened on 999999 and 1000000, an event equal to the deleted one is appended and gets its number and its place, and an ingest takes it for a duplicate. |
| `WalStore.WellFormedIff` | extensions/fine_wal_explorer/fine_wal_explorer/ingest_wal_to_store_handler.py:423-466 | An event is well-formed exactly if its line is a record that does not fail. |
| `WalStore.SeenWasRead` | extensions/fine_wal_explorer/fine_wal_explorer/ingest_wal_to_store_handler.py:117-117 | The recorded set of events is exactly those whose line some earlier step read. |
| `WalStore.ReadWasOnDisk` | extensions/fine_wal_explorer/fine_wal_explorer/ingest_wal_to_store_handler.py:112-117 | Whatever an ingest reads was in a file of the directory at some moment of that same ingest, even if the file is gone when it is read. |
| `WalStore.OnDiskIsThere` | extensions/fine_wal_explorer/fine_wal_explorer/ingest_wal_to_store_handler.py:112-117 | What counts as on disk is there: the event's file exists and has the event at its line. |
| `WalStore.FinishedIngestReadAll` | extensions/fine_wal_explorer/fine_wal_explorer/ingest_wal_to_store_handler.py:112-155 | An ingest that gets to its end has read every event that was on disk when it began, whatever the writer deleted meanwhile. |
| `WalStore.HistoryOnlyGrows` | finecode_extension_runner/src/finecode_extension_runner/wal.py:99-123 | Events keep their index and place for the rest of the run, so later deletions change nothing that was ingested. |
| `WalStore.HashTellsEvent` | extensions/fine_wal_explorer/fine_wal_explorer/ingest_wal_to_store_handler.py:443-449 | Different events of the log have different hashes. |
| `Services.RunKeepsValid` | finecode_extension_runner/src/finecode_extension_runner/services.py:371-452 | In every run of preparations, instantiations (any number of one handler at once), shutdowns, reloads and exits, with awaits in between and whatever raises, each `used_by` list has each live instance as often as it uses the service, and no other. |
| `Services.RunGoesOn` | finecode_extension_runner/src/finecode_extension_runner/services.py:299-452 | Any preparation, instantiation step, shutdown, reload or exit continues a run. |
| `Services.RegisteringCounts` | finecode_extension_runner/src/finecode_extension_runner/_services/run_action.py:1181-1194 | Registering enters an instance once for each use, and changes no other count. |
| `Services.ShutdownFailsIff` | finecode_extension_runner/src/finecode_extension_runner/services.py:394-396 | Shutting a handler down raises on a missing entry exactly when the handler is not marked as shut down and the instance in its cache, with services, was released already. |
| `Services.ShutdownDisposes` | finecode_extension_runner/src/finecode_extension_runner/services.py:394-404 | A disposable service is disposed exactly when its last live user leaves, and then once. |
| `Services.SecondShutdownAllChangesNothing` | finecode_extension_runner/src/finecode_extension_runner/services.py:407-422 | After a shutdown of everything that did not raise, another one changes nothing. |
| `Services.ShutdownAllFailsIff` | finecode_extension_runner/src/finecode_extension_runner/services.py:407-422 | Shutting everything down raises exactly when the cache has a handler of that kind. |
| `Services.StepRevivesIff` | finecode_extension_runner/src/finecode_extension_runner/_services/run_action.py:1202-1221 | Such a handler comes about in exactly one way: an initialisation ends after the handler was marked as shut down, while the instance in its cache is a released one. Until then no step raises. |
| `Services.RunNeverFails` | finecode_extension_runner/src/finecode_extension_runner/services.py:371-422 | In a run in which no initialisation ends that late, nothing ever raises. |
| `Services.LateEndMakesShutdownFail` | finecode_extension_runner/src/finecode_extension_runner/_services/run_action.py:1221-1221 | Right after such an end, the next shutdown of everything raises. |
| `Services.Runner.BeginAttempt` | finecode_extension_runner/src/finecode_extension_runner/_services/run_action.py:1130-1162 | An attempt begins exactly when there is no instance, and puts its own `exec_info` into the cache at once. |
| `Services.Runner.RegisterServices` | finecode_extension_runner/src/finecode_extension_runner/_services/run_action.py:1178-1194 | Caching the instance, over another one if need be, and the registration loop perform the specified registration. |
| `Services.Runner.ShutdownActionHandler` | finecode_extension_runner/src/finecode_extension_runner/services.py:371-404 | The method performs the specified shutdown, the point where it raises included. |
| `Services.Runner.ShutdownAllActionHandlers` | finecode_extension_runner/src/finecode_extension_runner/services.py:407-422 | The nested loops perform the specified round over all cached handlers. |
| `Services.Runner.ReloadCachedAction` | finecode_extension_runner/src/finecode_extension_runner/services.py:299-328 | Reloading shuts down the action's handlers and drops its entry, or stops where that raises. |
| `ServiceLeaks.AllServicesFreeIff` | finecode_extension_runner/src/finecode_extension_runner/services.py:407-422 | After a shutdown of everything no service has a user exactly when every live instance with services is in reach: its handler is cached and not marked as shut down, and no later instance has taken its place. |
| `ServiceLeaks.StepStrandsIff` | finecode_extension_runner/src/finecode_extension_runner/_services/run_action.py:1130-1194 | With every live instance in reach, a step puts one out of reach in exactly these ways: a registration over another live instance, or for a handler that is not cached or is marked as shut down; or an exit while instances are live. |
| `ServiceLeaks.RunFreesAll` | finecode_extension_runner/src/finecode_extension_runner/services.py:407-422 | In a run without such steps and without a late end of an initialisation, shutting everything down never raises and leaves no service with a user. |
| `ServiceLeaks.StrandedForGood` | finecode_extension_runner/src/finecode_extension_runner/services.py:394-422 | An instance whose place another one took, or whose handler is not cached any more, stays in its services' lists for the rest of every run, and none of these services is disposed again. |
| `ServiceLeaks.OverlapLeaks` | finecode_extension_runner/src/finecode_extension_runner/_services/run_action.py:1130-1194 | Two runs that instantiate one handler at the same time are enough for that. |
| `ServiceHistory.ListedIff` | finecode_extension_runner/src/finecode_extension_runner/services.py:299-452 | In every run, an action has a handler in its cache exactly if it was prepared for it and the action was not forgotten since, by an exit or by a reload that did not raise. |
| `ServiceHistory.StepNames` | finecode_extension_runner/src/finecode_extension_runner/_services/run_action.py:1159-1181 | A handler's cache names the attempt that started last and the one that registered its instance last. |
| `ServiceHistory.StepPrepares` | finecode_extension_runner/src/finecode_extension_runner/_services/run_action.py:1259-1263 | Every preparation makes one new, empty cache for a handler. |
| `ServiceHistory.StepStarts` | finecode_extension_runner/src/finecode_extension_runner/_services/run_action.py:1130-1162 | Every start makes one new attempt for the handler asked for; a plain function is initialised at once. |
| `ServiceHistory.StepMovesAttempt` | finecode_extension_runner/src/finecode_extension_runner/_services/run_action.py:1159-1221 | What each step makes of an attempt: its services when it registers, its phase, and its status, which only the end of its initialisation sets back. |
| `ServiceHistory.ShutdownReaches` | finecode_extension_runner/src/finecode_extension_runner/services.py:299-422 | A shutdown of everything, or a reload, that does not raise marks the current `exec_info` of each handler that it reaches, and lets go of exactly those instances in their caches whose handler was not marked before. |
| `ServiceHistory.DisposedWhenLastUserGoes` | finecode_extension_runner/src/finecode_extension_runner/services.py:394-404 | In every run, whatever the step and wherever it raises: a service is disposed exactly when its last live user goes, once, and only if it can be disposed. |
| `PartialResults.CallsAreExact` | finecode_extension_runner/src/finecode_extension_runner/partial_result_sender.py:51-63 | In every run, whenever the sender raises, each call of it hands over exactly the values scheduled since the previous call for its token, merged in order, with the last formats given; the dictionary holds what is still owed. |
| `PartialResults.RunConserves` | finecode_extension_runner/src/finecode_extension_runner/partial_result_sender.py:28-31 | For an associative update: for each token, the values sent so far merged with the pending one are all values scheduled, in order. |
| `PartialResults.SendNowCompletes` | finecode_extension_runner/src/finecode_extension_runner/partial_result_sender.py:38-44 | After an immediate send that did not raise, everything scheduled was sent and no timer is left. |
| `PartialResults.TimerSendsApart` | finecode_extension_runner/src/finecode_extension_runner/partial_result_sender.py:46-49 | Two sends of the timer are never closer than the waiting time. |
| `PartialResults.StepKeepsAliveIff` | finecode_extension_runner/src/finecode_extension_runner/partial_result_sender.py:46-49 | Pending work keeps a live timer unless the sender raises under the timer, or with more left in an immediate send; and then it has none. |
| `PartialResults.PendingHasTimer` | finecode_extension_runner/src/finecode_extension_runner/partial_result_sender.py:35-36 | With a sender that does not raise in those places, pending work always has a live timer. |
| `PartialResults.RaisingTimerSilences` | finecode_extension_runner/src/finecode_extension_runner/partial_result_sender.py:46-49 | Once the sender raised under the timer, nothing is sent until the next immediate send. |
| `PartialResults.PartialResultSender.ScheduleSending` | finecode_extension_runner/src/finecode_extension_runner/partial_result_sender.py:21-36 | Scheduling merges into the token's entry, remembers formats, and starts a timer if there is none. |
| `PartialResults.PartialResultSender.SendAll` | finecode_extension_runner/src/finecode_extension_runner/partial_result_sender.py:51-63 | The loop empties the dictionary from its youngest entry or stops where the sender raises. |
| `PartialResults.PartialResultSender.SendAllImmediately` | finecode_extension_runner/src/finecode_extension_runner/partial_result_sender.py:38-44 | It drops the timer and sends. |
| `PartialResults.PartialResultSender.WaitAndSend` | finecode_extension_runner/src/finecode_extension_runner/partial_result_sender.py:46-49 | It sends, and clears the timer only if nothing raised. |
| `PartialResults.RunIsLogged` | finecode_extension_runner/src/finecode_extension_runner/partial_result_sender.py:21-36 | In every run the log has exactly what was scheduled, in order and with its formats, the clock is the time that passed, and the timer's sends are at the times of its events. |
| `PartialResults.FiresAreApart` | finecode_extension_runner/src/finecode_extension_runner/partial_result_sender.py:46-49 | So between two sends of the timer at least the waiting time has passed. |
| `ServeState.RefreshingIffNoConnection` | extensions/fine_wal_explorer/fine_wal_explorer/serve_wal_explorer_from_store_handler.py:434-438 | For any number of threads, in every interleaving: outside `db_lock`, `refreshing` holds exactly when there is no connection. |
| `ServeState.QueriesRunOnOpenConnections` | extensions/fine_wal_explorer/fine_wal_explorer/serve_wal_explorer_from_store_handler.py:212-280 | Every query runs on an open connection, the one that is set. |
| `ServeState.ReadsAreTurnedAwayIff` | extensions/fine_wal_explorer/fine_wal_explorer/serve_wal_explorer_from_store_handler.py:271-280 | A read is turned away exactly while there is no connection. |
| `ServeState.OneIngestAtATime` | extensions/fine_wal_explorer/fine_wal_explorer/serve_wal_explorer_from_store_handler.py:347-363 | At most one ingest is in flight, and a request is refused exactly while there is one. |
| `ServeState.NeverOpenTogether` | extensions/fine_wal_explorer/fine_wal_explorer/serve_wal_explorer_from_store_handler.py:434-500 | The serving connection and the ingester's own are never open together, and at most one connection serves. |
| `ServeState.HolderCanGo` | extensions/fine_wal_explorer/fine_wal_explorer/serve_wal_explorer_from_store_handler.py:434-500 | Whoever holds `db_lock` waits for nothing, so there is no deadlock. |
| `ServeState.ServesAgainIff` | extensions/fine_wal_explorer/fine_wal_explorer/serve_wal_explorer_from_store_handler.py:497-500 | At the end of an ingest the store is served again exactly when no writer of the ingester was left. |
| `ServeState.ServeState.RequireConnection` | extensions/fine_wal_explorer/fine_wal_explorer/serve_wal_explorer_from_store_handler.py:271-280 | A connection is given exactly when there is one and no refresh is on. |
| `ServeState.ServeState.GiveUpConnection` | extensions/fine_wal_explorer/fine_wal_explorer/serve_wal_explorer_from_store_handler.py:434-438 | The first critical section marks, closes and clears. |
| `ServeState.ServeState.Reconnect` | extensions/fine_wal_explorer/fine_wal_explorer/serve_wal_explorer_from_store_handler.py:497-500 | The last one connects and unmarks, or leaves everything as it is when connecting raises. |
| `ServeState.LocalFallback` | extensions/fine_wal_explorer/fine_wal_explorer/serve_wal_explorer_from_store_handler.py:471-493 | The retry loop ends at the first attempt that is not a lock conflict, at the twentieth at the latest, with that attempt's outcome. |
| `ServeHistory.ActionDecides` | extensions/fine_wal_explorer/fine_wal_explorer/serve_wal_explorer_from_store_handler.py:442-493 | In every run: an action that succeeds or fails otherwise ends the ingest with that; one that meets a lock is tried again, until the one across the workspace and twenty local ones have met it. |
| `ServeHistory.RepliesHaveCauses` | extensions/fine_wal_explorer/fine_wal_explorer/serve_wal_explorer_from_store_handler.py:271-500 | Every reply is given for a cause within its own request: a query that ran, no connection, an ingest under way, a request that is not well-formed, an action that succeeded, or one that failed for good or could not connect again; and an ingest is reported as done only once the store is served again. |
| `ServeHistory.BadIsRefused` | extensions/fine_wal_explorer/fine_wal_explorer/serve_wal_explorer_from_store_handler.py:428-430 | A request that is not well-formed is refused before the connection is given up. |
| `ServeHistory.QueriesAreRecorded` | extensions/fine_wal_explorer/fine_wal_explorer/serve_wal_explorer_from_store_handler.py:212-280 | The queries are those that ran, each with the connection it ran on. |
| `ServeHistory.WritersAreCounted` | extensions/fine_wal_explorer/fine_wal_explorer/serve_wal_explorer_from_store_handler.py:442-493 | The ingester has as many writers as have come and not gone. |
| `MypyGate.OneRunPerProject` | extensions/fine_python_mypy/fine_python_mypy/type_check_files_handler.py:102-168 | In every interleaving of checks, with failures and cancellations at every await, at most one dmypy run per project is in flight. |
| `MypyGate.LockIsNeverContended` | extensions/fine_python_mypy/fine_python_mypy/type_check_files_handler.py:176-182 | Whoever comes to the project's lock finds it free. |
| `MypyGate.EntryRemovedByItsTask` | extensions/fine_python_mypy/fine_python_mypy/type_check_files_handler.py:166-168 | A gate entry goes only when its maker goes, its event is set then, and the deletion never fails. |
| `MypyGate.WaitingIsForSomebody` | extensions/fine_python_mypy/fine_python_mypy/type_check_files_handler.py:102-117 | A check that waits does so for an event that is set, for a check of its project that is under way, or for one that died reading file versions. |
| `MypyGate.DyingWhileReadingShutsTheGate` | extensions/fine_python_mypy/fine_python_mypy/type_check_files_handler.py:121-133 | Reading the file versions is outside the `try`: when it raises, the entry stays for the rest of the run and its event is never set. |
| `MypyGate.ShutGateStrandsTasks` | extensions/fine_python_mypy/fine_python_mypy/type_check_files_handler.py:102-107 | After that, a check of the project that misses the cache waits for that event and is never woken. |
| `MypyGate.EntryIsGoneIff` | extensions/fine_python_mypy/fine_python_mypy/type_check_files_handler.py:121-168 | When the maker of an entry is finished, the entry is still there exactly if reading the versions raised. |
| `MypyGate.DiedReadingIff` | extensions/fine_python_mypy/fine_python_mypy/type_check_files_handler.py:121-133 | In every run a check is dead exactly if reading the versions raised. |
| `MypyGate.EntryIff` | extensions/fine_python_mypy/fine_python_mypy/type_check_files_handler.py:117-168 | In every run a check has its project's entry exactly if it made one and has not come to its `finally`: an exception in dmypy, or the end of saving with or without one. |
| `MypyGate.LeavingOpensTheGate` | extensions/fine_python_mypy/fine_python_mypy/type_check_files_handler.py:135-168 | After its `finally` the project is not in the gate, the event is set and the lock is free. |
| `MypyGate.SignalledIff` | extensions/fine_python_mypy/fine_python_mypy/type_check_files_handler.py:166-168 | An event is set exactly if its check has come to its `finally`. |
| `MypyGate.PcIsLastEvents` | extensions/fine_python_mypy/fine_python_mypy/type_check_files_handler.py:85-168 | A check stands where its last event led it. |
| `MypyGate.MissWaitsIff` | extensions/fine_python_mypy/fine_python_mypy/type_check_files_handler.py:102-123 | A check that misses the cache waits exactly for the one of its project that has the entry, and makes one exactly if there is none. |
| `MypyGate.ChecksArrive` | extensions/fine_python_mypy/fine_python_mypy/type_check_files_handler.py:77-88 | The checks are those that arrived, each for its project. |
| `MypyGate.TypeChecker.EnterGate` | extensions/fine_python_mypy/fine_python_mypy/type_check_files_handler.py:102-123 | Between the cache miss and the next await a check waits exactly when another one of its project is past the gate, and otherwise makes the entry. |
| `MypyGate.TypeChecker.StartDmypy` | extensions/fine_python_mypy/fine_python_mypy/type_check_files_handler.py:176-182 | The lock is taken at once. |
| `MypyGate.TypeChecker.EndDmypy` | extensions/fine_python_mypy/fine_python_mypy/type_check_files_handler.py:182-188 | The lock is given back; a failure that is not mypy's leaves the gate. |
| `MypyGate.TypeChecker.LeaveGate` | extensions/fine_python_mypy/fine_python_mypy/type_check_files_handler.py:166-168 | The event is set and the entry deleted. |
| `Grouping.OwnerIsDeepest` | finecode_extension_api/src/finecode_extension_api/workspace_utils.py:12-14 | The owner of a file is the deepest project that the file is under. |
| `Grouping.GroupsAreOwned` | finecode_extension_api/src/finecode_extension_api/workspace_utils.py:15-34 | For each project the result has exactly its files, in input order; files under no project go nowhere; no group is empty or comes twice. |
| `Grouping.FirstIsOwner` | finecode_extension_api/src/finecode_extension_api/workspace_utils.py:20-28 | In any order that puts no project after its ancestor, the first project that a file is under is its owner. |
| `Grouping.DepthOrder` | finecode_extension_api/src/finecode_extension_api/workspace_utils.py:15-15 | Sorting by depth is such an order. |
| `Grouping.PathOrder` | extensions/fine_python_mypy/fine_python_mypy/type_check_files_handler.py:353-356 | Reverse path order is such an order too. |
| `Grouping.GroupFilesByProject` | finecode_extension_api/src/finecode_extension_api/workspace_utils.py:6-34 | Grouping by depth gives the specified groups. |
| `Grouping.GroupFilesByProjects` | extensions/fine_python_mypy/fine_python_mypy/type_check_files_handler.py:345-366 | Grouping by reverse path order gives the same groups. |
| `Worklist.ResolveWorkspacePackages` | scripts/list_dev_workspace_editables.py:75-87 | The worklist ends on every graph, cyclic ones included, and returns exactly the local packages reachable from the roots along dependencies of local packages, with their directories. |
| `Worklist.ClosedSetHasAll` | scripts/list_dev_workspace_editables.py:75-87 | A set with the roots and the dependencies of its local members has everything reachable. |
| `TestIds.SplitJoinIff` | extensions/fine_python_pytest/fine_python_pytest/run_tests_handler.py:246-246 | Parts joined with `::` split into themselves exactly when none contains the separator and none but the last ends with a colon. |
| `TestIds.JoinSplit` | extensions/fine_python_pytest/fine_python_pytest/run_tests_handler.py:286-286 | Splitting and joining gives every text back. |
| `TestIds.ParsePrintIff` | extensions/fine_python_pytest/fine_python_pytest/run_tests_handler.py:237-286 | A test id printed and parsed again comes back exactly when its path is one that is printed as it is, members that are there are not empty, a class has a test, the test's name has no bracket, a variant has a test and starts with a bracket, and the parts are clean. |
| `TestIds.PrintParseIff` | extensions/fine_python_pytest/fine_python_pytest/run_tests_handler.py:237-286 | A node id parsed and printed comes back exactly when it has at most a file, a class and a test, with names that are not empty, and its path has no empty segment and no single dot (but may be one dot). |
| `TestIds.NormalShrinks` | extensions/fine_python_pytest/fine_python_pytest/run_tests_handler.py:247-281 | The path printed is the path written exactly when it has no such segment; otherwise, unless nothing was written, it is shorter. |
| `TestIds.SplitVariantIff` | extensions/fine_python_pytest/fine_python_pytest/run_tests_handler.py:259-264 | Name and variant are told apart exactly when the name has no bracket and the variant starts with one. |
| `TestTree.BuildTree` | extensions/fine_python_pytest/fine_python_pytest/list_tests_handler.py:119-176 | The loop over the node ids builds the specified tree. |
| `TestTree.LeavesArePermutation` | extensions/fine_python_pytest/fine_python_pytest/list_tests_handler.py:119-176 | The test leaves of the tree are a permutation of the ids that a run parses from the node ids with at least two segments. |
| `TestTree.TestsAreParsed` | extensions/fine_python_pytest/fine_python_pytest/list_tests_handler.py:135-174 | The tests of each file, and of each class of it, are those parsed from its node ids, in input order. |
| `TestTree.BuiltIsValid` | extensions/fine_python_pytest/fine_python_pytest/list_tests_handler.py:124-174 | One node per file as it is written, and one per class in each; every test has the file and the class that it is listed under, and is shown by its name and variant. |
| `TestTree.SameIdIff` | extensions/fine_python_pytest/fine_python_pytest/list_tests_handler.py:127-133 | Two file nodes have one id exactly when they write one path in two ways. |
| `TestTree.FileNodesIff` | extensions/fine_python_pytest/fine_python_pytest/list_tests_handler.py:127-133 | There is a node for a file exactly when a node id starts with it. |
| `ListedIds.ListedIff` | extensions/fine_python_pytest/fine_python_pytest/list_tests_handler.py:119-176 | The ids in the tree, those of files and classes included, are exactly what the node ids contribute: each its file, its class if it has three or more segments, and its test if it has two or more. |
| `ListedIds.ListedRoundTripsIff` | presets/fine_test/fine_test/test_id.py:32-36 | Every id in the tree, printed as a node id and parsed: a file's comes back; a test's comes back exactly when its names are not empty and its path does not end with a colon; a class's never does, but without such a path is taken for a test of that name, or for the file if the name is empty. |

## Left out

- Sockets, pipes, processes, threads and event-loop internals: bytes and messages come over FIFO channels, and a scheduler chooses the next step.
- JSON text, cattrs conversion, SHA-256, fnmatch, ISO timestamps and SQL: functions with the contracts above; the event table is a map from hash to row, and the two bookkeeping tables of ingest runs are not modelled.
- What `send_request_sync` makes of the response that settles it, and the user's own notification handlers, tracing, logging and telemetry.
- Request ids that cannot be dictionary keys, invalid UTF-8 bodies, lines over the reader's limit, digits beyond what `int()` accepts, connection resets and the stop event in the readers: the readers' loops are modelled up to the end of the stream.
- The framing of the workspace manager's own protocol: `WmClient` starts from decoded messages.
- Torn lines, several writers on one directory and foreign files in it: lines are written whole, one writer at a time.
- Ingest.Store.Run: does not model the two bookkeeping tables, the warnings in the report, and errors of the database; a row's time of ingestion is left out too. In `WalStore` any of these errors is a break-off.
- WalStore.StoreHoldsEachEventOnce: the ingests have no time filter and one source; what a filter does is in `Ingest`.
- Modules forgotten by `reload_action`, the callables for shutdown and exit.
- The identity of partial results: values are merged as values, so a caller that changes a value after scheduling it is not modelled.
- HTTP routing, schema checks, the stop of the explorer while an ingest runs, and what the ingest itself inserts, which is `Ingest`.
- What a check that waited for another one reports, the cache, dmypy's command line and its output.
- Reading `pyproject.toml` files and bare names of requirements: the worklist starts from the packages found; which directories hold packages would only add easy members.
- TestIds.PrintParseIff: an absolute path in a node id is taken to lead outside of the project directory, so it stays absolute.
- Conversion between file URIs and paths: a test id's file is the text that its path prints as below the project directory.
- Parsing of pytest's collection output into node ids: a filter line by line.
