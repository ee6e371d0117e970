# A verified model of the Redis ASGI handler for IIS

The repository connects IIS to an ASGI application through Redis. An IIS module turns each HTTP
request into a message, sends it to the channel `http.request`, and streams back the responses the
application sends to the request's own reply channel. One pump thread serves all requests; WebSockets
have a reader and a writer of their own; a process pool keeps the application's workers running.

The Dafny files model that behaviour and prove properties of it over every run: any number of
requests, any interleaving of threads, any mix of synchronous and asynchronous answers from IIS,
any passing of time.

## How the files fit together

| file | what it holds |
|---|---|
| AsgiMessages.dfy, Ledger.dfy | the messages; a history of what left a queue and what became of it |
| HttpSteps.dfy | the five HTTP steps and the driver as functions on one request |
| HttpRequestHandler.dfy | the same as a class updated in place, proved to do what HttpSteps says |
| Connections.dfy | one request's invariant and the trace it must follow; every driver call keeps them |
| Protocol.dfy | the server as a transition system over plain FIFO channels; the invariant |
| ProtocolInvariant.dfy | the invariant holds after every schedule |
| Delivery.dfy | what follows: streaming, conservation, one-shot delivery, trace shape |
| Arrivals.dfy | from the request that arrived to the message the application is sent, field by field |
| Completions.dfy | what IIS reports of writes it accepted, and when a response is lost unnoticed |
| Refusals.dfy | refused calls and failed reads; what has finished stays finished; what IIS reports is recorded |
| Progress.dfy | how far each step brings a request, and a bound on the steps taken for it in any schedule |
| ResponsePump.dfy | the pump's callback table and loop body as a class |
| Redis.dfy, ChannelLayer.dfy, RedisChannelLayer.dfy | Redis commands, random names, Send and ReceiveMany |
| ChannelRuns.dfy | timed runs of the channel layer: expiry safety and FIFO order |
| ProtocolOverRedis.dfy | the server on the two-level Redis storage simulates the server on FIFO channels |
| RedisDelivery.dfy | the server's run as a run of the channel layer: exactly what is lost, and what clients receive |
| ProgressOverRedis.dfy | no lost wake-up on the channel layer: exactly when a request can be brought to its end |
| LossesOverRedis.dfy | runs, action by action, in which a message expires, a request hangs, a response is lost |
| MessagePack.dfy, AsgiPacking.dfy | the encoding, an independent decoder, and the message packers |
| WsReader.dfy, WsWriter.dfy | the WebSocket reader and writer |
| CommandLine.dfy | argument quoting and the C runtime's rules for reading a command line |
| ScopedResources.dfy, ProcessPool.dfy | move-only handles and the pool's supervisor loop |

Where the source updates an object in place there is a class whose methods are proved to take its
state from one value to the next as a function says (RequestHandler, Layer, Pump, Supervisor,
ScopedHandle, WsReader, WsWriter, Packer); the theorems are about those functions.

## What the environment is taken to do

- Random names are fresh: a new data key is not in the store and a new reply channel is not in use.
- Each `Send`, and each `BLPOP` with the `GET` that follows it, is one step. The pump's snapshot, pop
  and dispatch are three separate steps, with any other thread in between.
- IIS delivers the completion of an operation that it left pending, after the notification returned
  pending. Its answers are an arbitrary function from call number to failure, synchronous or
  asynchronous success, and it may report failure for an operation it left pending.
- The entity is delimited by Content-Length: IIS knows how many bytes remain, and a successful read
  hands over at least one byte and no more than asked for. A read that fails hands over none.
- A successful `WriteEntityChunks` takes the whole chunk.
- A socket write that succeeds accepts between one byte and all it was offered, and none only for an
  empty message. A socket runs out of fragments at hand at some point, so that a read waits.
- Process and thread handles are new when they are handed out; `WaitForMultipleObjects` takes at most
  64 handles, fails otherwise, and returns the lowest signalled index.
- Channel names contain a dot. All names the module uses do: the request channel and the prefixes of
  the reply channels.

## Where the code falls short of its own documentation

Where the code does not do what it is for, the property is given with its exact condition, so that both
the good and the bad inputs are known; the last three items are facts about single branches.

- The empty argument is escaped to nothing, without quotes: a list of arguments survives exactly when
  none of them is empty (`CommandLineRoundTrip`).
- The pool puts the escaped process name where the C runtime reads the program name, whose rule knows
  no backslash escapes: the name survives there exactly when it has no quote and, if it had to be
  quoted, does not end in a backslash (`ProgramNameRoundTrip`).
- A process handle that is erased from the middle of the list is overwritten and never closed; it is
  closed exactly when it was the last one (`Erase`).
- `root_path` is a field of the request message but is not packed: a request comes back whole exactly
  when it is empty (`RequestRoundTrip`).
- The WebSocket reader offers its whole buffer for each fragment. The data size is within the buffer in
  every run with fragments of at most n bytes exactly when n is at most 1025 (`FragmentBoundIsExact`).
- The WebSocket writer starts every write at the start of the message. A message reaches the wire as it
  is in every run exactly when all its bytes are equal (`FaithfulExactly`).
- The write and flush steps do not look at the status of an asynchronous completion. A request whose
  final write fails after IIS accepted it ends as if nothing had happened (`FailedWriteIsSilent`, with
  runs in `LostResponse` and `LostResponseOverRedis`). Once a request has ended, IIS has confirmed all bytes of its response exactly
  when no write was reported as failed (`ConfirmedExactly`), and a confirmed write is at its place in the
  client's stream exactly when none before it failed (`ConfirmedInPlace`).
- A read, write or flush that IIS refuses ends the request where it is, and no error is sent: the client
  has got exactly what was written before (`RefusedExactly`, `RefusedLeavesNothing`).
- A message that has expired is lost. Without removed channels nothing else is: nothing of a channel is
  lost exactly when everything that left its queue left in time (`LosslessExactly`). A message that
  nobody receives is lost to the next send after more than 70 seconds, and not before
  (`LeftLyingExactly`). Whatever was lost, the client gets the response that the messages received
  alive spell out (`PassedOverRedis`).
- A request whose final message expires hangs: `ReceiveMany` discards the dead message and nobody is
  told. In a run without removed channels, a request that IIS refuses nothing can be brought to its end
  by the server's own actions exactly when a message without more content has been passed on to it or is
  stored for it alive (`CanEndExactly`; `LateIsHopeless`, with a run in
  `HangingRequest` and `AnsweredInTimeExactly`).
- With 64 or more processes listed, every wait fails and the supervisor never ends, whether or not it
  is told to (`OversizedNeverEnds`, with a run from the empty list in `FilledNeverEnds`); whether a round ends the loop is settled by `EndsExactly`.
- `ReceiveMany` asks for one empty key per channel besides the prefixed ones. They are kept in the model
  and can never be picked (`PickedKey`).
- The last character of the random alphabet is never drawn (`RandomNamesAreNoChannels`).

## Model

| member | source | states |
|---|---|---|
| HttpSteps.NextStep | AsgiHandlerLib/HttpRequestHandlerSteps.cpp:71-273 | the next step comes later in the order in which one driver call can run through the steps, unless it is the waiting step, where the driver always pauses |
| HttpSteps.ReadEntity | AsgiHandlerLib/HttpRequestHandlerSteps.cpp:16-52 | the reading loop ends for every sequence of answers, never itself asks to be re-run, makes at most one IIS call per unread byte and touches no registration |
| HttpSteps.DriveCalls | AsgiHandlerLib/RequestHandler.cpp:71-102 | the driver, whose loop has no bound of its own, ends for every mix of synchronous and asynchronous answers, within one IIS call per unread byte, or else one write and one flush |
| HttpRequestHandler.RequestHandler.constructor | AsgiHandlerLib/HttpRequestHandler.cpp:15-26 | the first step holds the request with an empty root path and a zeroed buffer as large as the entity; it is the handler from which the protocol accepts a request |
| HttpRequestHandler.RequestHandler.CompleteStep | AsgiHandlerLib/HttpRequestHandlerSteps.cpp:54-266 | each step's completion changes the handler as the step functions say, including the failed read and the missing response |
| HttpRequestHandler.RequestHandler.EnterReadBody | AsgiHandlerLib/HttpRequestHandlerSteps.cpp:16-52 | the in-place reading loop does what the recursive reading function does, for all answers from IIS |
| HttpRequestHandler.RequestHandler.EnterCall | AsgiHandlerLib/HttpRequestHandlerSteps.cpp:167-200 | the write loop, and the flush loop which has the same form, make exactly one IIS call; a refused one finishes the request, and is neither on its trace nor among the reported calls |
| HttpRequestHandler.RequestHandler.EnterStep | AsgiHandlerLib/HttpRequestHandlerSteps.cpp:79-123 | entering each of the five steps, with the callback registered by the waiting step |
| HttpRequestHandler.RequestHandler.HandlerStateMachine | AsgiHandlerLib/RequestHandler.cpp:71-102 | the driver's loop terminates and leaves the request as the recursive driver does |
| HttpRequestHandler.RequestHandler.Start | AsgiHandlerLib/HttpRequestHandler.cpp:28-33 | the first driver call of a request |
| HttpRequestHandler.RequestHandler.OnCompletion | AsgiHandlerLib/HttpRequestHandler.cpp:35-45 | re-entry on a completion |
| HttpRequestHandler.ReadEntityRound | AsgiHandlerLib/HttpRequestHandlerSteps.cpp:38-48 | one synchronous round of the reading loop shrinks what remains, and goes on exactly when something does |
| Connections.ChunkKeepsReading | AsgiHandlerLib/HttpRequestHandlerSteps.cpp:28-31 | a read lies inside the unread part of the buffer, and afterwards what was read is an exact copy of the start of the entity |
| Connections.ReadingEnds | AsgiHandlerLib/HttpRequestHandlerSteps.cpp:71-76 | when nothing remains, the message handed to the next step holds the whole entity |
| Connections.ReadLoop | AsgiHandlerLib/HttpRequestHandlerSteps.cpp:16-52 | from any point between two reads and for all answers, the driver call re-establishes the request's invariant |
| Connections.AfterRead | AsgiHandlerLib/HttpRequestHandlerSteps.cpp:54-69 | so does the completion of an asynchronous read whose data has arrived |
| Connections.AfterFailedRead | AsgiHandlerLib/HttpRequestHandlerSteps.cpp:56-59 | the completion of a read that failed ends the request, with nothing but the failure on its trace |
| Connections.AfterSend | AsgiHandlerLib/HttpRequestHandlerSteps.cpp:95-107 | the completion after the request was sent leaves the request waiting, registered under its own channel |
| Connections.AfterWait | AsgiHandlerLib/HttpRequestHandlerSteps.cpp:125-164 | the completion that brings a response applies it and goes on to write, flush or finish, for each combination of content and more_content |
| Connections.EnterWrite | AsgiHandlerLib/HttpRequestHandlerSteps.cpp:167-200 | a write that fails, pauses or goes on at once keeps the invariant and follows the script; a refused one finishes the request there, unwritten and unreported |
| Connections.AfterWrite | AsgiHandlerLib/HttpRequestHandlerSteps.cpp:202-229 | after a write the request flushes if more is to come and finishes otherwise; the exception is not reached |
| Connections.EnterFlush | AsgiHandlerLib/HttpRequestHandlerSteps.cpp:231-259 | a flush that fails, pauses or goes on at once keeps the invariant and follows the script; a refused one finishes the request there |
| Connections.AfterFlush | AsgiHandlerLib/HttpRequestHandlerSteps.cpp:261-273 | after a flush the request waits again, registered for exactly one message |
| Connections.ScriptWrites | AsgiHandlerLib/HttpRequestHandlerSteps.cpp:110-273 | the script of a list of responses writes exactly their contents, in order |
| ProtocolInvariant.SendTaskKeeps | AsgiHandlerLib/HttpRequestHandlerSteps.cpp:82-90 | the send task always finds its message, untouched, and runs once |
| ProtocolInvariant.CallbackKeeps | AsgiHandlerLib/HttpRequestHandlerSteps.cpp:112-120 | a callback task always finds its waiting step, and a response as its data |
| ProtocolInvariant.DispatchKeeps | AsgiHandlerLib/ResponsePump.cpp:73-83 | turning a registered callback into a task keeps the invariant: the held message joins the request's tasks and the registration is gone |
| ProtocolInvariant.DropKeeps | AsgiHandlerLib/ResponsePump.cpp:84-86 | dropping the held message keeps the invariant and the balance of the ledger |
| ProtocolInvariant.InvAlways | AsgiHandlerLib/ResponsePump.cpp:45-96 | the invariant holds after every schedule of arrivals, sends, pump steps, tasks, completions and removed channels; its part about registrations after every schedule that removes no channel |
| Delivery.StreamingInOrder | AsgiHandlerLib/HttpRequestHandlerSteps.cpp:110-273 | in every schedule a request applies an initial part of what was passed on from its own channel, in order, and the bytes handed to IIS are an initial part of their contents, all of them once the request has ended without a refused call |
| Delivery.StreamingPassed | AsgiHandlerLib/HttpRequestHandlerSteps.cpp:110-273 | in every schedule, whatever was lost, the bytes handed to IIS are an initial part of the messages passed on to the request up to the first without more_content, and equal it at the end |
| Delivery.StreamingComplete | AsgiHandlerLib/HttpRequestHandlerSteps.cpp:110-273 | if nothing sent to the channel was lost, the bytes handed to IIS are an initial part of everything sent up to the first message without more_content, and equal it at the end |
| Delivery.OneContinuation | AsgiHandlerLib/HttpRequestHandlerSteps.cpp:71-164 | no request dereferences a message it gave away, completes without its response or throws; at most one continuation, none once finished, exactly one while pending in every run in which no channel is removed |
| Delivery.SnapshotStaysRegistered | AsgiHandlerLib/ResponsePump.cpp:50-88 | in every run in which no channel is removed, the snapshot and the held channel stay registered until dispatch, so the dropping branch is unreachable |
| Delivery.OneMessagePerRegistration | AsgiHandlerLib/ResponsePump.cpp:32-37 | each registration brings at most one message, and in every run in which no channel is removed exactly one or is still outstanding |
| Delivery.RegistrationEnds | AsgiHandlerLib/ResponsePump.cpp:32-83 | from every state, a registration ends exactly by the dispatch of its own channel's message or the removal of its own channel |
| Delivery.Conservation | AsgiHandlerLib/ResponsePump.cpp:39-88 | every message ever sent to a reply channel has, in order, one recorded fate or is still queued; those passed on are applied, stored, in a task or held |
| Delivery.LossesHaveCauses | AsgiHandlerLib/ResponsePump.cpp:73-87 | a step counts a message as dropped exactly when it dispatches one whose channel has no callback, and as expired exactly when the storage finds it so |
| Delivery.NothingDropped | AsgiHandlerLib/ResponsePump.cpp:73-87 | in every run in which no channel is removed no message is dropped, and a channel has lost something exactly if something of it expired |
| Delivery.RequestSentOnce | AsgiHandlerLib/HttpRequestHandlerSteps.cpp:79-93 | the application receives each request exactly once, with the whole entity, and not before its send task |
| Arrivals.OneArrival | AsgiHandlerLib/HttpRequestHandler.cpp:15-24 | a reply channel is created by one arrival only |
| Arrivals.RequestComesThrough | AsgiHandlerLib/HttpRequestHandler.cpp:15-26 | in every schedule, what is sent to http.request on behalf of a request is at most one message, with the version, method, scheme, path, query string and headers that arrived, its own reply channel, no root path and the entity as body |
| Delivery.BodyReassembled | AsgiHandlerLib/HttpRequestHandlerSteps.cpp:16-76 | between reads, bytes read and bytes remaining add up to the buffer, which holds the start of the entity; the chunks lie end to end |
| Delivery.WrittenFollowsApplied | AsgiHandlerLib/HttpRequestHandlerSteps.cpp:167-218 | bytes handed to IIS never run ahead of the applied responses; when the request has ended all were handed over and the last response was final |
| Delivery.TraceFollowsScript | AsgiHandlerLib/HttpRequestHandlerSteps.cpp:71-274 | every request sends, waits, then per response applies, writes its content if any, and flushes and waits again if more is to come; a request that ended without a refused call has done all of it |
| Completions.ConfirmedExactly | AsgiHandlerLib/HttpRequestHandlerSteps.cpp:167-218 | in every schedule, while no write was reported as failed, the bytes IIS confirmed are an initial part of the applied contents; at the end they are all of them exactly when none failed |
| Completions.ConfirmedInPlace | AsgiHandlerLib/HttpRequestHandlerSteps.cpp:202-266 | as many bytes are confirmed before a write as were written before it exactly when no write before it failed |
| Completions.ConfirmedResponse | AsgiHandlerLib/HttpRequestHandlerSteps.cpp:110-273 | if nothing of the channel was lost, the same with the response that was sent to the channel |
| Completions.ConfirmedPassed | AsgiHandlerLib/HttpRequestHandlerSteps.cpp:110-273 | whatever was lost, the same with the response that the messages passed on spell out |
| Completions.SucceededIsConfirmed | AsgiHandlerLib/HttpRequestHandlerSteps.cpp:167-266 | a request that ended and had no failure reported has all its bytes confirmed |
| Completions.FailedWriteIsSilent | AsgiHandlerLib/HttpRequestHandlerSteps.cpp:202-218 | from every state in which the final write is pending, a failed completion ends the request as if nothing had happened, with bytes unconfirmed |
| Completions.LostResponse | AsgiHandlerLib/HttpRequestHandlerSteps.cpp:202-218 | a concrete schedule that ends this way |
| Completions.TalliedAlways | AsgiHandlerLib/HttpRequestHandlerSteps.cpp:167-266 | in every schedule each write and flush is reported once, in order, but for the one in flight |
| Refusals.RefusedExactly | AsgiHandlerLib/HttpRequestHandlerSteps.cpp:183-187 | in every schedule, if IIS refused any call of a request it was the last one, the request has finished and its trace ends there; once sent, a request has a failure on its trace exactly if a call was refused, and one that ended was refused nothing |
| Refusals.RefusedLeavesNothing | AsgiHandlerLib/HttpRequestHandlerSteps.cpp:183-246 | a refused read is never followed by a message to the application; a refused write is neither among the bytes handed over nor among the reported calls, and all earlier ones are; a refused flush comes after exactly the response it was to flush |
| Refusals.FailedReadEnds | AsgiHandlerLib/HttpRequestHandlerSteps.cpp:54-59 | a read reported as failed ends the request, and in no continuation does the application hear of it |
| Refusals.FinishedForGood | AsgiHandlerLib/RequestHandler.cpp:71-102 | in every schedule and every continuation, a finished request stays exactly as it is |
| Refusals.ReportsAreRecorded | AsgiHandlerLib/HttpRequestHandlerSteps.cpp:202-266 | what IIS reports of a pending write or flush is recorded as reported, followed only by calls done at once |
| Progress.StepsAreBounded | AsgiHandlerLib/RequestHandler.cpp:71-102 | in every schedule, with any failures and removed channels, the steps taken for a request are at most a number that depends on what was sent to it, as long as nothing new is sent |
| ResponsePump.Pump.AddChannel | AsgiHandlerLib/ResponsePump.cpp:32-37 | one callback per channel, the newest |
| ResponsePump.Pump.RemoveChannel | AsgiHandlerLib/ResponsePump.cpp:39-43 | the channel's callback is gone, the others stay |
| ResponsePump.Pump.Snapshot | AsgiHandlerLib/ResponsePump.cpp:51-58 | the registered channels, each exactly once; the same set as the protocol's snapshot step takes |
| ResponsePump.Pump.Dispatch | AsgiHandlerLib/ResponsePump.cpp:73-86 | the callback leaves the table and becomes one task with the message, or nothing changes; table and tasks end up as in the protocol's dispatch step |
| ResponsePump.Pump.Round | AsgiHandlerLib/ResponsePump.cpp:50-94 | an undisturbed round takes the oldest live message of some registered channel to that channel's callback and does not sleep, or touches no callback; the store sees one receive on the registered channels; the long delay exactly when nothing is registered |
| ChannelLayer.DrawableCharacters | AsgiHandlerLib/ChannelLayer.h:34-37 | the drawable characters are exactly those of the source's indexing, which leaves out the last one |
| ChannelLayer.RandomNamesAreNoChannels | AsgiHandlerLib/ChannelLayer.h:32-39 | no random name contains a dot, or the last letter |
| ChannelLayer.RandomEngine.GenerateRandomAscii | AsgiHandlerLib/ChannelLayer.h:32-39 | each position holds the character its own draw selects |
| ChannelLayer.RandomEngine.NewChannel | AsgiHandlerLib/ChannelLayer.h:19-22 | the prefix followed by a random name of ten characters |
| ChannelLayer.RandomEngine.Shuffle | AsgiHandlerLib/RedisChannelLayer.cpp:59-60 | a rearrangement, the one that the draws select |
| ChannelLayer.EveryOrderIsDrawn | AsgiHandlerLib/RedisChannelLayer.cpp:59-60 | every rearrangement is the outcome of some draws, so no channel is starved by its place |
| RedisChannelLayer.KeySpacesAreDisjoint | AsgiHandlerLib/RedisChannelLayer.cpp:40-47 | no key is both a data key and a channel key, and neither is empty |
| RedisChannelLayer.AskedFor | AsgiHandlerLib/RedisChannelLayer.cpp:54-60 | whatever the shuffle, twice as many keys as channels are asked for: as many empty ones as channels, and each channel's key as often as it was requested |
| RedisChannelLayer.SendCommands | AsgiHandlerLib/RedisChannelLayer.cpp:36-50 | the four commands of a send never meet a key of the wrong kind; their joint effect, with the payload living 60 seconds and the list 70 |
| RedisChannelLayer.SendAppends | AsgiHandlerLib/RedisChannelLayer.cpp:36-50 | a send appends to its channel's queue, afresh if the list had expired, leaves all other queues alone and keeps the store well formed |
| RedisChannelLayer.PickedKey | AsgiHandlerLib/RedisChannelLayer.cpp:54-82 | whatever the shuffle, the key that answers belongs to a requested channel, never one of the extra empty keys |
| RedisChannelLayer.ReceiveTakesHead | AsgiHandlerLib/RedisChannelLayer.cpp:52-98 | a receive returns the head of a requested channel's queue under the channel's exact name, or discards that head if it is dead, or finds nothing to be seen |
| RedisChannelLayer.QueuesAreSorted | AsgiHandlerLib/RedisChannelLayer.cpp:42-49 | queues are in order of deadline, at most one time to live ahead, and passing time changes none |
| RedisChannelLayer.Layer.Send | AsgiHandlerLib/RedisChannelLayer.cpp:36-50 | the command sequence takes the store to the specified one, with a random data key |
| RedisChannelLayer.Layer.ReceiveMany | AsgiHandlerLib/RedisChannelLayer.cpp:52-98 | the keys asked for are a shuffle of the empty and the prefixed ones; store and answer are the specified ones |
| Redis.Server.ExecuteBLPop | AsgiHandlerLib/RedisChannelLayer.cpp:74-82 | the first listed key that exists decides; its head is removed and nothing else changes |
| Redis.FirstListedAnswers | AsgiHandlerLib/RedisChannelLayer.cpp:62-82 | the keys are tried as listed: the first with a live list answers, with the head of that list |
| ChannelRuns.InvisibleIsDead | AsgiHandlerLib/RedisChannelLayer.cpp:44-49 | a list that has expired references only payloads dead for longer than the extra time |
| ChannelRuns.InvAlways | AsgiHandlerLib/RedisChannelLayer.cpp:36-98 | over every timed run of sends, receives and ticks the store is well formed and each channel's ledger balances |
| ChannelRuns.ExpirySafety | AsgiHandlerLib/RedisChannelLayer.cpp:40-93 | no list expires while it references a live payload; expired entries form a prefix; what left is recorded as expired exactly if it left after its deadline |
| ChannelRuns.ReceiveIsFifo | AsgiHandlerLib/RedisChannelLayer.cpp:74-97 | with a live message waiting, a receive takes exactly one head, alive or dead, and no other queue changes |
| ProtocolOverRedis.ReceiveStep | AsgiHandlerLib/RedisChannelLayer.cpp:52-98 | a receive on the real storage is a pop of the FIFO protocol |
| ProtocolOverRedis.PutStep | AsgiHandlerLib/RedisChannelLayer.cpp:36-50 | a send on the real storage is an append of the FIFO protocol |
| ProtocolOverRedis.Simulation | AsgiHandlerLib/RedisChannelLayer.cpp:36-98 | every run on the two-level storage is a run of the protocol on FIFO channels, with the same requests, callbacks and records |
| RedisDelivery.ServerRunsLayer | AsgiHandlerLib/RedisChannelLayer.cpp:36-98 | every run of the server is, for the store, a timed run of the channel layer, with the same messages expired |
| RedisDelivery.ServerExpirySafety | AsgiHandlerLib/RedisChannelLayer.cpp:40-93 | in every run of the server a message is recorded as expired exactly if it left its queue after its deadline, and no live message is out of sight |
| RedisDelivery.RegisteredOverRedis | AsgiHandlerLib/ResponsePump.cpp:50-88 | in every run without removed channels, of any length, a pending request has exactly one continuation and the pump never holds a message without a callback |
| RedisDelivery.LosslessExactly | AsgiHandlerLib/RedisChannelLayer.cpp:86-93 | in such runs nothing of a channel is lost exactly if everything that left its queue left in time |
| RedisDelivery.TimelyLosesNothing | AsgiHandlerLib/RedisChannelLayer.cpp:86-93 | in such runs nothing of a channel is lost if no message of it is ever left lying past its deadline |
| RedisDelivery.StreamingOverRedis | AsgiHandlerLib/HttpRequestHandlerSteps.cpp:110-273 | streaming in order, as handed to IIS and as confirmed, on the real storage, in every run |
| RedisDelivery.StreamingOverRedisComplete | AsgiHandlerLib/HttpRequestHandlerSteps.cpp:110-273 | complete streaming, on the real storage, whenever nothing of the channel was lost |
| RedisDelivery.TimelyStreams | AsgiHandlerLib/HttpRequestHandlerSteps.cpp:110-273 | complete streaming in runs of any length without removed channels, if messages are received within their time to live |
| RedisDelivery.PassedOverRedis | AsgiHandlerLib/HttpRequestHandlerSteps.cpp:110-273 | on the real storage, in every run and whatever expired, the client gets the response that the messages received alive spell out, up to the first without more_content |
| RedisDelivery.ExpiredAreLate | AsgiHandlerLib/RedisChannelLayer.cpp:86-93 | in every run of the server as many messages are recorded as expired as left their queue after their deadline |
| RedisDelivery.DropsHaveCauses | AsgiHandlerLib/ResponsePump.cpp:73-87 | in every run of the server an action drops a message exactly if it dispatches one whose channel has no callback |
| ProgressOverRedis.HeadIsTaken | AsgiHandlerLib/ResponsePump.cpp:50-88 | in every run, while a request is registered and its list is visible, the server's own actions can take the head of its queue: a live one is applied, a dead one discarded with the request still registered |
| ProgressOverRedis.EndNeedsFinal | AsgiHandlerLib/RedisChannelLayer.cpp:86-93 | in every run and every continuation without new sends to it, a request ends only if a message without more_content had been passed on before or was stored alive |
| ProgressOverRedis.LateIsHopeless | AsgiHandlerLib/RedisChannelLayer.cpp:86-93 | once more than 60 seconds pass with nothing final passed on, a request never ends in any continuation without new sends to it, although the protocol on FIFO channels has seen no step |
| ProgressOverRedis.FinalIsKept | AsgiHandlerLib/ResponsePump.cpp:50-88 | in runs without removed channels the server's own actions never lose the final message that has been passed on or is stored alive |
| ProgressOverRedis.CanFinish | AsgiHandlerLib/RequestHandler.cpp:71-102 | from every run without removed channels, with a final message passed on or stored alive, the server's own actions can finish the request, whatever else of its channel was lost and whatever IIS refuses; a request that was refused nothing stays one |
| ProgressOverRedis.CanEndExactly | AsgiHandlerLib/HttpRequestHandlerSteps.cpp:110-273 | in such runs a request that IIS refuses nothing can be brought to its end by the server's own actions exactly if a message without more_content has been passed on or is stored alive |
| ProgressOverRedis.ServerStepsAreBounded | AsgiHandlerLib/RequestHandler.cpp:71-102 | in every continuation of every run on the real storage without new sends to a request, the steps taken for it are bounded by the work there was |
| LossesOverRedis.LeftLyingExactly | AsgiHandlerLib/RedisChannelLayer.cpp:36-50 | of two messages sent to a channel and not received, the first is lost exactly if more than 70 seconds lie between the sends |
| LossesOverRedis.HangingRequest | AsgiHandlerLib/RedisChannelLayer.cpp:86-93 | a concrete run in which a request is answered, nothing is on record as lost, and in every continuation without a new answer the request never ends |
| LossesOverRedis.AnsweredInTimeExactly | AsgiHandlerLib/RedisChannelLayer.cpp:86-93 | the same request, with its answer left lying for any number of seconds, can be brought to its end exactly if they are at most 60 |
| LossesOverRedis.LostResponseOverRedis | AsgiHandlerLib/HttpRequestHandlerSteps.cpp:202-218 | a concrete run on the real storage in which the answer is received in time, its write fails, and the request ends as if nothing had happened |
| MessagePack.DecodeEncode | AsgiHandlerLib/AsgiMsg.h:14-25 | for every encodable value, decoding its bytes followed by anything gives the value and exactly what followed |
| MessagePack.EncodeIsShortest | AsgiHandlerLib/AsgiMsg.h:14-25 | no shorter sequence of bytes is decoded as the same value |
| MessagePack.IntRoundTrip | AsgiHandlerLib/AsgiWsReceiveMsg.h:45-46 | every 32-bit integer is read back from its shortest form |
| MessagePack.Packer.PackString | AsgiHandlerLib/AsgiMsg.h:14-18 | appends the text form: length, then bytes |
| MessagePack.Packer.PackByteString | AsgiHandlerLib/AsgiMsg.h:20-25 | appends the binary form |
| AsgiPacking.PackHeaders | AsgiHandlerLib/AsgiHttpRequestMsg.h:47-52 | the loop appends an array of as many pairs as it declared, in order, each of two binary strings |
| AsgiPacking.PackRequest | AsgiHandlerLib/AsgiHttpRequestMsg.h:24-57 | the packer appends exactly the encoding of the request's map of eight entries |
| AsgiPacking.PackConnect | AsgiHandlerLib/AsgiWsConnectMsg.h:22-47 | the packer appends exactly the encoding of the connect message's map of seven entries |
| AsgiPacking.PackReceive | AsgiHandlerLib/AsgiWsReceiveMsg.h:34-52 | the packer appends exactly the encoding of the receive message's map of four entries |
| AsgiPacking.RequestRoundTrip | AsgiHandlerLib/AsgiHttpRequestMsg.h:24-57 | a packed request, followed by anything, decodes to its fields, kinds and header pairs and leaves exactly what followed; its map has exactly the eight entries, in the source's order; it comes back whole exactly when its root path is empty |
| AsgiPacking.ConnectRoundTrip | AsgiHandlerLib/AsgiWsConnectMsg.h:22-47 | a packed connect message comes back whole, with order 0, from a map of exactly seven entries in the source's order |
| AsgiPacking.ReceiveRoundTrip | AsgiHandlerLib/AsgiWsReceiveMsg.h:34-52 | a packed receive message comes back with the first data_size bytes of its buffer and no more, from a map of exactly four entries in the source's order |
| AsgiPacking.RequestKeys | AsgiHandlerLib/AsgiHttpRequestMsg.h:26-56 | in the decoded request exactly the eight keys are found, and root_path is not |
| AsgiPacking.ConnectKeys | AsgiHandlerLib/AsgiWsConnectMsg.h:22-47 | in the decoded connect message exactly the seven keys are found |
| AsgiPacking.ReceiveKeys | AsgiHandlerLib/AsgiWsReceiveMsg.h:34-52 | in the decoded receive message exactly the four keys are found |
| AsgiPacking.PackedRequestsDiffer | AsgiHandlerLib/AsgiHttpRequestMsg.h:24-57 | two requests have the same bytes exactly when they agree up to the root path |
| WsReader.MessagesPartition | AsgiHandlerLib/WsReader.cpp:78-87 | the reference: messages are the fragments, in order, cut after each final one |
| WsReader.ReceiveNumbering | AsgiHandlerLib/WsReader.cpp:65-102 | the n-th receive message has order n, as far as a 32-bit counter can show it, and the length of the n-th message; what is held is the length of the rest |
| WsReader.BufferSizes | AsgiHandlerLib/WsReader.cpp:82-100 | the buffer always is a positive multiple of 4096 |
| WsReader.GrowsByAChunk | AsgiHandlerLib/WsReader.cpp:82-100 | each fragment leaves the buffer as it is or makes it 4096 bytes larger, exactly when at most 1024 bytes are left; a message goes out with the buffer its last fragment found, and the next starts with 4096 |
| WsReader.SmallestBuffer | AsgiHandlerLib/WsReader.cpp:82-86 | as long as no fragment exceeds 4096 bytes, the buffer is the smallest multiple of 4096 that leaves more than 1024 bytes free |
| WsReader.FittingFragments | AsgiHandlerLib/WsReader.cpp:75-86 | if each fragment fits the unused part of the buffer, no message exceeds its buffer |
| WsReader.FragmentBoundIsExact | AsgiHandlerLib/WsReader.cpp:36-88 | fragments of at most n bytes keep every message within its buffer exactly when n is at most one more than the growth threshold, which is less than what is offered |
| WsReader.OverlongMessage | AsgiHandlerLib/WsReader.cpp:75-86 | four fragments, one byte longer than the bound, that do not fit |
| WsReader.WsReader.ReadAsync | AsgiHandlerLib/WsReader.cpp:36-62 | the loop takes every fragment at hand, in order |
| WsReader.WsReader.ReadAsyncComplete | AsgiHandlerLib/WsReader.cpp:65-88 | one fragment is accounted for, and the message sent or the buffer grown |
| WsReader.WsReader.SendToApplication | AsgiHandlerLib/WsReader.cpp:91-102 | the message goes out with its order and size, and the reader starts afresh |
| WsReader.WsReader.ReadCallback | AsgiHandlerLib/WsReader.cpp:105-110 | a fragment through the callback, then every one at hand |
| WsReader.Connection | AsgiHandlerLib/WsReader.cpp:22-110 | what is sent depends on the fragments only, not on which of them came at once, and is numbered and sized message by message |
| WsWriter.WritesAccounted | AsgiHandlerLib/WsWriter.cpp:39-124 | in every run exactly one callback or one write is outstanding, a write is offered exactly what is left, and the log is a list of episodes: one registration, one message, writes that add up to exactly its length |
| WsWriter.WriteKeeps | AsgiHandlerLib/WsWriter.cpp:56-87 | the write loop ends, for all answers, waiting for one completion or registered for the next message |
| WsWriter.FaithfulExactly | AsgiHandlerLib/WsWriter.cpp:63-69 | a message reaches the wire as it is in every run exactly when all its bytes are equal |
| WsWriter.WsWriter.RegisterChannelsCallback | AsgiHandlerLib/WsWriter.cpp:39-54 | one more registration |
| WsWriter.WsWriter.WriteAsync | AsgiHandlerLib/WsWriter.cpp:56-87 | the in-place loop does what the recursive write does, for all answers from the socket |
| WsWriter.WsWriter.WriteAsyncComplete | AsgiHandlerLib/WsWriter.cpp:90-114 | the accepted bytes are counted; after the last one the message is given up and the channel registered again |
| WsWriter.WsWriter.OnMessage | AsgiHandlerLib/WsWriter.cpp:43-53 | the registered callback stores the message and writes |
| WsWriter.WsWriter.WriteCallback | AsgiHandlerLib/WsWriter.cpp:117-124 | a completion continues the message if there is more of it |
| WsWriter.Connection | AsgiHandlerLib/WsWriter.cpp:26-124 | a whole connection leaves the log of the specified run |
| CommandLine.EscapeArgument | ProcessPoolLib/ProcessPool.cpp:141-183 | the backslash-counting loop writes the recursively specified quoted form |
| CommandLine.QuotedExactly | ProcessPoolLib/ProcessPool.cpp:146-183 | an argument is left as it is exactly if it has none of blank, tab, newline, vertical tab and quote; any other is put between quotes |
| CommandLine.EscapedArgumentIsReadBack | ProcessPoolLib/ProcessPool.cpp:141-183 | the parser reads any escaped argument back and stops exactly where it ends |
| CommandLine.EscapeRoundTrip | ProcessPoolLib/ProcessPool.cpp:141-183 | parsing an escaped non-empty argument, a space and a tail gives the argument followed by the parse of the tail |
| CommandLine.EscapeIsInjective | ProcessPoolLib/ProcessPool.cpp:141-183 | different arguments have different escaped forms |
| CommandLine.JoinedArgumentsParse | ProcessPoolLib/ProcessPool.cpp:148-150 | what survives a command line is exactly the non-empty arguments, in order |
| CommandLine.CommandLineRoundTrip | ProcessPoolLib/ProcessPool.cpp:148-150 | a list of arguments survives exactly when none is empty |
| CommandLine.PoolCommandLineParses | ProcessPoolLib/ProcessPool.cpp:21-22 | by the rule for ordinary arguments, the pool's command line is the process name, if any, and then the given arguments |
| CommandLine.ProgramNameRoundTrip | ProcessPoolLib/ProcessPool.cpp:21-22 | by the rule for program names, the name survives exactly when it has no quote and, if quoted, no final backslash |
| ScopedResources.ScopedHandle.Set | SharedUtils/ScopedResources.h:45 | overwrites, without closing what was held |
| ScopedResources.ScopedHandle.Transfer | SharedUtils/ScopedResources.h:48-53 | gives the handle away and keeps none |
| ScopedResources.ScopedHandle.Release | SharedUtils/ScopedResources.h:55-61 | closes what is held, at most once |
| ScopedResources.ScopedHandle.Moved | SharedUtils/ScopedResources.h:27 | move construction leaves the source without a handle |
| ScopedResources.ScopedHandle.Assign | SharedUtils/ScopedResources.h:32-38 | move assignment leaves the source without a handle, and itself alone when it is the source |
| ScopedResources.Erase | ProcessPoolLib/ProcessPool.cpp:89 | shifting move assignments and a destroyed last slot leave the old handles without the erased one, in order, none of them closed; the erased one is closed exactly when it was last |
| ProcessPool.RoundExactly | ProcessPoolLib/ProcessPool.cpp:50-97 | of the first answers, as many as processes are missing from the target, a round starts exactly the creations: usable ones join the list in order, others are terminated; then the first dead process leaves the list, unless the wait fails or all are alive |
| ProcessPool.RoundFills | ProcessPoolLib/ProcessPool.cpp:57-59 | if every missing process starts, what a round lists and removes adds up to the target |
| ProcessPool.RunCreates | ProcessPoolLib/ProcessPool.cpp:46-100 | over every run, exactly the creations among the answers to each round's missing processes are created, and exactly the unusable ones terminated |
| ProcessPool.PoolStaysFull | ProcessPoolLib/ProcessPool.cpp:46-100 | as long as processes can be started every dead one is replaced: the list is full but for the one the last round removed, and full when the loop ends |
| ProcessPool.CreateKeeps | ProcessPoolLib/ProcessPool.cpp:102-138 | each way a creation can end keeps the accounts of processes and handles |
| ProcessPool.RemoveKeeps | ProcessPoolLib/ProcessPool.cpp:87-90 | so does erasing a process |
| ProcessPool.PoolAccounting | ProcessPoolLib/ProcessPool.cpp:46-100 | over every run: never more than the target; every process created exactly one of listed, removed and terminated; every listed one in the job and resumed, every terminated one not; no handle closed twice, none of a listed process |
| ProcessPool.RemovedWereSignalled | ProcessPoolLib/ProcessPool.cpp:87-90 | over every run and for every target, whatever is removed had its handle signalled |
| ProcessPool.PoolHistory | ProcessPoolLib/ProcessPool.cpp:46-100 | all of this for every run from the empty list on |
| ProcessPool.ClosedExactlyOnce | ProcessPoolLib/ProcessPool.cpp:114-138 | in every run the handle of each thread started, and of each process terminated, is closed exactly once |
| ProcessPool.EndsExactly | ProcessPoolLib/ProcessPool.cpp:64-82 | a round ends the loop exactly when the event is set, the wait succeeds, no listed process is dead and the handles are few enough |
| ProcessPool.OversizedNeverEnds | ProcessPoolLib/ProcessPool.cpp:71-96 | with 64 or more listed processes no wait blocks and the loop never ends |
| ProcessPool.FilledNeverEnds | ProcessPoolLib/ProcessPool.cpp:57-96 | for every target of 64 or more, a run from the empty list in which all processes start fills the list and never ends |
| ProcessPool.RoundRemoves | ProcessPoolLib/ProcessPool.cpp:79-96 | a round removes exactly one process, dead at its wait, unless it ends the loop or its wait fails |
| ProcessPool.ShutdownBound | ProcessPoolLib/ProcessPool.cpp:40-100 | once the event is set no wait blocks, and rounds that do not end the loop are at most the dead in the list, later deaths and failed waits |
| ProcessPool.Supervisor.CreateProcess | ProcessPoolLib/ProcessPool.cpp:102-138 | the list, the job, the terminated processes and the closed handles after one attempt |
| ProcessPool.Supervisor.RefillPool | ProcessPoolLib/ProcessPool.cpp:57-59 | as many attempts as processes are missing |
| ProcessPool.Supervisor.EraseProcess | ProcessPoolLib/ProcessPool.cpp:87-90 | the signalled process leaves the list |
| ProcessPool.Supervisor.Iteration | ProcessPoolLib/ProcessPool.cpp:50-97 | one pass of the loop whose wait returns is one round of the specification |
| ProcessPool.Supervisor.ThreadMain | ProcessPoolLib/ProcessPool.cpp:46-100 | the loop over any observed rounds whose waits return is the specified run |

## Left out

- IIS, Windows, Redis beyond the five commands used, the task library and msgpack-c: only the contracts listed above.
- HttpModule, GlobalModule, JobObject, the module entry points, Logger, ETW, build files and fixtures: plumbing without state of interest.
- Extraction of URL, scheme, version and headers from IIS requests: table lookups; these fields are arbitrary inputs.
- The WebSocket connection steps and the start of reader and writer on every completion: one reader and one writer, started once.
- Failed reads, failed writes and close frames on WebSockets: marked as unfinished in the source, with no intended behaviour.
- The bytes inside the WebSocket reader's buffer: only lengths, orders and buffer sizes.
- The unpacking of responses: a response payload is represented by the response itself, and a payload that is not a response would crash its task.
- The task of the sending step and the completion it posts are one step, and so are storing a response and posting the completion; between the two nothing else of the request can run.
- The five step classes are the cases of one datatype inside the handler class, not separate objects; their destruction is not modelled.
- Blocking and retrying inside BLPOP, and the pump's sleeps: a receive answers at once, and any time may pass between two steps.
- Object lifetime after a posted completion, memory-model questions, and the quality of randomness.
- The copy of the command line from wide to narrow characters, and CreateProcess failing for reasons other than the four modelled answers.
- ResponsePump.Pump.Round: states one undisturbed round; interleaved rounds are the three pump steps of Protocol.dfy.
- CommandLine.EscapeRoundTrip: excludes the empty argument, for which the code does not round-trip; CommandLineRoundTrip gives the exact condition.
- WsReader.FittingFragments: one direction only, because a fragment that does not fit may still be followed by growth; the exact bound is FragmentBoundIsExact.
- ProcessPool.ShutdownBound: takes targets up to 4294967294, the number below the failure code of the wait, which a larger list would have as an index.
- Delivery.LossesHaveCauses: on FIFO channels expiry is a choice of the schedule; on the storage with its deadlines the same is RedisDelivery.ExpiredAreLate and DropsHaveCauses.
- ProgressOverRedis.CanFinish: says that a finishing schedule exists, with a fresh data key for a request that has not been sent; that any schedule takes boundedly many steps for a request is ServerStepsAreBounded, but that the scheduler takes each step at some point is not modelled.
- ProgressOverRedis.HeadIsTaken: says that the head can be taken; which requested key answers is up to the shuffle.
- WsReader.ReceiveNumbering: the counter wraps around after 2147483647 messages, where the language leaves the overflow undefined.
