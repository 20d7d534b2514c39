# Verification of the Dify plugin SDK's stateful core

A Dafny model of the parts of the SDK that carry state between calls, threads or reads, with
proofs of what they promise. `dafny verify dfyconfig.toml` checks the project; nothing of the
SDK is executed.

What is modelled, file by file:

- `EventStream`, `SseJson`, `ToolCalls`, `StreamHandler`: the streaming decode pipeline of an
  OpenAI-compatible model, from text pieces over events and JSON objects to result chunks with
  think tags and merged tool calls. Each stage is an incremental form proved equal to a
  whole-text or whole-run function. Event framing follows sections 9.2.5 and 9.2.6 of the WHATWG
  HTML Living Standard.
- `CodeFence`: the two processors that strip code fences from a stream of chunks.
- `PluginRunner`, `RunnerQueues`: the integration runner's invoke, publish and close protocol as
  a step relation over its threads and three locks, and its critical sections as an object.
- `FilterReader`, `Readers`, `MessageBus`, `LineConverter`: the in-plugin message bus. The first
  and third are step relations for every interleaving, the second is the same code as objects
  when one thread runs alone, the last the loop that converts responses.
- `Serverless`: one request's response writer and its HTTP consumer.
- `TcpWriter`, `TcpReader`: the two directions of the reconnecting TCP stream.
- `Ebml`: the EBML header walk (sections 4 and 6 of RFC 8794).
- `Embedding`: batched embedding with reordering by index.
- `Toc`: the table of contents over a reference graph that may be cyclic.
- `Text`: shared vocabulary.

How the source is rendered. Code that changes variables in loops is a method with invariants, or
a class whose methods update its fields, proved against a function; the properties are lemmas
about that function. Threads are program counters in a step relation: a step is the code between
two points at which another thread may run, and theorems hold for every run, that is every
sequence of steps. Sockets, pipes, processes, clocks and callers are choices of the environment.
JSON parsing, generated ids, token counts, filters and the server are parameters. History fields
of the step relations (what was taken, yielded, published, sent, torn down) are read by no step, but
for the numbering of a connection's bytes in `TcpReader`. Beside what every run keeps stands what some run
can always do: `EveryMessageCanBeRead`, `EveryRequestCanBeAnswered`, `EveryInvocationCanBeAnswered` and
`EveryFrameCanBeSent` build such a run for every input.

Where the code does less than one might expect, that is stated as a result:

- Both fence processors drop up to two trailing backticks of an unclosed text
  (`CodeFence.DropsAtMostTwo`).
- Tool calls of two indices that share an id merge (`ToolCalls.SharedIdMerges`). Exactly when
  two indices share an id is `ToolCalls.IdsDifferExactly`, and exactly when every index keeps its own
  call, one fragment at a time, is `ToolCalls.OwnCallsExactly`.
- A stream whose first tool-call fragment with a function has no index, id and name raises
  (`ToolCalls.RaisesExactly`, and for whole streams `StreamHandler.CompletesExactly`).
- Completion text arriving inside an open block of thoughts stays inside it
  (`StreamHandler.BracketWellBracketed`, `StreamHandler.CompletionTextFallsInside`).
- `RequestReader.read` registers readers on a closed request reader too, so its list need not stay
  empty after a close (`Readers.RequestReader.Read`).
- A second call of `execute` on one serverless writer, while a task is noted, can leave a task that
  nobody kills (`Serverless.SecondSpawnCanLose`, and exactly then by `Serverless.GuardIsExact`). The only
  caller, src/dify_plugin/core/server/io_server.py:112, executes once for each writer.
- The TCP reader can drop the first bytes of a new connection, so the first line yielded from it can be
  the end of a line (`TcpReader.FirstBytesCanBeSkipped`, and exactly when by `TcpReader.SkippedExactly`).
- A negative batch size silently returns no embeddings (`Embedding.Invoke`).
- A type on a cycle of single referrers, or marked top below another, can be listed twice in the
  table of contents. Exactly when no type is, in one order of the sets or in every order, is
  `Toc.ListedOnceExactly`, `Toc.ListedOnceInThisOrder` and `Toc.ListedOnceInEveryOrder`.

## Model

| member | source | states |
|---|---|---|
| EventStream.TwoReplacesTranslate | src/dify_plugin/interfaces/model/openai_compatible/llm.py:71 | replacing CRLF and then CR by LF is the same as turning every line ending into one LF |
| EventStream.TranslateAppend | src/dify_plugin/interfaces/model/openai_compatible/llm.py:76-78 | newline translation may be done piece by piece, unless the cut falls inside a CRLF |
| EventStream.NewlineDecoder.Decode | src/dify_plugin/interfaces/model/openai_compatible/llm.py:76-84 | the two-state decoder lets out the translation of what it was given, holding back only a CR at the very end; the final call lets that out too |
| EventStream.IterStreamEvents | src/dify_plugin/interfaces/model/openai_compatible/llm.py:74-85 | for every cutting of the text into pieces, the events are the whole text, newline-translated, split once on the blank line, the unterminated tail last |
| EventStream.SplitIsTheCutting | src/dify_plugin/interfaces/model/openai_compatible/llm.py:82-85 | the split is the only list of parts that joins to the text with blank lines and is cut at the leftmost one each time |
| SseJson.IterStreamJson | src/dify_plugin/interfaces/model/openai_compatible/llm.py:97-129 | the loop yields what judging each event in turn yields, up to [DONE], an error or the end |
| SseJson.DecodeBody | src/dify_plugin/interfaces/model/openai_compatible/llm.py:58-129 | the decoded objects depend on the body's text alone, not on how it arrived |
| SseJson.JudgeComments | src/dify_plugin/interfaces/model/openai_compatible/llm.py:110-120 | an event of comment lines only is skipped, inside and outside an event stream |
| SseJson.JudgeFields | src/dify_plugin/interfaces/model/openai_compatible/llm.py:106-129 | when the raw text is not JSON, an event of several fields yields the object its data fields, joined by newlines, are |
| SseJson.TextOverDataLines | src/dify_plugin/interfaces/model/openai_compatible/llm.py:110-122 | a text printed over one data line for each of its lines is what collecting the data fields gives back |
| SseJson.OtherFieldsDrop | src/dify_plugin/interfaces/model/openai_compatible/llm.py:110-113 | a line that is not a data field does not change the data, wherever it stands |
| SseJson.JudgedByItsText | src/dify_plugin/interfaces/model/openai_compatible/llm.py:105-129 | from an event's text and lines alone: exactly when it is skipped, ends the stream, or is invalid, which is when it is not JSON by itself and either its data lines together are neither [DONE] nor JSON, or it has none and neither content type nor any line says that this is an event stream |
| SseJson.PrintThenDecode | src/dify_plugin/interfaces/model/openai_compatible/llm.py:58-129 | round trip: printing objects as single data lines or as any block of fields whose data together is the object, with LF, CRLF or CR after each and comments anywhere, then [DONE] and any junk, then decoding under any chunking, gives back exactly those objects in order |
| SseJson.PrintThenDecodeToEof | src/dify_plugin/interfaces/model/openai_compatible/llm.py:58-129 | the same without [DONE], up to the end of the body |
| SseJson.InvalidEventFails | src/dify_plugin/interfaces/model/openai_compatible/llm.py:58-129 | behind printed objects the first invalid event, whether a blank line or the end of the body closes it, ends the stream with an error after exactly those objects, under any chunking |
| ToolCalls.Merger.AssignId | src/dify_plugin/interfaces/model/openai_compatible/llm.py:864-879 | labelling one fragment gives its index its sent, known or newly generated id, and renames the call that had the old one |
| ToolCalls.Merger.IncreaseBy | src/dify_plugin/interfaces/model/openai_compatible/llm.py:179-193 | merging one part updates the call with its id, a new call, or for a nameless id-less part the last call, and fails when there is none |
| ToolCalls.Merger.Feed | src/dify_plugin/interfaces/model/openai_compatible/llm.py:864-883 | feeding a delta in place is labelling all fragments, then merging those with a function |
| ToolCalls.UnindexedFragment | src/dify_plugin/interfaces/model/openai_compatible/llm.py:136-193 | a fragment without an index goes to the first call with its id or to a new one at the end, and with neither id nor name to the last call, leaving all others as they were; with no call it raises |
| ToolCalls.RaisesExactly | src/dify_plugin/interfaces/model/openai_compatible/llm.py:150-151 | on the input alone: merging a stream raises if and only if its first fragment with a function has no index, id and name |
| ToolCalls.EveryFragmentHasOneCall | src/dify_plugin/interfaces/model/openai_compatible/llm.py:155-193 | in every run that does not raise, each fragment's arguments go whole and in order to exactly one call, and calls hold nothing else |
| ToolCalls.ArgumentLengthConserved | src/dify_plugin/interfaces/model/openai_compatible/llm.py:155-193 | the argument text of all merged calls is as long as that of all fragments |
| ToolCalls.EveryIndexHasItsCall | src/dify_plugin/interfaces/model/openai_compatible/llm.py:864-883 | when each delta names an index at most once and no fragment carries the id another index carried last, a run never raises, ids stay distinct, and each index has its own call: its fragments glued in order, last name, last type, latest id; there are no other calls |
| ToolCalls.RunKeeps | src/dify_plugin/interfaces/model/openai_compatible/llm.py:136-193 | the same from any accumulated state, as long as no fragment is given an id in use for another index |
| ToolCalls.IdsDifferExactly | src/dify_plugin/interfaces/model/openai_compatible/llm.py:868-879 | on the input alone: the ids of any two indices differ at every moment of a run if and only if no fragment carries the id that another index carried last |
| ToolCalls.SharedIdMerges | src/dify_plugin/interfaces/model/openai_compatible/llm.py:872-879 | from any state in which every index has its own call, a new index carrying the id of an index with a call adds no call, and that call goes on with its arguments |
| ToolCalls.OwnCallsExactly | src/dify_plugin/interfaces/model/openai_compatible/llm.py:864-883 | on the input alone, for every stream that names one index at a time: every index has its own call at every moment if and only if no fragment takes the id of another index's call or renames it away |
| StreamHandler.Handler.Consume | src/dify_plugin/interfaces/model/openai_compatible/llm.py:796-915 | one event changes the handler's variables and yields chunks as the step function of the stream says |
| StreamHandler.HandleStream | src/dify_plugin/interfaces/model/openai_compatible/llm.py:785-938 | the whole loop over a stream of events is the fold of that step, with the closing tag and the final chunk |
| StreamHandler.TextIsBracketing | src/dify_plugin/interfaces/model/large_language_model.py:734-764 | the emitted text of a completed stream, which is also the full content reported, is its thoughts and answers in order of arrival with each maximal group of thoughts between one pair of tags |
| StreamHandler.BracketWellBracketed | src/dify_plugin/interfaces/model/large_language_model.py:734-764 | tags alternate, thoughts are inside, the rest outside and the end is outside, if and only if no completion text arrives while a block of thoughts is open |
| StreamHandler.BracketKeepsTexts | src/dify_plugin/interfaces/model/large_language_model.py:748-764 | inside the tags are exactly the thoughts, outside exactly the answers, both in order |
| StreamHandler.ChatIsWellBracketed | src/dify_plugin/interfaces/model/openai_compatible/llm.py:809-841 | so every completed run of chat deltas is well bracketed and loses no text |
| StreamHandler.HeartbeatsInvisible | src/dify_plugin/interfaces/model/openai_compatible/llm.py:816-834 | an empty heartbeat dropped or added anywhere changes neither whether the stream completes nor its text and tags |
| StreamHandler.CompletionTextFallsInside | src/dify_plugin/interfaces/model/openai_compatible/llm.py:894-903 | for every thought followed by a completion text the emitted text has the completion inside the tags, so the bracketing does break |
| StreamHandler.HandleIncreasing | src/dify_plugin/interfaces/model/openai_compatible/llm.py:812-938 | emitted chunk indices strictly increase, the final chunk's included |
| StreamHandler.UsageIsLastReported | src/dify_plugin/interfaces/model/openai_compatible/llm.py:801-805 | the usage of a completed stream has under each name the last count reported that was not null, whichever objects the reports came with, and no other names |
| StreamHandler.FinalCalls | src/dify_plugin/interfaces/model/openai_compatible/llm.py:843-883 | the final chunk's tool calls under each calling type: none; the merge of the tool calls the deltas carried; or one call with the last name and all arguments of the function-call pieces in order |
| StreamHandler.FinalFinishAndIndex | src/dify_plugin/interfaces/model/openai_compatible/llm.py:809-938 | the final chunk has the last finish reason that was not null, and its index counts the choices received and the chunks sent |
| StreamHandler.CompletesExactly | src/dify_plugin/interfaces/model/openai_compatible/llm.py:796-798 | on the items alone: a stream completes if and only if it has no provider error and, under the tool-call protocol, its first fragment with a function has an index, id or name |
| StreamHandler.ErrorCutsShort | src/dify_plugin/interfaces/model/openai_compatible/llm.py:796-798 | a provider error ends the stream there: the consumer keeps what the stream before it gave, without the closing tag, and gets no final chunk |
| CodeFence.StripFences | src/dify_plugin/interfaces/model/large_language_model.py:587-732 | both processors, for every chunking: every input chunk, even one given twice, is passed on once for each time, in order, its text cleared in place, each followed by what its text lets through |
| CodeFence.PiecesAddUp | src/dify_plugin/interfaces/model/large_language_model.py:615-732 | however the text is cut, the pieces add up to one function of the whole text |
| CodeFence.FeedIsSpec | src/dify_plugin/interfaces/model/large_language_model.py:605-732 | the character automata compute the whole-text functions: stripping fences, or the block between the fences |
| CodeFence.StrippedHasNoFence | src/dify_plugin/interfaces/model/large_language_model.py:618-635 | no three consecutive backticks survive the plain processor |
| CodeFence.StrippedIsIdentityExactly | src/dify_plugin/interfaces/model/large_language_model.py:618-635 | the plain processor leaves a text alone if and only if it has no fence and does not end in a backtick |
| CodeFence.DropsAtMostTwo | src/dify_plugin/interfaces/model/large_language_model.py:618-647 | a text without a fence loses only its trailing backticks, at most two |
| CodeFence.BlockOfClosed | src/dify_plugin/interfaces/model/large_language_model.py:691-719 | for a closed block the backtick processor emits exactly the text between the newline after the first fence and the next fence |
| CodeFence.BlockOfUnclosed | src/dify_plugin/interfaces/model/large_language_model.py:691-719 | for a block that is not closed the backtick processor emits everything behind that newline but trailing backticks |
| CodeFence.StrippedOfFenced | src/dify_plugin/interfaces/model/large_language_model.py:618-635 | a fence in a plain answer goes with the text stuck to it and one whitespace behind that, what was before stays, and what follows is treated likewise |
| PluginRunner.StepKeepsInv | src/dify_plugin/integration/run.py:150-316 | every step of every activity keeps the inductive invariant: lock owners, one first closer, unique ids, live queues, exceptions owed, message history |
| PluginRunner.NoCallerIsLeftAsleep | src/dify_plugin/integration/run.py:150-156 | once the stop flag is set and the first closer has been round, every registered invocation has an exception queued or its caller is leaving, and no caller blocks |
| PluginRunner.ExceptionComesNearer | src/dify_plugin/integration/run.py:289-316 | no step puts anything in front of that exception, and each get brings it one entry closer |
| PluginRunner.EveryQueueHasACaller | src/dify_plugin/integration/run.py:289-316 | a registered queue always has exactly one caller |
| PluginRunner.OnlyOwnMessagesArrive | src/dify_plugin/integration/run.py:255-261 | a queue grows only by a message published under its own id, the end type as the end mark and any other as it is, or by the closer's exception |
| PluginRunner.PublishedArrives | src/dify_plugin/integration/run.py:255-261 | a message published while its invocation is registered does reach it, and otherwise changes no queue |
| PluginRunner.CallersAreToldTheirOwn | src/dify_plugin/integration/run.py:300-313 | at every moment of every run a caller has been given the bodies of the first messages published under its id, all responses; it returns only at an end message right behind them, raises the plugin's error only at an error message there, and never complains of an id |
| PluginRunner.HeadDecides | src/dify_plugin/integration/run.py:300-313 | the entry at the head of its queue alone decides whether a caller yields that body, returns, or raises, and what |
| PluginRunner.EveryInvocationCanBeAnswered | src/dify_plugin/integration/run.py:270-316 | an idle caller that finds the locks free and the runner not stopping can invoke, be answered with any responses and an end, is given exactly those, and returns |
| PluginRunner.ClosingGoesForward | src/dify_plugin/integration/run.py:150-194 | every step of a close brings it closer to its end, and nobody else moves it |
| PluginRunner.TeardownOnce | src/dify_plugin/integration/run.py:158-194 | teardown starts at most once, by one activity at a time, and the completion event is set only after it is over |
| PluginRunner.PipesOutliveReaders | src/dify_plugin/integration/run.py:170-192 | whoever is about to close the pipes finds both reader threads ended, or is the one that is left |
| PluginRunner.CloseReturnsAfterTeardown | src/dify_plugin/integration/run.py:158-194 | a close that was not the first returns to its caller only when the one teardown is over, and the first only then too |
| PluginRunner.StoppedRefuses | src/dify_plugin/integration/run.py:277-293 | once the runner is stopping no queue is opened, and an invocation that notices raises |
| PluginRunner.NoWaitCycle | src/dify_plugin/integration/run.py:150-194 | no reachable state has a cycle among joins, waits for completion and the three locks |
| PluginRunner.MovesOrWaits | src/dify_plugin/integration/run.py:150-316 | those waits are all there are: an activity can move, by itself or by what its environment does, unless it ended, reads an empty queue, or waits for another |
| PluginRunner.WaitsLeadSomewhere | src/dify_plugin/integration/run.py:150-316 | from every activity that has not ended, following the waits comes to one that can move or to a caller whose queue is empty |
| RunnerQueues.Runner.Register | src/dify_plugin/integration/run.py:289-293 | a stopped runner registers nothing, otherwise an empty queue appears; matches the protocol's step |
| RunnerQueues.Runner.Publish | src/dify_plugin/integration/run.py:255-261 | a message goes behind what the queue of its id has, the end type as the end mark and any other as it is, and to no other queue; matches the protocol's step |
| RunnerQueues.Runner.Leave | src/dify_plugin/integration/run.py:314-316 | only the caller's own queue goes; matches the protocol's step |
| RunnerQueues.Runner.CloseLocked | src/dify_plugin/integration/run.py:151-156 | the first close alone puts one exception behind everything in every queue |
| RunnerQueues.WriteToPipe | src/dify_plugin/integration/run.py:263-268 | however little the kernel takes at a time, all bytes go out once and in order |
| FilterReader.NothingLostBeforeClose | src/dify_plugin/core/server/__base/filter_reader.py:33-61 | for every interleaving the reader yields the messages written, each once, in the order in which their writes took effect; until it ends the rest is waiting in its queue, and when it ends it has yielded every message written before the close |
| FilterReader.EveryMessageCanBeRead | src/dify_plugin/core/server/__base/filter_reader.py:33-61 | from any moment of any run at which an open reader is between rounds with nothing queued, a message can be written and is then the next one yielded |
| FilterReader.ClosedReaderTerminates | src/dify_plugin/core/server/__base/filter_reader.py:36-57 | a closed reader whose closers returned always can step, and a measure falls with each of its steps and is raised by no other |
| Readers.FilterReader.Close | src/dify_plugin/core/server/__base/filter_reader.py:48-57 | the first close sets the flag, leaves the list and puts the sentinel; any other does nothing |
| Readers.FilterReader.Next | src/dify_plugin/core/server/__base/filter_reader.py:33-46 | one round of reading: the head, the end, an empty round with a timeout, and without one a block |
| Readers.RequestReader.Read | src/dify_plugin/core/server/__base/request_reader.py:77-94 | registers a fresh open reader at the end of the list, even on a closed request reader |
| Readers.RequestReader.ProcessLine | src/dify_plugin/core/server/__base/request_reader.py:46-75 | the line goes once to every listed open reader whose filter says yes, and to no other; a raising filter counts as no |
| Readers.RequestReader.Close | src/dify_plugin/core/server/__base/request_reader.py:96-113 | the list is empty, and every reader that was on it is closed with its sentinel behind what it had |
| MessageBus.StepKeepsInv | src/dify_plugin/core/runtime.py:392-424 | every step of registration, delivery, close and reading keeps the delivery and conversion invariant of every call |
| MessageBus.EachCallSeesItsOwnResponses | src/dify_plugin/core/server/__base/request_reader.py:46-94 | what a call took is a prefix of the responses that ever arrived under its id and session, none missed while it is attached, and it yielded their payloads |
| MessageBus.EndedCallYieldsUpToTheEnd | src/dify_plugin/core/runtime.py:309-321 | a call that ran to its end yielded exactly the payloads before the first end, error or dataless response that arrived for it, and left as that response says |
| MessageBus.CallsConvertTheirRounds | src/dify_plugin/core/runtime.py:295-326 | a call does to its rounds what the converter's loop does: it has stopped exactly when the loop has, at the same round, has yielded the payloads before, and left as that round says: at the end mark or missing data normally, with an error's message, at a payload that does not parse, or by timeout |
| MessageBus.TimedOutMeansSilence | src/dify_plugin/core/runtime.py:299-308 | a call has timed out if and only if its last rounds, as many as its timeout, brought nothing, and that never happened before |
| MessageBus.EveryRequestCanBeAnswered | src/dify_plugin/core/runtime.py:392-424 | from any moment of any run at which the event loop is free, a new request can be sent and answered with any replies and an end, and its caller is given exactly those and returns |
| MessageBus.ReadsAsItsReader | src/dify_plugin/core/server/__base/filter_reader.py:33-46 | a call takes, ends and goes on as its filter reader's generator does |
| LineConverter.Convert | src/dify_plugin/core/runtime.py:282-326 | the loop reads up to the first terminal response, unparsable payload or window of silent rounds of the timeout's length and yields every payload before it; it returns normally at the end mark and at missing data, and raises an error's message, a parse failure or a timeout exactly where there is one |
| Serverless.ConsumerSeesAPrefix | src/dify_plugin/core/server/serverless/request_reader.py:89-110 | for every interleaving the consumer sees a prefix of the writes made before the writer was closed and at most one end mark, after all of them; until a close drains the queue the rest is still there |
| Serverless.ClosedStaysQuiet | src/dify_plugin/core/server/serverless/response_writer.py:45-55 | after a close the queue stays empty and no task starts |
| Serverless.CloseSettlesEveryTask | src/dify_plugin/core/server/serverless/response_writer.py:22-55 | when no task is noted at any spawn that starts one, after a close every spawned task is finished, told to die, or about to be told by a call still running |
| Serverless.SecondSpawnCanLose | src/dify_plugin/core/server/serverless/response_writer.py:22-55 | from any open state of any run in which a task is noted, one more spawn has a continuation without spawns in which a close misses the new task |
| Serverless.GuardIsExact | src/dify_plugin/core/server/serverless/response_writer.py:22-55 | so the guard is exact: a spawn finds no task noted if and only if no continuation with guarded spawns loses a task |
| Serverless.ResponseWriter.Start | src/dify_plugin/core/server/serverless/response_writer.py:22-26 | a closed writer starts no task; matches the protocol's step |
| Serverless.ResponseWriter.Put | src/dify_plugin/core/server/serverless/response_writer.py:34-37 | a closed writer drops the write; matches the protocol's step |
| Serverless.ResponseWriter.Done | src/dify_plugin/core/server/serverless/response_writer.py:39-43 | the end mark is put once, by the call that closes; matches the protocol's step |
| Serverless.ResponseWriter.CloseLocked | src/dify_plugin/core/server/serverless/response_writer.py:45-55 | the drain loop empties the queue and the task to kill is the one running; matches the protocol's step |
| TcpWriter.StepKeepsInv | src/dify_plugin/core/server/tcp/request_reader.py:56-180 | every step of writers, launches, handshakes, callbacks and closes keeps the framing and lock invariant |
| TcpWriter.ConnectionsCarryWholeFrames | src/dify_plugin/core/server/tcp/request_reader.py:81-180 | every connection's outgoing bytes are the handshake, whole frames, and at most one frame cut short at the end, which is being written or belongs to a closed connection |
| TcpWriter.OneFrameAtATime | src/dify_plugin/core/server/tcp/request_reader.py:98-118 | no two threads are ever in the middle of a frame, the handshake included |
| TcpWriter.NothingAfterATruncation | src/dify_plugin/core/server/tcp/request_reader.py:98-118 | after a frame was cut short its peer never gets another byte on that connection |
| TcpWriter.SentOnlyGrows | src/dify_plugin/core/server/tcp/request_reader.py:81-180 | bytes sent are never taken back and whole frames stay whole |
| TcpWriter.FinishedWriteIsWhole | src/dify_plugin/core/server/tcp/request_reader.py:81-96 | a write that runs out of bytes has put its whole frame, and nothing else, behind what the peer had |
| TcpWriter.LoopsDoNotNest | src/dify_plugin/core/server/tcp/request_reader.py:111-118 | a failed registration write never starts a second connecting loop inside the first |
| TcpWriter.AttemptsNeverExceed | src/dify_plugin/core/server/tcp/request_reader.py:120-141 | no connecting loop of any run makes more attempts than configured |
| TcpWriter.FailedWriteIsHandled | src/dify_plugin/core/server/tcp/request_reader.py:98-118 | a failed write leaves its connection closed and dead; an ordinary failure connects again at once, another leaves it to the reader, and a closed stream or a connecting loop around it does neither |
| TcpWriter.EveryFrameCanBeSent | src/dify_plugin/core/server/tcp/request_reader.py:81-180 | whenever the lock is free an idle thread can launch a new connection and send any frames over it, and the peer then has the handshake and exactly those |
| TcpWriter.WriteData | src/dify_plugin/core/server/tcp/request_reader.py:81-96 | after any number of rounds of its loop, through any pattern of partial sends, retries and failures, what has gone out is the frame from its start and what is left is its rest |
| TcpReader.StepKeepsInv | src/dify_plugin/core/server/tcp/request_reader.py:182-249 | every step of the reader loop and every replacement of the socket keeps the buffer and history invariant |
| TcpReader.NoLineMixesConnections | src/dify_plugin/core/server/tcp/request_reader.py:182-249 | every yielded line consists of consecutive bytes of one connection |
| TcpReader.LinesOfAConnection | src/dify_plugin/core/server/tcp/request_reader.py:201-252 | the lines yielded from a connection are exactly the finished non-blank lines of the bytes used, between those skipped before the reader turned to it and those lost after it was replaced |
| TcpReader.WhatBecomesOfARead | src/dify_plugin/core/server/tcp/request_reader.py:214-245 | bytes read are used if and only if the socket noted at the start of the round is still current, skipped if and only if they came from another, and lost if and only if they came from it but it was replaced |
| TcpReader.SkippedExactly | src/dify_plugin/core/server/tcp/request_reader.py:182-239 | a connection loses its first bytes if and only if some earlier read took them in a round that had noted another socket |
| TcpReader.NothingSkippedNothingMissed | src/dify_plugin/core/server/tcp/request_reader.py:201-252 | the lines of a current connection of which nothing was skipped are those of everything it delivered |
| TcpReader.EveryRoundEnds | src/dify_plugin/core/server/tcp/request_reader.py:201-252 | a round begins with the current socket, and each step of the loop brings it closer to its end, whatever the socket does |
| TcpReader.FirstBytesCanBeSkipped | src/dify_plugin/core/server/tcp/request_reader.py:182-239 | a concrete run in which the first bytes of a new connection vanish and its first yielded line is the end of one |
| TcpReader.SplitLinesIsTheSplit | src/dify_plugin/core/server/tcp/request_reader.py:245-249 | splitting loses nothing but the newlines and splits at every one |
| TcpReader.ReadLines | src/dify_plugin/core/server/tcp/request_reader.py:243-252 | however the bytes are cut into reads, the lines are those of all of them |
| Ebml.ReadSizeInvertsEncode | src/dify_plugin/core/plugin_executor.py:104-113 | a size is read as a value and the place after it if and only if those bytes are the encoding of that value in that width, for widths 1 to 8 and all values but the reserved one |
| Ebml.DecodeUndoesEncode | src/dify_plugin/core/plugin_executor.py:104-113 | an encoded size reads back in front of and behind anything, and advances by exactly its width |
| Ebml.IsWebmHeader | src/dify_plugin/core/plugin_executor.py:116-142 | the walk stays in bounds, ends, and says yes exactly when the first document type among the root's elements is webm up to NUL |
| Ebml.PrintedHeaderIsRecognised | src/dify_plugin/core/plugin_executor.py:116-142 | on every printed header that fits, with anything behind it, the elements seen are those printed |
| Ebml.CutNeverFakesWebm | src/dify_plugin/core/plugin_executor.py:123-142 | cutting a file short can hide a WebM header but never fake one |
| Embedding.RangeIffCovers | src/dify_plugin/interfaces/model/openai_compatible/text_embedding.py:42-50 | the sort-and-compare check on indices accepts exactly the answers in which every place is named |
| Embedding.SortedIsChosen | src/dify_plugin/interfaces/model/openai_compatible/text_embedding.py:51 | sorting brings to each place the row that names it |
| Embedding.ValidateEmbeddingBatch | src/dify_plugin/interfaces/model/openai_compatible/text_embedding.py:32-71 | an answer is accepted if and only if it has one object per input, indices all or none covering every place, and finite nonempty vectors of one dimension, the known one if there is one; vector k is that of the row for text k |
| Embedding.CutoffIsInside | src/dify_plugin/interfaces/model/openai_compatible/text_embedding.py:155-157 | for a non-negative context the cutoff of a text too long is a place inside it, and exactly that much is kept |
| Embedding.CutTexts | src/dify_plugin/interfaces/model/openai_compatible/text_embedding.py:149-160 | each text is kept or cut to the context, and the loop raises exactly when some text divides by zero |
| Embedding.EmbedBatches | src/dify_plugin/interfaces/model/openai_compatible/text_embedding.py:162-192 | for every batch size from 1 on: success if and only if every batch is answered well in one dimension; then vector i is the one returned for text i, and the tokens are summed over the batches |
| Embedding.VectorsAreForTheirTexts | src/dify_plugin/interfaces/model/openai_compatible/text_embedding.py:162-192 | text i stood at place i modulo the batch size of one request, a slice of the texts from a multiple of it on, and vector i is what the server answered for that place |
| Embedding.Invoke | src/dify_plugin/interfaces/model/openai_compatible/text_embedding.py:146-199 | the whole call; a batch size of zero raises, and a negative one returns nothing at all, so there is one vector per text exactly when the size is positive or there is no text |
| Toc.Organizer.BuildSubtree | src/dify_plugin/core/documentation/generator.py:78-109 | the recursive method, which ends on every graph, cyclic or not, does to the processed set and gives as tree what the expansion function says |
| Toc.Organizer.OrganizeToc | src/dify_plugin/core/documentation/generator.py:111-136 | the three loops give the table the specification defines |
| Toc.EveryTypeExpandedOnce | src/dify_plugin/core/documentation/generator.py:94-98 | every registered type is expanded exactly once, and nothing else is |
| Toc.TableFollowsReferences | src/dify_plugin/core/documentation/generator.py:78-109 | wherever a type has children in the table they are exactly the registered types it alone references, and every type with such has its children in exactly one place |
| Toc.ListedOnceOrTwice | src/dify_plugin/core/documentation/generator.py:78-136 | a type is listed once if it was started as a root plus once if it has a single registered referrer, at least once, and an unregistered type never |
| Toc.RootIffNotPreceded | src/dify_plugin/core/documentation/generator.py:111-136 | for every graph and order, a type becomes a root if and only if nothing above it by only referrers is offered before it |
| Toc.ListedOnceExactly | src/dify_plugin/core/documentation/generator.py:46-136 | for every graph and order, every type is listed exactly once if and only if everything nested is preceded by something above it |
| Toc.ListedOnceInThisOrder | src/dify_plugin/core/documentation/generator.py:46-136 | for the generator's graphs in a fixed order: every type is listed once if and only if no chain of only referrers is a cycle and every top below another type has an earlier top above it |
| Toc.ListedOnceInEveryOrder | src/dify_plugin/core/documentation/generator.py:46-136 | for the generator's graphs, whose types and references are sets: every type is listed once in every order if and only if no chain of only referrers is a cycle and no top is below another type |

## Left out

- The custom-delimiter branch of `_iter_stream_events`: it rests on line iteration inside the
  requests library, which is not part of this model.
- Byte decoding, byte-order marks, JSON and schema validation, uuid: parameters or left to the text level.
- Streamed fields of other types than the protocol's (reasoning that is not a string, content lists,
  ids that are not strings): not modelled.
- StreamHandler.HandleStream: the token counts and prices computed from the usage for the final chunk are not modelled.
- Merged tool calls are values inside the merger's list, so aliasing of one call object is not captured.
- Concurrent methods as methods: in `PluginRunner`, `MessageBus`, `FilterReader`, `Serverless`, `TcpWriter` and
  `TcpReader` the interleaved code is a step relation on values, since a Dafny method runs alone; the
  classes beside them show the same code in its own form for one thread.
- The runner's startup, ready semaphore, signals and resource cleanup: teardown is one step that may fail.
- The runner's stdout line framing and the stdio server: the same split by lines as in `TcpReader`.
- MessageBus.EachCallSeesItsOwnResponses: does not say that a run goes on to its end, only what holds at every moment;
  that it can is `MessageBus.EveryRequestCanBeAnswered`.
- Serverless.CloseSettlesEveryTask: assumes that a spawn finds no task noted, which `Serverless.GuardIsExact` shows is
  exactly what is needed.
- ToolCalls.OwnCallsExactly: is about streams that name one index in each delta; where a delta names several, labelling
  may swap two ids through each other, and `ToolCalls.EveryIndexHasItsCall` gives a sufficient condition.
- The consumer's connection lifetime in seconds: giving up is possible at any moment.
- PluginRunner.MovesOrWaits: a write to a full pipe is an activity whose next step is its environment's.
- The TCP reader's JSON parsing of a line: a line that does not parse is yielded here and logged there.
- Reconnect delays, attempt logging and the signal handler: no effect on the bytes.
- RIFF, ID3, Ogg and MP4 detection next to the EBML walk: fixed comparisons.
- Embedding requests: HTTP, JSON and missing keys are one kind of failure; finiteness of a number is an opaque flag; prices are not computed.
- Toc.ListedOnceInThisOrder: assumes that only registered types reference others, which is how the generator builds its
  graph; `Toc.UnregisteredReferrerRepeats` shows why, and `Toc.ListedOnceExactly` needs no such thing.
- Toc.ListedOnceInEveryOrder: assumes the same.
- Schema text, blocks, field tables, routing, registries, entities, OAuth and trigger wrappers, token counting: finite tables or
  one-branch facts.
