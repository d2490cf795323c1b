# TekMemo: models and proofs

A Dafny model of the parts of TekMemo that are hard to get right, with proofs of
what they promise. Each module follows one source file, or one component of it.

* **Concurrency as steps.** `PathLock` is the promise-chained mutex per path and
  `MemoryStore` the file store that runs every write, append and delete through
  it; `WorkerPool` is the pool that drains one shared queue and `BenchmarkRunner`
  the benchmark case that uses it. What the source does between two awaits is one
  atomic step, done by a method of a class on its fields; a run is any sequence
  of enabled steps of any calls, and what is proved holds after every run.
* **Codecs, parsers and budgets.** `Text` is text as UTF-16 code units, `Utf8`,
  `Base64`, `JsonFormat`, `JsonRoundTrip` and `JsonGrammar` are the encodings of the platform,
  `Pagination` and `PageWalk` the opaque cursors and the walk along them, `Jsonl`
  the append-only logs, `OutputLimits` the truncation to a number of bytes, and
  `JsonGraph` the validator over object graphs.
* **Protocols.** `McpTools` and `McpServer` are the tools and the JSON-RPC side
  of the MCP server, one message after the other, `McpArguments` and `McpRequests`
  what they do by the names and fields on the wire, `McpRuns` its requests over all
  interleavings and `McpSequential` what ties the two together; `ConnectorRunner`
  is the ingest loop of connectors. The host (runtime, authorization callback,
  store, SHA-256) is given by functions of the history of calls, or answers by
  any events at all, so that it may do anything.
* **Alignment and arithmetic.** `Lists`, `Batching`, `StableSort`, `OpenAiEmbedder`,
  `TransformersEmbedder` and `EmbedderRuns` match embeddings with their texts; `Statistics`, `Retry`
  and `SeededRandom` are percentiles, back-off and the generator, over integers
  and exact reals; `ScopePolicy` is the policy whose write, read and recall sides
  have to agree; `ConnectorConfig` the list of connectors and its commands.

Some promises do not hold of the code as it is. The lemmas named here show it, and
say when the promise is kept:

* a failed append can leave a part of its content (`PartialAppendWitness`,
  `SettledContents`);
* one object held twice is refused as circular (`SharedIsCircular`, `AcceptsTrees`);
* the default page limit is not checked (`PagesEnd`);
* the truncation can cut a surrogate pair in two (`PairIsSplit`,
  `SomePairIsSplit`);
* a throwing iteration does not stop the others, which can end, and even start,
  after the teardown (`TearDownLastIff`, `EndsAfterTearDown`,
  `StartsAfterTearDown`, `ThrowsDoNotStopOthers`);
* a timeout of the MCP server cancels nothing: a tool call can be allowed, and
  write, after its request was answered by a timeout and after later requests
  (`WriteAfterTimeout`); its own permission still comes before it
  (`EveryWriteIsPermitted`), directly before it only if nothing overlaps
  (`AdjacentIffAlone`, `SolitaryWritesAreAdjacent`);
* a request whose parameters are not an object is answered without its id, and
  so is such a notification (`PositionalParamsRefused`, `IdReturnedIffValid`);
* errors of an agent session resource reach the caller as JSON-RPC errors while
  those of other resources become content, because its promise is returned from
  the `try` without being awaited (`ResourceFailsIff`);
* records of connectors are told apart by their note id, not by their external
  id as the comment at the head of the runner and `types.ts` say
  (`ChangedContentIsWritten`, `TwoContentsWritten`), an external id that goes on
  after another with a colon makes records collide (`ExternalIdsCollideIff`,
  `ColonsCollide`), which those of the shipped connectors do not
  (`ItemsNeverCollide`), and the fallback to recent memories sees
  a window of the log only (`FallbackExact`);
* a response of the embeddings API with duplicate indices passes validation
  (`AlignedIffNumbered`), and a dimension inferred from a bad output is kept
  (`BadInferenceSticks`, `RightIffFirst`),
  also when calls overlap (`RecordsOfFirstVector`, `RightIffFirstVector`);
* the inferred write scope may not be writable (`InferredPermittedIff`), and
  memory without an owner is readable though it cannot be recalled
  (`OwnerlessMemoryReadable`);
* the comment of `validateConnectorsFile` promises ids that are not empty, the
  code accepts them (`RowAcceptedIff`), and such a connector cannot be removed
  (`EmptyIdStays`, `RemoveUndoesAdd`);
* `int(min, max)` returns max + 1 in one state of 2^32 (`IntInRange`,
  `OneDrawOutOfRange`).

`dafny verify dfyconfig.toml` checks the whole project with Dafny 4.11.

## Model

| member | source | states |
|---|---|---|
| `PathLock.Lock.Enter` | tooling/utils/src/paths.ts:20-33 | The synchronous part of a call: it chains on the entry it finds and puts itself in its place; the whole new state |
| `PathLock.Lock.Begin` | tooling/utils/src/paths.ts:33-35 | A task starts once the promise it chained on has settled; nothing else changes |
| `PathLock.Lock.Leave` | tooling/utils/src/paths.ts:36-41 | Release, then deletion of the entry only if it is still the call's own |
| `PathLock.Lock.SettleQueued` | tooling/utils/src/paths.ts:26-29 | The queued promise of a finished call settles after the one before it, whether that one was fulfilled or rejected |
| `PathLock.Lock.Size` | tooling/utils/src/paths.ts:49-51 | `size()` is the number of keys with an unfinished call |
| `PathLock.InvReachable` | tooling/utils/src/paths.ts:20-42 | The invariant that links every call to the one it waits for holds after any interleaving |
| `PathLock.RecordedAsMade` | tooling/utils/src/paths.ts:20-41 | After any run the t-th call holds the key of the t-th arrival, and has started, ended and settled as the events of the run say; the log of starts is that of the start events |
| `PathLock.MutualExclusion` | tooling/utils/src/paths.ts:33-41 | After any run at most one task of a key has started and not ended, by the events of the run |
| `PathLock.FirstInFirstOut` | tooling/utils/src/paths.ts:20-41 | By the events of any run, the tasks of a key have started in arrival order, none left out |
| `PathLock.MapTracksUnfinishedCalls` | tooling/utils/src/paths.ts:31-41 | A key is in the map exactly while a call that arrived with it has not finished |
| `PathLock.Progress` | tooling/utils/src/paths.ts:20-42 | While a call has not settled, some step of a call already there is enabled: no deadlock |
| `PathLock.QuietIffStuck` | tooling/utils/src/paths.ts:20-42 | Without arrivals nothing can happen exactly when every call has settled |
| `PathLock.QuietMeansEmpty` | tooling/utils/src/paths.ts:36-41 | When every call has settled the map is empty: it cleans up after itself |
| `PathLock.Drains` | tooling/utils/src/paths.ts:20-42 | Once arrivals stop, every run takes at most three steps a call, and where it can go no further all calls have settled and the map is empty |
| `MemoryStore.NodeFsMemoryStore.Write` | packages/tekmemo/src/fs/node-fs-memory-store.ts:160-179 | A write queues in the lock of its path |
| `MemoryStore.NodeFsMemoryStore.Delete` | packages/tekmemo/src/fs/node-fs-memory-store.ts:253-273 | A delete queues in the lock of its path |
| `MemoryStore.NodeFsMemoryStore.TouchFile` | packages/tekmemo/src/fs/node-fs-memory-store.ts:165-273 | What a running task does to its file: the rename of a write, the removal of a delete, or a further piece of an append |
| `MemoryStore.NodeFsMemoryStore.Append` | packages/tekmemo/src/fs/node-fs-memory-store.ts:189-216 | An append queues in the lock of its path; an empty one does nothing |
| `MemoryStore.NodeFsMemoryStore.EndTask` | packages/tekmemo/src/fs/node-fs-memory-store.ts:198-215 | A task ends with success or failure and releases the lock; the whole new state |
| `MemoryStore.RecordedAsMade` | packages/tekmemo/src/fs/node-fs-memory-store.ts:160-273 | After any run the t-th call recorded is the t-th that entered: its path, its operation with its content, how far it got and how it ended |
| `MemoryStore.Linearizable` | packages/tekmemo/src/fs/node-fs-memory-store.ts:160-216 | After any interleaving of writes, appends and deletes, every file is what the calls of the run, by its events, make of it one after the other in the order of arrival, and no call of another path touches it |
| `MemoryStore.SettledContents` | packages/tekmemo/src/fs/node-fs-memory-store.ts:160-273 | When all calls have ended, a file is the fold of the successful ones in the order they entered, with the contents given at entry, exactly when no failed append since the last successful write or delete (or the start) wrote a part, and none of them created a file that the fold has not |
| `MemoryStore.LastCallDecides` | packages/tekmemo/src/fs/node-fs-memory-store.ts:165-170 | A successful write with no later call of its path leaves exactly the content it was given, and a successful delete nothing |
| `MemoryStore.AppendsKeepEverything` | packages/tekmemo/src/fs/node-fs-memory-store.ts:189-216 | Concurrent successful appends lose and duplicate nothing: the file is what it was with all of them in order |
| `MemoryStore.PartialAppendWitness` | packages/tekmemo/src/fs/node-fs-memory-store.ts:203-207 | A run in which a failed append leaves its first character in the file |
| `JsonGraph.AssertJsonValue` | packages/tekmemo-mcp-server/src/utils/json.ts:36-81 | The recursive search with its shared set of visited containers computes `Check`: its first fault and its path, or the set it ends with |
| `JsonGraph.AcceptsTrees` | packages/tekmemo-mcp-server/src/utils/json.ts:36-81 | For every heap, cyclic or shared, a value is accepted exactly when every path from it is at most 32 long and leads to a legal value (10000 items or entries, keys of 256 units that are none of the three forbidden ones), and no container has two paths to it |
| `JsonGraph.CheckMeaning` | packages/tekmemo-mcp-server/src/utils/json.ts:55-79 | From any depth and any visited set: accepted exactly when what is reached is a tree that avoids the set; the set then grows by exactly the containers reached |
| `JsonGraph.FaultIsReal` | packages/tekmemo-mcp-server/src/utils/json.ts:42-80 | The fault reported is there: a value at the path that is too deep, illegal for the reason given, or met before |
| `JsonGraph.RefusedFor` | packages/tekmemo-mcp-server/src/utils/json.ts:36-81 | A value refused is refused for what is wrong at the path reported, kind by kind: deeper than 32, met by a second path, not finite, more than 10000 items or entries, a forbidden or too long key, no plain object, or nothing JSON has |
| `JsonGraph.SharedIsCircular` | packages/tekmemo-mcp-server/src/utils/json.ts:52-55 | An object held twice is refused as circular though nothing is cyclic |
| `JsonGraph.ToJsonObject` | packages/tekmemo-mcp-server/src/utils/json.ts:108-113 | Accepts exactly the trees whose root is a plain object |
| `Utf8.DecodeEncode` | packages/tekmemo-mcp-server/src/utils/pagination.ts:113-136 | Decoding an encoded text gives it back with every unpaired surrogate replaced by U+FFFD |
| `Utf8.TextRoundTrip` | packages/tekmemo-mcp-server/src/utils/pagination.ts:113-136 | `TextDecoder` after `TextEncoder` is the identity on well-formed text that starts with an ASCII character |
| `Base64.BytesRoundTrip` | packages/tekmemo-mcp-server/src/utils/pagination.ts:112-136 | Base64url without padding comes back through the re-padding for every byte sequence; n bytes take ceil(4n / 3) characters |
| `Base64.EncodedAt` | packages/tekmemo-mcp-server/src/utils/pagination.ts:112-120 | Symbol k stands for bits 6k to 6k + 5 of the bytes, and there are as many as the bits need (section 5 of RFC 4648) |
| `Base64.SymbolSpelled` | packages/tekmemo-mcp-server/src/utils/pagination.ts:112-120 | The symbols of the six-bit values, as the URL-safe alphabet has them (table 2 of RFC 4648) |
| `JsonRoundTrip.ParseStringify` | packages/tekmemo-cli/src/protocol/jsonl.ts:57-94 | Reading a printed JSON value gives the value back, for every value (section 7 of RFC 8259 for strings) |
| `JsonRoundTrip.CleanStringify` | packages/tekmemo-cli/src/protocol/jsonl.ts:94-95 | Printed JSON holds no control character, and so no line break |
| `JsonGrammar.ParseIff` | packages/tekmemo-cli/src/protocol/jsonl.ts:57-68 | The reader accepts exactly the texts of the JSON grammar, written as a relation of its own, and returns the value they stand for: for every text and value (sections 2 to 7 of RFC 8259) |
| `JsonGrammar.MergeMeans` | packages/tekmemo-cli/src/protocol/jsonl.ts:57-68 | Of a repeated key the last value counts, in the place of the first |
| `Jsonl.ParseJsonl` | packages/tekmemo-cli/src/protocol/jsonl.ts:42-82 | The line-by-line loop computes `ParseText` in both modes |
| `Jsonl.TextMeaning` | packages/tekmemo-cli/src/protocol/jsonl.ts:42-82 | Read leniently a text gives the objects on its lines under the numbers of the lines; read strictly it fails at the first line that is neither blank nor an object, told apart by whether it is JSON, and else gives the same |
| `Jsonl.LenientMeaning` | packages/tekmemo-cli/src/protocol/jsonl.ts:50-79 | Lenient mode never fails: a record is returned exactly when a line holds that object under that number, and the numbers ascend |
| `Jsonl.StrictMeaning` | packages/tekmemo-cli/src/protocol/jsonl.ts:71-77 | Strict mode succeeds exactly when every line that is not blank holds an object, and then equals lenient mode |
| `Jsonl.StrictFailure` | packages/tekmemo-cli/src/protocol/jsonl.ts:72-76 | Strict mode reports the first bad line, by its number and kind |
| `Jsonl.LogRoundTrip` | packages/tekmemo-cli/src/protocol/jsonl.ts:42-97 | Parsing a printed list of objects gives it back with lines 1 to n, in both modes |
| `Jsonl.AppendIsConcat` | packages/tekmemo-cli/src/protocol/jsonl.ts:90-97 | Printing two lists one after the other is printing their concatenation |
| `Jsonl.AppendedLog` | packages/tekmemo-cli/src/protocol/jsonl.ts:48-81 | Parsing a terminated log with a block appended gives the records of the log and then those of the block with their lines shifted, for any text |
| `Pagination.EncodeBase64Url` | packages/tekmemo-mcp-server/src/utils/pagination.ts:112-120 | The loop over bytes and the replacements compute base64url of the UTF-8 bytes |
| `Pagination.CursorRoundTrip` | packages/tekmemo-mcp-server/src/utils/pagination.ts:63-104 | A cursor of at most 512 characters decodes to its offset under its namespace and is refused under every other; a longer one always is |
| `Pagination.CursorAcceptedIff` | packages/tekmemo-mcp-server/src/utils/pagination.ts:77-104 | Any text is accepted as a cursor exactly when it is empty or, within 512 units, base64url of a JSON object of version 1 and this namespace with an integer offset that is not negative; the errors tell the two reasons apart |
| `Pagination.KeysSpelled` | packages/tekmemo-mcp-server/src/utils/pagination.ts:66-98 | The names of the members of a cursor, as text |
| `Pagination.LiteralValue` | packages/tekmemo-mcp-server/src/utils/pagination.ts:92-98 | What integer a JSON number literal stands for: with any fraction and exponent, exactly what its digits, its point and its exponent say, or none |
| `Pagination.DistinctCursors` | packages/tekmemo-mcp-server/src/utils/pagination.ts:63-67 | Different offsets have different cursors |
| `Pagination.CursorLength` | packages/tekmemo-mcp-server/src/utils/pagination.ts:63-67 | The exact length of a cursor of a plain namespace |
| `Pagination.ServerCursorsFit` | packages/tekmemo-mcp-server/src/utils/pagination.ts:82 | Every cursor of a safe integer under a namespace of the server fits into 512 characters |
| `Pagination.PagesCoverTheList` | packages/tekmemo-mcp-server/src/utils/pagination.ts:147-166 | With a positive effective limit, following the cursors takes max(1, ceil(n / limit)) pages, which together are the list, in order, each item once |
| `Pagination.PagesEnd` | packages/tekmemo-mcp-server/src/utils/pagination.ts:41-166 | For every limit, default and maximum: the walk along the cursors goes on for ever exactly when no limit is passed, the default is not positive and there is something to page; it is refused at once, each time with its own error, exactly when a limit is passed that is no integer from 1 to the maximum |
| `PageWalk.WalkVisitsEverything` | packages/tekmemo-mcp-server/src/utils/pagination.ts:157-165 | The same for any way of naming offsets by cursors |
| `PageWalk.NeverEnds` | packages/tekmemo-mcp-server/src/utils/pagination.ts:158-164 | With a limit that is not positive the walk never runs out of cursors |
| `OutputLimits.EnforceOutputLimit` | packages/tekmemo-mcp-server/src/utils/limits.ts:21-38 | The loop that shortens the text ends and computes `Limited` |
| `OutputLimits.LongestPrefix` | packages/tekmemo-mcp-server/src/utils/limits.ts:35-36 | The length chosen is within the text and its prefix within the budget |
| `OutputLimits.WithinLimit` | packages/tekmemo-mcp-server/src/utils/limits.ts:26-37 | The result never has more than `maxBytes` bytes of UTF-8, unpaired surrogates counted as three |
| `OutputLimits.RefusedIff` | packages/tekmemo-mcp-server/src/utils/limits.ts:26-33 | A text is refused exactly when it is too long and the notice leaves not one byte of the limit |
| `OutputLimits.KeepsTheMost` | packages/tekmemo-mcp-server/src/utils/limits.ts:35-37 | A truncated result is a prefix and the notice, and no longer prefix would fit with it |
| `OutputLimits.NoticeSpelled` | packages/tekmemo-mcp-server/src/utils/limits.ts:28 | The notice word by word, with the length of the text, the limit and the operation |
| `OutputLimits.LimitIdempotent` | packages/tekmemo-mcp-server/src/utils/limits.ts:26-37 | Applying the limit twice is applying it once |
| `OutputLimits.PairIsSplit` | packages/tekmemo-mcp-server/src/utils/limits.ts:26-37 | What is returned ends with the first half of a surrogate pair, and the notice, exactly when the notice leaves three bytes for its four |
| `OutputLimits.SomePairIsSplit` | packages/tekmemo-mcp-server/src/utils/limits.ts:26-37 | Under every limit with room for three bytes and the notice, some well-formed text comes out with an unpaired surrogate |
| `OutputLimits.EnforceToolResultLimit` | packages/tekmemo-mcp-server/src/utils/limits.ts:48-61 | Maps the items and returns the very same result exactly when no text changed |
| `OutputLimits.ItemsWithinLimit` | packages/tekmemo-mcp-server/src/utils/limits.ts:54-60 | Every text item fits, other items and fields are as they were, and limiting again changes nothing |
| `WorkerPool.Pool.Take` | packages/tekmemo-benchmark-kit/src/utils/concurrency.ts:11-14 | A worker shifts past undefined items to the next one, or exits on an empty queue; the whole new state |
| `WorkerPool.HandedOutInOrder` | packages/tekmemo-benchmark-kit/src/utils/concurrency.ts:6-18 | In every run items are handed out in queue order, none twice, and up to where the queue stands none left out |
| `WorkerPool.BoundedConcurrency` | packages/tekmemo-benchmark-kit/src/utils/concurrency.ts:7-9 | At most min(concurrency, n) items are in flight, all different and none of them done |
| `WorkerPool.ReturnedMeansAllDone` | packages/tekmemo-benchmark-kit/src/utils/concurrency.ts:6-19 | When it has returned, every item was completed exactly once; with a concurrency that is not positive none was started |
| `WorkerPool.DoneAsMade` | packages/tekmemo-benchmark-kit/src/utils/concurrency.ts:11-17 | Done are just the items whose iterators finished without an error, by the events of the run and in their order; a worker has failed exactly when its iterator threw |
| `WorkerPool.ThrowsDoNotStopOthers` | packages/tekmemo-benchmark-kit/src/utils/concurrency.ts:9-19 | A throwing worker does not stop the others: where nothing more can happen, every item was started or every worker failed |
| `WorkerPool.StuckIffNothingEnabled` | packages/tekmemo-benchmark-kit/src/utils/concurrency.ts:9-19 | Nothing more can happen exactly when every worker has exited or failed |
| `WorkerPool.RunsAreFinite` | packages/tekmemo-benchmark-kit/src/utils/concurrency.ts:11-17 | Every run is finite |
| `BenchmarkRunner.CaseRun.Iterate` | packages/tekmemo-benchmark-kit/src/runner/benchmark-runner.ts:89-98 | One measured iteration ends: its result is stored, or it throws; the whole new state |
| `BenchmarkRunner.CaseRun.Settle` | packages/tekmemo-benchmark-kit/src/runner/benchmark-runner.ts:89-103 | The pool has settled: the loop collects the stored results in index order, or the call throws |
| `BenchmarkRunner.CaseRun.WarmUp` | packages/tekmemo-benchmark-kit/src/runner/benchmark-runner.ts:70-80 | A warm-up iteration; its failure throws whatever the options |
| `BenchmarkRunner.ReturnsEveryIteration` | packages/tekmemo-benchmark-kit/src/runner/benchmark-runner.ts:65-108 | Whatever the interleaving, a call that returns ran the warm-ups in order, every iteration exactly once, then the teardown, and returns the result of iteration i at position i |
| `BenchmarkRunner.TraceAsMade` | packages/tekmemo-benchmark-kit/src/runner/benchmark-runner.ts:53-119 | The trace holds what the events of the run entered, in their order: warm-ups by number, iterations by the worker that ended them, the teardown |
| `BenchmarkRunner.ResultsAreTold` | packages/tekmemo-benchmark-kit/src/runner/benchmark-runner.ts:89-169 | In a call that returns, the result at position i has the success and the duration, not below zero, of the very event of the run that ended iteration i; there is exactly one |
| `BenchmarkRunner.ThrowsExactlyWhenCalled` | packages/tekmemo-benchmark-kit/src/runner/benchmark-runner.ts:65-169 | A call that has ended has thrown exactly when its set-up, a warm-up or its teardown threw, or an iteration whose error is not captured |
| `BenchmarkRunner.TearDownOnce` | packages/tekmemo-benchmark-kit/src/runner/benchmark-runner.ts:104-108 | Teardown runs exactly once in a call that has ended |
| `BenchmarkRunner.TearDownLastIff` | packages/tekmemo-benchmark-kit/src/runner/benchmark-runner.ts:65-169 | For all settings and cases: nothing ends after the teardown, in any run, exactly when there is no teardown, or no error of an iteration is let through, or never more than one iteration goes on at a time |
| `BenchmarkRunner.EndsAfterTearDown` | packages/tekmemo-benchmark-kit/src/runner/benchmark-runner.ts:82-108 | In every other case, whatever its warm-ups, iterations and concurrency, there is a run in which the second iteration ends after the teardown |
| `BenchmarkRunner.StartsAfterTearDown` | packages/tekmemo-benchmark-kit/src/utils/concurrency.ts:6-18 | ... and with more iterations than workers one is started after it |
| `BenchmarkRunner.EndedIsOver` | packages/tekmemo-benchmark-kit/src/runner/benchmark-runner.ts:82-108 | Where the condition holds, a call with a teardown is over for good once it has ended: no event is enabled any more |
| `BenchmarkRunner.Progress` | packages/tekmemo-benchmark-kit/src/runner/benchmark-runner.ts:53-119 | A call that has not ended can go on |
| `BenchmarkRunner.RunsAreFinite` | packages/tekmemo-benchmark-kit/src/runner/benchmark-runner.ts:53-119 | Every run is finite, so that every call ends |
| `McpTools.ReadsAreHarmless` | packages/tekmemo-mcp-server/src/tools/handlers.ts:223-467 | A tool is validated as a read exactly when what it calls leaves memory and sessions as they are (for consolidation: when `apply` is false) |
| `McpArguments.FieldsAreTheCallers` | packages/tekmemo-mcp-server/src/tools/handlers.ts:223-467 | Corollary: what a tool passes on is what its caller gave under the same names, strings trimmed |
| `McpArguments.ArgumentsPassedOn` | packages/tekmemo-mcp-server/src/tools/handlers.ts:223-467 | For each tool, by a table of its fields: the arguments are accepted exactly when every field fits its rule, and then exactly the fields that are given are passed on, trimmed or read as the rule says, and nothing else |
| `McpArguments.WorkspaceIsTheCallers` | packages/tekmemo-mcp-server/src/tools/handlers.ts:223-467 | The workspace that permission is asked for is the caller's, trimmed, for every tool |
| `McpArguments.MethodsByName` | packages/tekmemo-mcp-server/src/tools/handlers.ts:116-186 | By the names of the ten tools as text: which method of the runtime a call of the tool calls |
| `McpArguments.FieldsByName` | packages/tekmemo-mcp-server/src/tools/handlers.ts:116-467 | ... and the question and the call that a tool call makes carry exactly the fields its rules want of what the caller gave |
| `McpArguments.InvalidAnswered` | packages/tekmemo-mcp-server/src/tools/handlers.ts:43-80 | What is not called because of its payload, its name or its arguments is answered as invalid, and calls nothing |
| `McpTools.RunToolShape` | packages/tekmemo-mcp-server/src/tools/handlers.ts:56-69 | A tool call adds at most a question to the authorization callback and then a call of the runtime, guarded |
| `McpTools.CalledIffAllowed` | packages/tekmemo-mcp-server/src/tools/handlers.ts:56-106 | The runtime is called exactly when the arguments are valid, read-only mode and the callback let the call pass, and the runtime has the operation |
| `McpTools.AnswersAreReturned` | packages/tekmemo-mcp-server/src/tools/handlers.ts:54-80 | A tool has an answer exactly when the runtime was called last and returned an object of plain JSON, which then is the answer; what it throws is the error, anything else is invalid |
| `McpTools.AnswerWithinLimit` | packages/tekmemo-mcp-server/src/tools/handlers.ts:43-80 | A tool call answers the error of what stops it first, or the object of the runtime, if the output limit has room, and else an error that says so |
| `McpTools.ToolCallsAreGuarded` | packages/tekmemo-mcp-server/src/tools/handlers.ts:43-106 | A tool call that nothing overlaps: every call that may write, whatever the host answers, was allowed in writable mode just before, with the same arguments |
| `McpServer.ProtocolServer.HandleJsonRpcMessage` | packages/tekmemo-mcp-server/src/protocol/server.ts:154-172 | The loop over a batch computes `HandleMessage`, and the calls made to the host |
| `McpServer.ReadOnlyServer` | packages/tekmemo-mcp-server/src/protocol/server.ts:154-210 | Over any sequence of messages, one after the other, a read-only server never writes memory nor starts, writes, appends to or completes a session, and consolidates only with `apply` false |
| `McpServer.WritesAreAuthorized` | packages/tekmemo-mcp-server/src/protocol/server.ts:154-210 | Over any sequence of messages, each taken up when no tool call is in progress any more, every call that may write directly follows its permission for the same arguments |
| `McpServer.BatchAnswers` | packages/tekmemo-mcp-server/src/protocol/server.ts:157-170 | One response for each item that is not a notification, in order and with the right id; an empty batch is one error, a batch of notifications no answer (section 6 of the JSON-RPC 2.0 Specification) |
| `McpServer.NotificationBatchCallsNothing` | packages/tekmemo-mcp-server/src/protocol/server.ts:193-196 | A batch of notifications calls nothing |
| `McpServer.ListingShowsEveryTool` | packages/tekmemo-mcp-server/src/protocol/server.ts:248-262 | Following the cursors of `tools/list` shows every tool once, in order, on max(1, ceil(10 / size)) pages |
| `McpRequests.RequestsByName` | packages/tekmemo-mcp-server/src/protocol/server.ts:214-336 | By the names of the methods as text: what a request does, and that any other name is not found |
| `McpRequests.MembersSpelled` | packages/tekmemo-mcp-server/src/protocol/json-rpc.ts:142-170 | The names on the wire of the members of a request, and the version it has to give |
| `McpRequests.DefinitionsComplete` | packages/tekmemo-mcp-server/src/resources/handlers.ts:18-81 | Every resource that has a path of its own is listed, once, with the two of a session, and so are both prompts |
| `McpRequests.ResourcesByPath` | packages/tekmemo-mcp-server/src/resources/handlers.ts:90-314 | By the path of a resource as text: reading it calls the one method of the runtime for that path, with the parameters of the URI that belong to it and no others, or, where nothing supports it, nothing |
| `McpRequests.PromptsByName` | packages/tekmemo-mcp-server/src/prompts/handlers.ts:75-117 | By the name of a prompt: it is given exactly when the fields it takes fit, and another name is not found |
| `McpRequests.VersionAnswered` | packages/tekmemo-mcp-server/src/schema.ts:12-37 | The client's version of the protocol where it is one of the four, and else the latest |
| `McpRequests.UnreadableRefused` | packages/tekmemo-mcp-server/src/protocol/server.ts:130-162 | A text that is no JSON is refused with -32700 and an empty batch with -32600, and nothing is called |
| `McpServer.CodesTell` | packages/tekmemo-mcp-server/src/protocol/server.ts:174-365 | Which messages are answered by each of -32600, -32601, -32602 and -32603, with both directions, for every message, whatever the host throws and the output limit lets through (section 5.1 of the JSON-RPC 2.0 Specification) |
| `McpServer.TextIsMessage` | packages/tekmemo-mcp-server/src/protocol/server.ts:130-145 | Handling the text of a message is handling the message |
| `McpServer.ReadResourceKeeps` | packages/tekmemo-mcp-server/src/resources/handlers.ts:90-258 | Reading any resource makes no call that may write |
| `McpRuns.InvReachable` | packages/tekmemo-mcp-server/src/tools/handlers.ts:43-106 | Whatever the interleaving of requests, answers, calls and timeouts, each call of the runtime has its own tool call, whose own question was answered by permission before it |
| `McpRuns.CallsAsRequested` | packages/tekmemo-mcp-server/src/tools/handlers.ts:43-57 | After any run the t-th tool call is the t-th that the messages of the run asked for: its name, and what its arguments validate to |
| `McpRuns.EveryWriteIsPermitted` | packages/tekmemo-mcp-server/src/tools/handlers.ts:43-106 | With an authorization callback, after any interleaving, each call that may write has a question of its own for that tool as a write with the same arguments, answered `Allowed` before it, which serves no other write |
| `McpRuns.PermissionsAreGiven` | packages/tekmemo-mcp-server/src/tools/handlers.ts:83-106 | No answer of the callback is made up: each one is of an event of the run that answered just that question so |
| `McpRuns.WritesAreRequested` | packages/tekmemo-mcp-server/src/tools/handlers.ts:43-186 | Whatever the interleaving, nothing is written but what a message of the run asked for, by the tool it named and with the arguments it gave |
| `McpRuns.ReadOnlyAlways` | packages/tekmemo-mcp-server/src/tools/handlers.ts:89-93 | After any interleaving a read-only server has made harmless calls only |
| `McpRuns.AdjacentIffAlone` | packages/tekmemo-mcp-server/src/tools/handlers.ts:55-69 | A call of the runtime comes right after its own permission exactly when no other request called the host while it waited |
| `McpRuns.OverlapBreaksAdjacency` | packages/tekmemo-mcp-server/src/utils/timeout.ts:35-44 | Whenever another request calls the host while a tool call waits to be allowed, the permission, given next, lets that call come out of turn |
| `McpRuns.EachAnsweredOnce` | packages/tekmemo-mcp-server/src/utils/timeout.ts:25-44 | Whatever the interleaving, no request of a tool is answered twice, and each is once its call is over, by the result or by the timeout before it |
| `McpRuns.AnswersAreTold` | packages/tekmemo-mcp-server/src/tools/handlers.ts:43-106 | Whatever the interleaving, every answer is what an event of the run had to say of that very call: why it was refused, what the runtime answered, or the timeout |
| `McpSequential.SolitaryWritesAreAdjacent` | packages/tekmemo-mcp-server/src/tools/handlers.ts:55-69 | If no request is taken up while a tool call is in progress, every write comes right after its own permission |
| `McpSequential.AwaitedIsSolitary` | packages/tekmemo-mcp-server/src/utils/timeout.ts:35-44 | A client that awaits every answer keeps to that as long as no request times out |
| `McpSequential.WriteAfterTimeout` | packages/tekmemo-mcp-server/src/utils/timeout.ts:25-44 | ... and not longer: a run in which `tekmemo.remember` is answered by a timeout and writes after a later `tekmemo.recall` |
| `McpSequential.LateCall` | packages/tekmemo-mcp-server/src/tools/handlers.ts:43-106 | The same for any two tool calls that are allowed: the first is made after its timeout was answered and after the second |
| `McpSequential.ServeIsARun` | packages/tekmemo-mcp-server/src/protocol/server.ts:154-210 | What `McpServer.Serve` asks of the host, for any messages and any host, is what such a run asks in which every call has come to its end |
| `ConnectorRunner.RunOne` | packages/tekmemo-connectors/src/runner.ts:142-173 | The loop over the records of a connector, with the shared set of known ids: what is written, skipped and failed, and the new log |
| `ConnectorRunner.RunConnectors` | packages/tekmemo-connectors/src/runner.ts:81-115 | The loop over connectors; each configured one is listed as run, in order, whichever of them throw |
| `ConnectorRunner.NeverTwice` | packages/tekmemo-connectors/src/runner.ts:81-173 | Over any sequence of runs and other events no connector note id is logged twice, if failed writes leave nothing in the log |
| `ConnectorRunner.NeverTwiceIff` | packages/tekmemo-connectors/src/runner.ts:146-170 | Where the outcome of a write goes by the record, that condition is exact: no sequence of runs logs a note twice exactly when no failed write is logged |
| `ConnectorRunner.TwiceIffRelogged` | packages/tekmemo-connectors/src/runner.ts:81-173 | For any host and any actions: a note is logged twice exactly when a record is tried while its note is in the log and not known to the run, and leaves a trace, or somebody else logs a connector note again |
| `ConnectorRunner.WhyUnknown` | packages/tekmemo-connectors/src/runner.ts:98-169 | At any point of a run such a note was either left out of what the run loaded, or logged by a write of this run that failed |
| `ConnectorRunner.RunAddsWritten` | packages/tekmemo-connectors/src/runner.ts:81-170 | Whatever the log holds and the run has loaded, a run adds to the log exactly the ids it reports as written, if failed writes leave nothing there |
| `ConnectorRunner.EverythingTold` | packages/tekmemo-connectors/src/runner.ts:100-170 | A run leaves no record untold and tells nothing else: each note was loaded or is written, or an error names its record; a connector that threw is named; and every error is one of these |
| `ConnectorRunner.EveryRecordCounted` | packages/tekmemo-connectors/src/runner.ts:146-172 | written + skipped + errors is the number of records of a connector that ingests |
| `ConnectorRunner.EveryConnectorCounted` | packages/tekmemo-connectors/src/runner.ts:100-112 | A connector that throws counts as one error and keeps none of the others from running |
| `ConnectorRunner.RunAgainWritesNothing` | packages/tekmemo-connectors/src/runner.ts:81-267 | A run without errors, repeated, writes nothing and skips every record exactly when the log had an id, or the recent memories, which stand in for a log without ids, showed all or none of what is ingested |
| `ConnectorRunner.FallbackExact` | packages/tekmemo-connectors/src/runner.ts:250-266 | When the log cannot be read, no run can log a note again exactly when the recent memories show every note of the log |
| `ConnectorRunner.LoadedIff` | packages/tekmemo-connectors/src/runner.ts:228-267 | What a run takes for written before: the ids in the log, or, where it has or shows none, the ids and metadata ids of the recent memories |
| `ConnectorRunner.LoggedFailureTwice` | packages/tekmemo-connectors/src/runner.ts:157-169 | Whatever the log, a failed write that was logged makes an equal record in the same run be logged again, unless it fails without a trace |
| `ConnectorRunner.PreimagesDiffer` | packages/tekmemo-connectors/src/id.ts:25-27 | Two records, any two, are hashed alike exactly when they are equal or a colon moves the border between id and content |
| `ConnectorRunner.NoteIdsDiffer` | packages/tekmemo-connectors/src/id.ts:25-27 | A note id is conn_ and 16 digits, and two are equal exactly when the first 16 digits of the hashes are |
| `ConnectorRunner.ExternalIdsCollideIff` | packages/tekmemo-connectors/src/id.ts:25-27 | Some contents make two external ids collide exactly when one of them goes on after the other with a colon |
| `ConnectorRunner.ItemsNeverCollide` | packages/tekmemo-connectors/src/connectors/github/normalize.ts:19-33 | Records of Notion pages and of GitHub issues, pull requests and discussions are hashed alike only if item and content are the same |
| `ConnectorRunner.ItemIdsSpelled` | packages/tekmemo-connectors/src/connectors/github/normalize.ts:20-22 | The external ids of the shipped connectors as text |
| `ConnectorRunner.ColonsCollide` | packages/tekmemo-connectors/src/runner.ts:146-159 | Whatever the hash, for such external ids there are two different records of which a run writes the first and skips the second |
| `ConnectorRunner.ChangedContentIsWritten` | packages/tekmemo-connectors/src/runner.ts:81-173 | Over any run, two records of one external id that are new and can be written are both written exactly when their note ids differ: the external id plays no part |
| `ConnectorRunner.TwoContentsWritten` | packages/tekmemo-connectors/src/runner.ts:146-159 | A run that writes one issue twice, with two contents |
| `Batching.ChunkArray` | tooling/utils/src/batching.ts:15-25 | Refuses a size that is not positive, and computes the chunks |
| `Batching.ChunksFlatten` | tooling/utils/src/batching.ts:20-24 | Put together again, the chunks are the list |
| `Batching.ChunkAt` | tooling/utils/src/batching.ts:21-23 | Chunk k starts at k * size, and all but the last are full |
| `StableSort.SortMeaning` | packages/tekmemo-adapter-openai/src/embedder/openai-embedder.ts:225 | Sorting by index is a stable permutation into ascending order |
| `OpenAiEmbedder.EmbedTexts` | packages/tekmemo-adapter-openai/src/embedder/openai-embedder.ts:134-233 | The loops over batches and items compute `Embedded`, tokens included |
| `OpenAiEmbedder.ReturnsIff` | packages/tekmemo-adapter-openai/src/embedder/openai-embedder.ts:134-223 | A call returns exactly when there is nothing to embed, or the batch size, 128 unless given, is from 1 to 2048 and every response has an item for each text with a vector of the right length and an index of the batch; the tokens are the sums of those reported. Else it throws what the first bad response calls for |
| `OpenAiEmbedder.PointwiseResult` | packages/tekmemo-adapter-openai/src/embedder/openai-embedder.ts:175-232 | If each response permutes its indices, position i holds text i, its own embedding and index i, for every batch size |
| `OpenAiEmbedder.AlignedIffNumbered` | packages/tekmemo-adapter-openai/src/embedder/openai-embedder.ts:206-223 | When it returns, position i holds text i for every i exactly when the indices of every response are 0 to count - 1, each once |
| `OpenAiEmbedder.FinalSortIdle` | packages/tekmemo-adapter-openai/src/embedder/openai-embedder.ts:225 | The final sort changes nothing, whatever the responses hold |
| `TransformersEmbedder.Embedder.EmbedTexts` | packages/tekmemo-adapter-transformers/src/transformers-embedder.ts:160-219 | The loops over batches and texts compute `Embedded`, and the dimension kept in the field |
| `TransformersEmbedder.EmbeddingsTile` | packages/tekmemo-adapter-transformers/src/transformers-embedder.ts:193-209 | Under any dimension, fractions included, the embeddings of a batch are what the pipeline returned, cut up in order with nothing lost or doubled in between |
| `TransformersEmbedder.InferredValidIff` | packages/tekmemo-adapter-transformers/src/transformers-embedder.ts:182-192 | An inferred dimension is valid exactly when the vector has values, and as many for each text |
| `TransformersEmbedder.RightIffInferred` | packages/tekmemo-adapter-transformers/src/transformers-embedder.ts:175-219 | With a pointwise pipeline of dimension d, the result is right for every batch size exactly when no dimension was inferred before or it was d |
| `TransformersEmbedder.FinalSortIdle` | packages/tekmemo-adapter-transformers/src/transformers-embedder.ts:198-213 | Whatever the pipeline returns, records are those of the texts in order, and the final sort changes nothing |
| `TransformersEmbedder.KeptIsFirst` | packages/tekmemo-adapter-transformers/src/transformers-embedder.ts:175-195 | Over any calls of one embedder the dimension kept is that of the first vector ever returned, good or bad |
| `TransformersEmbedder.RightIffFirst` | packages/tekmemo-adapter-transformers/src/transformers-embedder.ts:160-219 | After any calls, one with a pointwise pipeline of dimension d is right exactly when that first vector had d values a text |
| `TransformersEmbedder.BadInferenceSticks` | packages/tekmemo-adapter-transformers/src/transformers-embedder.ts:182-213 | If that vector did not divide among its texts, its call throws, and every later call with texts throws or returns records of the bad dimension, right for no embedding, whatever the pipeline returns by then |
| `EmbedderRuns.KeptIsFirstVector` | packages/tekmemo-adapter-transformers/src/transformers-embedder.ts:175-195 | However calls of one embedder overlap, the dimension kept is that of the first vector any of them is answered |
| `EmbedderRuns.TasksAsMade` | packages/tekmemo-adapter-transformers/src/transformers-embedder.ts:160-219 | After any run call t is the one that entered as number t, with its texts and its batch size, and holds the vectors it was answered by |
| `EmbedderRuns.FailsIff` | packages/tekmemo-adapter-transformers/src/transformers-embedder.ts:160-219 | However calls overlap: a call fails with the pipeline exactly when one of its own batches did, for want of a dimension exactly when it got the first vector of all and that was not valid, and else has settled or awaits a batch |
| `EmbedderRuns.RecordsOfFirstVector` | packages/tekmemo-adapter-transformers/src/transformers-embedder.ts:160-219 | However calls overlap, what one returns are the records of its texts in order, all of that dimension, and right for no embedding if it is not valid |
| `EmbedderRuns.RightIffFirstVector` | packages/tekmemo-adapter-transformers/src/transformers-embedder.ts:160-219 | However calls overlap, one that was answered pointwise in d dimensions returns the right records exactly when that first vector had d values a text |
| `TransformersEmbedder.KeptDimension` | packages/tekmemo-adapter-transformers/src/transformers-embedder.ts:182-195 | A dimension once inferred is used and kept for good |
| `Statistics.PercentileMonotone` | packages/tekmemo-benchmark-kit/src/stats/stats.ts:4-23 | A higher percentile is never smaller |
| `Statistics.PercentileOfPermutation` | packages/tekmemo-benchmark-kit/src/stats/stats.ts:13 | The order of the values does not matter |
| `Statistics.PercentileEnds` | packages/tekmemo-benchmark-kit/src/stats/stats.ts:14-22 | The percentile at 0 is the minimum and at 100 the maximum |
| `Statistics.PercentileFailsIff` | packages/tekmemo-benchmark-kit/src/stats/stats.ts:4-11 | A percentile is refused exactly outside of 0 to 100, of no values too; of no values it is 0 |
| `Statistics.RankBetween` | packages/tekmemo-benchmark-kit/src/stats/stats.ts:15-22 | An interpolated value lies between its two neighbours |
| `Statistics.Interpolates` | packages/tekmemo-benchmark-kit/src/stats/stats.ts:15-22 | At rank k + t, with t from 0 to 1, the value is x[k] + t * (x[k + 1] - x[k]) |
| `Statistics.PercentileIsInterpolated` | packages/tekmemo-benchmark-kit/src/stats/stats.ts:4-23 | A whole percentile is interpolated between the two order statistics at p * (n - 1) / 100 |
| `Statistics.MedianIsMiddle` | packages/tekmemo-benchmark-kit/src/stats/stats.ts:4-23 | The median is the middle value, or the mean of the middle two |
| `Statistics.MeanBetween` | packages/tekmemo-benchmark-kit/src/stats/stats.ts:25-28 | The mean lies between minimum and maximum |
| `Statistics.MeanTimesCount` | packages/tekmemo-benchmark-kit/src/stats/stats.ts:25-28 | The mean times the count is the sum |
| `Statistics.SummaryOrdered` | packages/tekmemo-benchmark-kit/src/stats/stats.ts:30-60 | For any real durations: min <= p50 <= p90 <= p95 <= p99 <= max, the mean between min and max, successes + failures = count, and error rate and throughput are the quotients they are named for |
| `Statistics.SummaryFigures` | packages/tekmemo-benchmark-kit/src/stats/stats.ts:30-60 | Every figure of a summary by its own definition: count, successes, sum, minimum, maximum, mean, median and the percentiles interpolated over the sorted durations |
| `Statistics.SummaryOfPermutation` | packages/tekmemo-benchmark-kit/src/stats/stats.ts:30-60 | The whole summary does not depend on the order of the iterations |
| `SeededRandom.Generator.Next` | packages/tekmemo-benchmark-kit/src/utils/seeded-random.ts:8-11 | One step of the generator and the fraction returned |
| `SeededRandom.Generator.Int` | packages/tekmemo-benchmark-kit/src/utils/seeded-random.ts:13-15 | An integer from the advanced state |
| `SeededRandom.Generator.Pick` | packages/tekmemo-benchmark-kit/src/utils/seeded-random.ts:17-22 | A pick from the advanced state, an error for an empty list or an undefined item |
| `SeededRandom.AdvanceIsLinear` | packages/tekmemo-benchmark-kit/src/utils/seeded-random.ts:9 | The 32-bit product and the unsigned shift amount to (1664525 s + 1013904223) mod 2^32 |
| `SeededRandom.RetreatAdvance` | packages/tekmemo-benchmark-kit/src/utils/seeded-random.ts:9 | The step is undone by the modular inverse of its multiplier |
| `SeededRandom.AdvanceRetreat` | packages/tekmemo-benchmark-kit/src/utils/seeded-random.ts:9 | ... and undoes it: the step is a permutation of the states |
| `SeededRandom.RunsAreReversible` | packages/tekmemo-benchmark-kit/src/utils/seeded-random.ts:8-11 | Every run can be undone |
| `SeededRandom.IntInRange` | packages/tekmemo-benchmark-kit/src/utils/seeded-random.ts:13-15 | For min <= max the result is in range in every advanced state but 0xffffffff, where it is max + 1 |
| `SeededRandom.PickFailsIff` | packages/tekmemo-benchmark-kit/src/utils/seeded-random.ts:17-22 | A pick among defined items fails exactly in that state, and else returns one of them |
| `SeededRandom.PeriodExact` | packages/tekmemo-benchmark-kit/src/utils/seeded-random.ts:9 | A state comes back after n steps exactly when 2^32 divides n |
| `SeededRandom.EveryStateVisited` | packages/tekmemo-benchmark-kit/src/utils/seeded-random.ts:9 | From any seed 2^32 draws visit every state exactly once |
| `SeededRandom.OneDrawOutOfRange` | packages/tekmemo-benchmark-kit/src/utils/seeded-random.ts:8-15 | Of every 2^32 successive draws exactly one is out of range |
| `ScopePolicy.NormalizeAccessContext` | packages/tekmemo-adapter-ai-sdk/src/scope/scope-policy.ts:32-58 | The derived or explicit scopes, ids and flags of a context |
| `ScopePolicy.ScopesSpelled` | packages/tekmemo-adapter-ai-sdk/src/scope/scope-policy.ts:10-17 | The names of the scopes, as text |
| `ScopePolicy.NormalizeIdempotent` | packages/tekmemo-adapter-ai-sdk/src/scope/scope-policy.ts:32-58 | Normalizing a normalized context changes nothing |
| `ScopePolicy.PermittedIff` | packages/tekmemo-adapter-ai-sdk/src/scope/scope-policy.ts:69-103 | A scope may be written to exactly when it is allowed and there is the user, the conversation or somebody it goes by; else it is refused for just what is missing |
| `ScopePolicy.InferredIsPermitted` | packages/tekmemo-adapter-ai-sdk/src/scope/scope-policy.ts:105-127 | Without explicit scopes the inferred scope may always be written |
| `ScopePolicy.InferredIsFirst` | packages/tekmemo-adapter-ai-sdk/src/scope/scope-policy.ts:105-127 | A scope asked for by name is it or is refused; else it is the first of conversation, user, project and workspace that may be written to, and only then the first allowed |
| `ScopePolicy.ReadableIffIncluded` | packages/tekmemo-adapter-ai-sdk/src/scope/scope-policy.ts:129-258 | What may be written is readable in the same context exactly when the flag of its scope is on, whatever metadata the caller supplied |
| `ScopePolicy.ReadableByOwners` | packages/tekmemo-adapter-ai-sdk/src/scope/scope-policy.ts:129-258 | Memory written in one context is readable in another exactly when its scope is allowed and switched on there and the user, the conversation, or the conversation with every participant, is the same: for any two contexts |
| `ScopePolicy.UnscopedReadable` | packages/tekmemo-adapter-ai-sdk/src/scope/scope-policy.ts:217-225 | Memory without a known scope is readable exactly where project memory is switched on |
| `ScopePolicy.WrittenIsReadable` | packages/tekmemo-adapter-ai-sdk/src/scope/scope-policy.ts:129-258 | With default flags everything that may be written is readable |
| `ScopePolicy.OwnFieldsWin` | packages/tekmemo-adapter-ai-sdk/src/scope/scope-policy.ts:138-155 | Every field of the metadata that the policy knows is its own, and the caller's other fields are kept |
| `ScopePolicy.WrittenMarks` | packages/tekmemo-adapter-ai-sdk/src/scope/scope-policy.ts:136-155 | Without a visibility it is private for a user, shared for a conversation or participants and system else; the name of the package is always put in |
| `ScopePolicy.CreateRecallFilters` | packages/tekmemo-adapter-ai-sdk/src/scope/scope-policy.ts:162-210 | The scopes collected for recall and the filters made of them |
| `ScopePolicy.RecallAgreesWithRead` | packages/tekmemo-adapter-ai-sdk/src/scope/scope-policy.ts:162-258 | Of what may be written, recall asks for exactly what may be read back |
| `ScopePolicy.RecallIsOwn` | packages/tekmemo-adapter-ai-sdk/src/scope/scope-policy.ts:162-210 | Recall asks for nobody else: its filters name the ids of the context itself |
| `ScopePolicy.ScopesFilter` | packages/tekmemo-adapter-ai-sdk/src/scope/scope-policy.ts:197-201 | Extra filters cannot name scopes; with no scope at all the filter on scopes is dropped |
| `ConnectorConfig.DeriveDefaultId` | packages/tekmemo-cli/src/commands/connectors.ts:294-300 | The search ends, and returns the type if free, else the type with the least free number from 2 on |
| `ConnectorConfig.ConnectorsFile.Add` | packages/tekmemo-cli/src/commands/connectors.ts:95-151 | The new file, or the error and the old file; the errors of usage and of a duplicate id, which a default id never is, exactly when they are due |
| `ConnectorConfig.ConnectorsFile.Remove` | packages/tekmemo-cli/src/commands/connectors.ts:176-198 | The new file, or the error and the old file |
| `ConnectorConfig.ValidateIdempotent` | packages/tekmemo-connectors/src/config.ts:93-155 | What was validated, written and validated again is what was validated |
| `ConnectorConfig.RowRead` | packages/tekmemo-connectors/src/config.ts:106-152 | What an accepted row says, field by field; a connector is enabled unless its row says otherwise |
| `ConnectorConfig.FileAcceptedIff` | packages/tekmemo-connectors/src/config.ts:93-105 | A file is accepted exactly when it is an object whose connectors are a list of acceptable rows, which are read one by one |
| `ConnectorConfig.CommandsKeepSound` | packages/tekmemo-cli/src/commands/connectors.ts:95-198 | Over any sequence of additions and removals ids stay distinct and the file valid |
| `ConnectorConfig.AddedAppends` | packages/tekmemo-cli/src/commands/connectors.ts:128-145 | An addition keeps every connector and puts the new one last, with every field as asked for |
| `ConnectorConfig.AddedIff` | packages/tekmemo-cli/src/commands/connectors.ts:110-145 | An addition succeeds exactly when the id is free and the mapping absent, blank or the text of a JSON object; a text that is no JSON is a usage error |
| `ConnectorConfig.RemoveUndoesAdd` | packages/tekmemo-cli/src/commands/connectors.ts:185-198 | Removing what was just added restores the list exactly when its id is not empty |
| `ConnectorConfig.EmptyIdStays` | packages/tekmemo-cli/src/commands/connectors.ts:179-183 | A connector added under an empty id can be removed by no id |
| `ConnectorConfig.SelectionSplits` | packages/tekmemo-connectors/src/config.ts:164-175 | Every connector of a type is selected by exactly one value of `enabled` |
| `Retry.WithRetry` | tooling/utils/src/retry.ts:68-107 | At most maxRetries + 1 calls; the result of the first attempt that succeeds, fails for good or is the last; the sleeps in between |
| `Retry.LastAttempt` | tooling/utils/src/retry.ts:90-104 | There is exactly one such attempt |
| `Retry.EndsAtMeans` | tooling/utils/src/retry.ts:90-104 | It is the first that succeeds, or fails for good, or uses up the retries |
| `Retry.DelaysDouble` | tooling/utils/src/retry.ts:52-59 | Without jitter the first delay is the base, each later one twice the one before, all up to the cap |
| `Retry.DelayBounds` | tooling/utils/src/retry.ts:48-63 | With jitter a delay is between half of the plain delay e, rounded down, and e - 1; without it is e |
| `Retry.JitterReaches` | tooling/utils/src/retry.ts:61-62 | Every whole number of that range is the delay for some random number |
| `Retry.TotalSleepBounded` | tooling/utils/src/retry.ts:90-104 | The total sleep is at most maxRetries * maxDelay and base * (2^maxRetries - 1) |
| `Retry.SleptExactly` | tooling/utils/src/retry.ts:90-104 | Below the cap and without jitter the sleep is exactly base * (2^n - 1) |
| `Retry.DefaultSleep` | tooling/utils/src/retry.ts:79-104 | With the default options there are at most three calls and less than 750 ms of sleep |
| `McpTools.InvalidCallsReachNobody` | packages/tekmemo-mcp-server/src/tools/handlers.ts:54-79 | Corollary: an unknown tool or bad arguments reach neither the callback nor the runtime, and are answered as a tool error |
| `McpServer.SingleAnswer` | packages/tekmemo-mcp-server/src/protocol/server.ts:177-210 | Corollary: a notification calls nothing and is not answered; anything else is answered under its id, or null where the request is not valid |
| `McpServer.IdReturnedIffValid` | packages/tekmemo-mcp-server/src/protocol/json-rpc.ts:142-170 | Corollary: a request with an id is answered under it exactly when the rest of it is valid |
| `McpServer.PositionalParamsRefused` | packages/tekmemo-mcp-server/src/protocol/json-rpc.ts:165-168 | Corollary: positional parameters are refused with a null id, even for a notification |
| `McpServer.ResourceFailsIff` | packages/tekmemo-mcp-server/src/resources/handlers.ts:97-258 | Corollary: a resource whose URI is valid fails exactly when it is of an agent session that is unnamed, unsupported, throws or has a null result; other errors become content |
| `ConnectorConfig.DefaultIdUnique` | packages/tekmemo-cli/src/commands/connectors.ts:294-300 | Corollary: the default id of a new connector is unique |
| `ConnectorConfig.RowAcceptedIff` | packages/tekmemo-connectors/src/config.ts:106-152 | Corollary: a row is accepted exactly when nothing in it is named like a token and its fields have their types; ids may be empty |
| `ConnectorConfig.LeaksSpelled` | packages/tekmemo-connectors/src/config.ts:13-21 | The names that are taken for a token, as text |
| `ScopePolicy.RecallScopesExact` | packages/tekmemo-adapter-ai-sdk/src/scope/scope-policy.ts:169-195 | Corollary: recall asks for exactly the scopes that may be written and are switched on |
| `ScopePolicy.OwnerlessMemoryReadable` | packages/tekmemo-adapter-ai-sdk/src/scope/scope-policy.ts:236-238 | Corollary: without a user id, user memory without one is readable exactly when the scope is allowed and its flag set, though it can be neither written nor recalled |
| `ScopePolicy.InferredPermittedIff` | packages/tekmemo-adapter-ai-sdk/src/scope/scope-policy.ts:113-126 | Corollary: with explicit scopes, exactly when the inferred scope may be written: the last resort, the first of them, can lack its ids |
| `McpServer.ToolErrorsAreResults` | packages/tekmemo-mcp-server/src/protocol/server.ts:261-273 | Corollary: a call of a tool by name is answered by a result even when it failed; it is a failure exactly where the output limit has no room for the error, or for the error that says that the result has no room |

## Left out

- File system: contents are a map from paths to text; temporary files, directories, symbolic links, permissions and the advisory lock between processes are not modelled, nor are reads outside the lock.
- Timers: a sleep is a number and the duration of an iteration a parameter; what an iteration goes on doing after its timeout is not modelled.
- Numbers: a JSON number is its literal and integers are exact; rounding to binary floating point, in literals, statistics and the generator, is not modelled, and neither are fractional or not-a-number sizes, limits and retry counts.
- JSON objects: members keep their order; the reordering of keys that look like array indices and the indentation of `JSON.stringify` are not modelled.
- Object graphs: property getters, proxies and prototypes with enumerable properties are not modelled.
- Tool arguments: the checks of payload size, memory kind, confidence, tags, source references and nested JSON objects are parameters; the work of the tags and references is in regular expressions.
- Tool results: the text of a result and of an error message is not modelled; whether it fits the output limit is a parameter of the server, and the truncation itself is `OutputLimits`.
- Resources: taking a URI apart into its path and its query, with the limits in it, is a parameter; the text of prompts, resources and schemas is not modelled.
- Messages that are not JSON values (only possible for a caller inside the process) are not modelled, and neither are results of the runtime that are undefined.
- Connectors: what a connector itself writes through the memory it is handed, secrets and the registry are part of the parameter that says what it ingests.
- Embedders: the validation of texts, models and users, the estimate of tokens by words and the loading of the pipeline, which is kept and retried after a failure, are not modelled.
- Retries: which errors can be retried is a parameter.
- ConnectorRunner.RunAgainWritesNothing: the recent memories are the same for both runs; that they grow by what is written in between is not modelled.
- ConnectorConfig.ConnectorsFile.Add: a file that fails validation is reported as one error, whatever the reason.
- Overlapping requests: reading a resource is one step, as nothing it does can write; what the runtime goes on doing after it was called is not modelled.
- Sync, file replication, graph store, consolidation, recall and chunking: their bodies are not part of this model.
- User interface, React hooks, e-mail, workers and hosting: wrappers that decide nothing here.
