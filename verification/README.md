# Verified model of the Datadog Lambda library's stateful parts

The library around a Lambda handler collects custom metrics and sends them in batches, records
how long modules take to load and turns that into spans, flattens payloads into span tags, and
converts trace ids between formats. This project models that logic in Dafny and proves what it
guarantees. `dafny verify dfyconfig.toml` checks everything.

## How the model is built

- **Metrics pipeline.** `SendLoop` is the asynchronous send loop of the processor as a transition
  system: the loop is cut at its awaits, and adds, timer ticks and `flush()` may come at every cut.
  An added metric is named by its place in the history of adds, so that "exactly once" can be said.
  `Processor` is the class, with real `Timer` and `Batcher` objects; each of its methods is proved to
  be one step of `SendLoop`. `SendLoopProperties` holds the results over whole runs. `InvocationFlow`
  puts the listener's promise reactions, microtasks and `setImmediate` around the loop;
  `MetricsListener` decides where a metric goes; `MetricsQueue` is the queue before the first
  invocation and its drain. `BatchKey` is the canonical JSON text that keys the batcher's map.
- **Cold start.** `RequireForest` says on values what load events build, `RequireTracer` is the
  mutable stack over linked nodes, `LoadIntervals` the nesting of their intervals. `ColdStart` says on
  values which spans that forest becomes, `ColdStartTracer` walks the linked nodes.
- **Payload tags.** `TagObject`, over payloads that may be shared or cyclic. `Object.entries`,
  `JSON.parse` and `JSON.stringify` are arbitrary functions.
- **Ids and scans.** `Numerals`, `StepFunctionIds`, `XrayService`, `DurableExecution`.

A client that rejects a request is assumed to have accepted nothing of it, and one that accepts it to
have accepted everything. Clocks, the API key, the SHA-256 digest and the client's answers are inputs.
Strings are sequences of UTF-16 code units where sorting, lone surrogates or cutting make that matter
(batch keys, tags), and plain Dafny strings elsewhere. Metric values and cold-start times are reals.

Where the code and its comments disagree the model follows the code:

- `src/metrics/listener.ts:170` announces that global tags are added to metrics for the API. Global
  tags are set only when the extension runs, and then no metric goes to the API, so it never happens
  (`MetricsListener.MetricsListener.SendDistributionMetricWithDate`).
- `src/utils/timer.ts:25` says no promise completes before `start()`. `complete()` resolves promises
  of a timer that was never started.
- `src/trace/step-function-service.ts:215` speaks of the upper or lower 64 bits of the hash. The second
  choice is bytes 8 to 15, not the last 64 of the 256 bits.
- `src/trace/context/extractors/durable-execution.ts:50` finds the highest-numbered checkpoint. Negative
  numbers are accepted too, and a latest checkpoint without usable headers is not replaced by an
  earlier one.

## Model

| member | source | states |
|---|---|---|
| SendLoop.Conservation | src/metrics/processor.ts:48-104 | After any interleaving of start, add, tick, flush, wake and reply, each added metric is, with multiplicity one, in exactly one place: acknowledged, in flight, pending, stranded after the final snapshot, lost with a failed batch, lost under a restored batch, or lost with the final batch |
| SendLoop.NextKeepsInv | src/metrics/processor.ts:65-104 | One step keeps the timer, batch and accounting invariants, among them that everything not lost leaves in add order |
| SendLoopProperties.RetryGuarantee | src/metrics/processor.ts:75-103 | With retries, a metric that was part of any attempt is acknowledged, in flight, pending, or was lost after three failed final attempts in a row; a refused batch is the beginning of the next one attempted |
| SendLoopProperties.RejectedAfterAllAttempts | src/metrics/processor.ts:94-103 | The loop promise is rejected only after three failed final attempts on one batch with retries, one without |
| SendLoopProperties.LostOnRestoreExactly | src/metrics/processor.ts:77-88 | With retries, an added metric is found nowhere any more, neither acknowledged nor in flight nor in the batcher nor in a failed final batch, if and only if it arrived while a regular send that failed was in progress; such a metric was never part of a request |
| SendLoopProperties.OrderedAtMostOnce | src/metrics/processor.ts:66-103 | For every batch key the acknowledged points, request after request, are a subsequence of the points added under it, and no metric is acknowledged twice |
| SendLoopProperties.AckedIsWhatWasAccepted | src/metrics/processor.ts:75-100 | Acknowledged is exactly what was in flight whenever the client accepted, in that order |
| SendLoopProperties.AttemptedAtMostOnce | src/metrics/processor.ts:66-103 | Without retries no metric is part of more than one request, failed ones and the one in flight included, and what waits in the batcher or is stranded was part of none |
| SendLoopProperties.RunningUntilFlush | src/metrics/processor.ts:37-66 | From `startProcessing` to `flush` the interval is set and the loop waits, is about to resume or is sending; before, it is not started |
| SendLoopProperties.TickSendsTheBatch | src/metrics/processor.ts:66-76 | A tick wakes the waiting loop, and the next request is exactly what the batcher holds; with an empty batcher there is none and the loop waits again |
| SendLoopProperties.DeliveredWithoutFlush | src/metrics/processor.ts:37-76 | At any time between `startProcessing` and `flush`, if no send fails, at most two resumptions and one tick with its request acknowledge everything added so far, each metric exactly once |
| SendLoopProperties.BoundedShutdown | src/metrics/processor.ts:37-66 | From the first flush on, the interval never runs again, at most one more regular send begins, the loop resumes at most six times, and until it has finished it is never stuck |
| SendLoopProperties.DeliveredByFlush | src/metrics/processor.ts:55-104 | If no send fails, every metric added before the first flush is acknowledged exactly once when the loop promise settles |
| SendLoopProperties.DeliveredIffBeforeSnapshot | src/metrics/processor.ts:55-104 | If no send fails, then once the loop promise has settled a metric is acknowledged, exactly once, if and only if it was added before the loop resumed to take the final snapshot |
| SendLoopProperties.StrandedForever | src/metrics/processor.ts:55-63 | A metric added after the final snapshot is never sent, not by a second flush either |
| Processor.Processor.constructor | src/metrics/processor.ts:25-32 | A new processor is in the initial state of the transition system |
| Processor.Processor.StartProcessing | src/metrics/processor.ts:37-43 | The Start step: the interval is set and the loop awaits an unresolved promise; a second call changes nothing |
| Processor.Processor.AddMetric | src/metrics/processor.ts:48-50 | The Add step: the current batcher gets the metric under its canonical key |
| Processor.Processor.OnInterval | src/utils/timer.ts:31-37 | The Tick step: with the interval set, the promise the loop awaits is resolved with false |
| Processor.Processor.Flush | src/metrics/processor.ts:55-63 | The Flush step: the interval is off, the loop exists, and a promise it awaits is resolved |
| Processor.Processor.ResumeAfterTimeout | src/metrics/processor.ts:66-100 | The Wake step: after false, an empty new batcher and one request with exactly what the old one held, or none and a new wait if that was empty; after true, the final snapshot with the first of three attempts with retries, one without, or the end if it is empty |
| Processor.Processor.ResumeAfterSend | src/metrics/processor.ts:75-88 | The Reply step: the loop waits again, and the old batcher object comes back if and only if the send failed and retries are on |
| Processor.Processor.ResumeAfterFinalAttempt | src/metrics/processor.ts:94-103 | The Reply step of a final attempt: the end on success, the same request again while attempts are left, and else a rejection |
| Timer.Timer.OnInterval | src/utils/timer.ts:31-37 | A tick resolves the pending promise with false and no other |
| Timer.Timer.NextTimeout | src/utils/timer.ts:44-54 | One promise per interval, a new one after it, and one that is already true on a completed timer |
| Timer.Timer.Complete | src/utils/timer.ts:59-71 | Afterwards every promise ever handed out is resolved, each exactly once, the pending one with true |
| BatchKey.SameKeyIffSameMetric | src/metrics/batcher.ts:29-36 | Two metrics have the same key if and only if host, type and name are equal and the tags are equal as multisets |
| BatchKey.SortedPermutationIsUnique | src/metrics/batcher.ts:34-34 | Any two sorted arrangements of the same tags are equal, so the sorting algorithm does not matter |
| BatchKey.QuoteIsPrefixFree | src/metrics/batcher.ts:30-35 | The JSON text of a string, escapes and surrogates included, determines the string and where the text ends |
| BatchKey.ShortEscapes | src/metrics/batcher.ts:30-35 | The two-unit escapes of section 7 of RFC 8259 that `JSON.stringify` uses |
| BatchKey.LongEscapes | src/metrics/batcher.ts:30-35 | The other control units and lone surrogates are escaped by number, and everything else stands for itself |
| JsStrings.LeqMeans | src/metrics/batcher.ts:34-34 | The order of the tags: a prefix comes first, otherwise the first different code unit decides |
| Batcher.Batcher.Add | src/metrics/batcher.ts:13-20 | The map stays the grouping of all added metrics: one entry per key in first-add order, name, host and tags of the first, points concatenated in add order |
| Batcher.Batcher.ToAPIMetrics | src/metrics/batcher.ts:25-27 | One record per key in first-add order, of type "distribution", with the name and the tags of the first metric, and for each point added under the key, in order, its value and the second that contains its millisecond |
| Batches.SameEntryIffSameMetric | src/metrics/batcher.ts:13-36 | Two metrics meet in one entry if and only if host, name and tags, as a multiset, are equal |
| Batches.MergedAfterAdd | src/metrics/model.ts:59-67 | An add changes only the entry of its own key: union with it, or a new entry |
| Batches.FirstKeysGrow | src/metrics/batcher.ts:13-20 | A key keeps its place however much is added later |
| Batches.FirstKeysAreTheKeys | src/metrics/batcher.ts:13-20 | There is an entry for a key if and only if a metric was added under it |
| Batches.FirstWithIsFirst | src/metrics/model.ts:59-67 | Name, host and tag order of an entry are those of the first metric added under its key |
| MetricsModel.ToAPIPoint | src/metrics/model.ts:44-48 | A point keeps its value; its second is the one that contains its millisecond |
| InvocationFlow.FlushSeesEverything | src/metrics/listener.ts:103-115 | When the flush begins, what was added to the processor starts with all metrics submitted before onCompleteInvocation was called and is in submission order, whenever the key arrived |
| InvocationFlow.DeliveredOnComplete | src/metrics/listener.ts:103-134 | If the processor could be created and no send fails, every metric submitted before onCompleteInvocation is acknowledged exactly once when it is over |
| InvocationFlow.FlushComes | src/metrics/listener.ts:106-115 | After onCompleteInvocation and with a processor, the event loop reaches the flush by draining its microtasks, one setImmediate callback and its microtask |
| InvocationFlow.CompletionComes | src/metrics/listener.ts:106-134 | After that, at most six resumptions of the send loop and the return of `flush` end onCompleteInvocation |
| InvocationFlow.CompletionWithoutProcessor | src/metrics/listener.ts:103-134 | If the processor cannot be created, onCompleteInvocation ends once the microtasks have run |
| InvocationFlow.CreatedProcessorRuns | src/metrics/listener.ts:195-207 | A created processor waits for its first interval, and the metrics submitted so far are queued to be added to it, in order |
| InvocationFlow.NothingWithoutProcessor | src/metrics/listener.ts:195-207 | As long as no processor has been created, and forever if it cannot be, nothing is added and no send begins |
| MetricsListener.MetricsListener.OnStartInvocation | src/metrics/listener.ts:76-101 | A processor exists if and only if there is neither extension nor log forwarding; the extension check is remembered |
| MetricsListener.MetricsListener.SendDistributionMetricWithDate | src/metrics/listener.ts:136-189 | With the extension, only a point for it, unless older than four hours; without it, with log forwarding or if forced, only a log line with the floored second; else, with a processor and outside FIPS mode, one submitted metric with exactly the call's name, point and tags; else nothing. In FIPS mode nothing is ever submitted |
| MetricsListener.MetricsListener.OnCompleteInvocation | src/metrics/listener.ts:103-107 | With a processor the part before the first await is the Complete step, without one nothing is awaited |
| MetricsListener.MetricsListener.OnEvent | src/metrics/listener.ts:108-134 | Later steps of the event loop are those of `InvocationFlow`, and the processor is forgotten exactly when onCompleteInvocation is over |
| MetricsQueue.MetricsQueue.Push | src/metrics/queue.ts:30-37 | A push appends, and on a full queue first drops everything in it |
| MetricsQueue.QueueHoldsTheLatest | src/metrics/queue.ts:30-37 | After any pushes on an empty queue it holds the latest ones in push order |
| MetricsQueue.KeptIsRemainder | src/metrics/queue.ts:30-37 | After n > 0 pushes these are ((n - 1) mod 1024) + 1 |
| MetricsQueue.RecentPicks | src/metrics/listener.ts:145-149 | Of the calls for the extension exactly those not older than 14 400 000 milliseconds are kept, in order |
| MetricsQueue.SendQueueMetrics | src/index.ts:310-325 | The drain empties the queue and hands its metrics on in push order, each with its own time if it has one: to the extension the recent ones, without it to the log one line each, or all of them to the processor; in FIPS mode or without a processor none |
| RequireForest.RenderingGivesEventsBack | src/runtime/require-tracer.ts:27-62 | For every event sequence, rendering all roots, dropped ones included, and the open nodes gives the events back without unmatched ends and clears |
| RequireForest.RunOfRender | src/runtime/require-tracer.ts:27-49 | Feeding the events of any forest to the tracer rebuilds that forest |
| RequireForest.RenderIsInjective | src/runtime/require-tracer.ts:27-49 | The events of a closed forest determine it |
| RequireForest.EveryLoadIsOneNode | src/runtime/require-tracer.ts:27-49 | When all loads have ended, every load is exactly one node, and preorder is load order |
| LoadIntervals.RunIsTimed | src/runtime/require-tracer.ts:28-45 | Under a non-decreasing clock every node contains its children's intervals, and siblings and roots are ordered and do not overlap |
| LoadIntervals.WellTimedMeans | src/runtime/require-tracer.ts:28-45 | What that says about any two siblings and about the children of each |
| LoadIntervals.ClockedMeans | src/runtime/require-tracer.ts:28-42 | The assumption on the clock: the times of loads and ends never decrease |
| RequireTracer.RequireTracer.PushNode | src/runtime/require-tracer.ts:28-38 | The linked nodes make the Load step: each stack entry is the last child of the one below it |
| RequireTracer.RequireTracer.PopNode | src/runtime/require-tracer.ts:40-49 | The linked nodes make the Loaded step; an end without an open node changes nothing |
| RequireTracer.RequireTracer.ClearTraceTree | src/runtime/require-tracer.ts:60-62 | Clearing drops the closed roots and keeps the open nodes |
| ColdStart.PruningIsAFilter | src/trace/cold-start-tracer.ts:79-111 | On nested intervals the spans started are, in preorder, those of the nodes that last at least the minimum, have no ignored id on their root path, and no proper ancestor of exactly the minimum |
| ColdStart.SpanStartedIff | src/trace/cold-start-tracer.ts:79-111 | The same for a single node, with the filter spelled out |
| ColdStart.VisitsArePreorder | src/trace/cold-start-tracer.ts:101-110 | The nodes the filter ranges over are all nodes of the forest, each once, in preorder |
| ColdStart.VisitsTellThePlace | src/trace/cold-start-tracer.ts:101-110 | The path and the ancestors of each of them are those that lead to it in the forest |
| ColdStart.SpanNames | src/trace/cold-start-tracer.ts:67-77 | Which of the four names a span gets, by the beginning of the file name and by whether it contains a slash |
| ColdStart.SpanParents | src/trace/cold-start-tracer.ts:98-109 | Spans are numbered in preorder; a root's span has the target parent, any other the span of its node's direct parent |
| ColdStart.LogIsBracketed | src/trace/cold-start-tracer.ts:101-110 | Replaying the log, each span starts under the innermost open one and only that one may finish; all are finished at the end |
| ColdStart.LogIsChronological | src/trace/cold-start-tracer.ts:88-110 | Starts and finishes carry non-decreasing times, so child spans lie inside their parents |
| ColdStart.LogRendersPrunedForest | src/trace/cold-start-tracer.ts:79-111 | Read as load events, the log is the rendering of the pruned forest: every remaining node starts and finishes one span at its own times |
| ColdStart.SpansOfAnyRun | src/trace/cold-start-tracer.ts:44-46 | For any clocked load events, clears included, the spans of the current roots are those of the filter below their parents, the log is bracketed and in time order, and nothing in it is later than the last event |
| ColdStart.LoadSpanCoversRoots | src/trace/cold-start-tracer.ts:35-41 | The load span ends with the last root or where the current span starts, whichever is earlier, and covers every root if and only if the last root ends no later than the current span starts |
| ColdStartTracer.ColdStartTracer.TraceTree | src/trace/cold-start-tracer.ts:79-111 | The walk over the linked nodes makes exactly the log of the node's tree |
| ColdStartTracer.ColdStartTracer.Trace | src/trace/cold-start-tracer.ts:34-47 | A cold start logs the load span first, finished, and hangs the roots below it; otherwise they hang below the given parent |
| ColdStartTracer.TraceLoaded | src/trace/listener.ts:210-233 | At the end of an invocation, after any clocked load events on the linked nodes: on a cold start the new calls begin with the load span, below the given parent, and the roots' spans hang below it; otherwise there is none and they hang below the given parent; nothing without roots or if skipped; the roots are then dropped and the open nodes stay |
| TagObject.TagObject | src/utils/tag-object.ts:5-40 | On any payload, cyclic ones included, the method ends and sets exactly the tags of the flattening |
| TagObject.FlattenReportsLeaves | src/utils/tag-object.ts:5-40 | The tags are one for each leaf of the payload unfolded within the depth budget, in order, under the path that leads to it |
| TagObject.EveryTagReportsALeaf | src/utils/tag-object.ts:10-48 | Paths are within the budget, and each tag reports its leaf: a string that is not JSON or a cut-off value as "redacted" under a redactable name and else by its first 5000 units, all of a shorter one; null, numbers and booleans, parsed ones included, as they are |
| TagObject.ReachedPartsAreReported | src/utils/tag-object.ts:23-39 | Whatever part of the payload can be reached within the depth, through fields and parsed strings, its tags are among those set |
| TagObject.LeafTags | src/utils/tag-object.ts:6-33 | What a value that is not looked into sets under its own key, by its kind |
| TagObject.RedactedIffEndsWithName | src/utils/tag-object.ts:42-48 | A key is redacted if and only if it is one of the four names or ends with a dot and one of them |
| TagObject.NothingShownIffConcealed | src/utils/tag-object.ts:5-48 | No text but "redacted" is set if and only if, within the budget, every string that is not JSON and every cut-off value stands directly under a redactable name (or reads "redacted") and there is no number and no boolean |
| TagObject.SecretStringIsHiddenIff | src/utils/tag-object.ts:23-31 | A string under a redactable name sets no text but "redacted" if and only if it is not JSON or what it parses to is concealed itself |
| TagObject.PasswordOfDigitsIsShown | src/utils/tag-object.ts:23-34 | The payload `{"password": "123"}` sets the digits, because they parse to a number |
| TagObject.LargerLimitSameTags | src/utils/tag-object.ts:10-20 | For a payload explored completely within the limit, any larger limit sets the same tags |
| TagObject.SameKeyIffSameText | src/utils/tag-object.ts:35-39 | Two tags have the same key if and only if the paths of their leaves, joined with dots, read the same |
| TagObject.TagKeysAreDistinctIff | src/utils/tag-object.ts:35-39 | No tag key is set twice if and only if in no object reached two fields have leaves with the same dotted key |
| TagObject.TagKeysAreDistinct | src/utils/tag-object.ts:35-39 | If in every object reached no key is another key of it, or another one followed by a dot and more, no tag key is set twice |
| TagObject.SafeKeysArePrefixFree | src/utils/tag-object.ts:35-39 | For the keys of an object: whatever its fields hold, each free of double tag keys on its own, no tag key is set twice, if and only if no key is another one followed by a dot and more |
| TagObject.ExtendedKeysCollide | src/utils/tag-object.ts:35-39 | For any keys of which one is another one followed by a dot and a rest, the object whose shorter key holds `{rest: true}` sets a tag key twice |
| StepFunctionIds.BigEndianMeans | src/trace/step-function-service.ts:224-231 | Of the eight selected bytes the first weighs most |
| StepFunctionIds.IdIsLow63Bits | src/trace/step-function-service.ts:209-236 | For every digest the id is the decimal text of its eight selected bytes read big-endian modulo 2^63, or of 1 if that is 0 |
| XrayService.ParseOfJoin | src/trace/xray-service.ts:73-87 | Parsing inverts joining for names and values free of `;` and `=`, with any trailing fields |
| XrayService.ParsesIff | src/trace/xray-service.ts:73-87 | A header parses if and only if it has three fields and each of the first three contains `=` |
| XrayService.ValueEndsAtNextEquals | src/trace/xray-service.ts:77-79 | The value of a field is what stands between its first `=` and the next |
| XrayService.TraceIdIsLow63Bits | src/trace/xray-service.ts:187-201 | The conversion succeeds if and only if the third part is 24 hexadecimal digits, and gives the low 63 bits of the last 16 |
| XrayService.ExtractionsAgreeIffTopBitClear | src/trace/xray-service.ts:203-222 | On a zero-padded Datadog id the direct extraction and the X-Ray conversion agree if and only if the top bit is clear |
| XrayService.DirectExtractionCases | src/trace/xray-service.ts:203-222 | There is no context if and only if the header does not parse or the third part of its trace id does not start with eight zeros; otherwise the decimal forms of the rest of that part and of the parent id, or an exception if one is empty or not hexadecimal |
| XrayService.ParentIdConvertsIff | src/trace/xray-service.ts:177-185 | A parent id converts if and only if it is 16 hexadecimal digits |
| XrayService.ParentIdIsExact | src/trace/xray-service.ts:177-222 | Sixteen hexadecimal digits convert to the decimal text of the same number, and a context extracted directly has the same parent id |
| Numerals.ValueOfPrint | src/trace/xray-service.ts:222-222 | Reading a printed number gives it back |
| Numerals.NoLeadingZero | src/trace/xray-service.ts:222-222 | A printed number has no leading zero, except for 0 itself |
| Numerals.DigitAlphabet | src/trace/xray-service.ts:222-222 | The digits are those of the hexadecimal alphabet, upper and lower case |
| DurableExecution.AcceptsCanonicalDecimals | src/trace/context/extractors/durable-execution.ts:39-47 | For integers up to 2^53 - 1 in size, a name is accepted with number n if and only if it is the prefix followed by the canonical decimal of n |
| DurableExecution.RoundedNamesAreRefused | src/trace/context/extractors/durable-execution.ts:39-47 | Whatever doubles do to larger integers, the prefix with a decimal is refused unless the double nearest to it prints as that decimal |
| DurableExecution.TextIsCanonical | src/trace/context/extractors/durable-execution.ts:44-45 | The canonical decimal of a number: its digits without a leading zero, after a minus sign if it is negative |
| DurableExecution.FindBest | src/trace/context/extractors/durable-execution.ts:63-70 | The scan finds the first operation with the largest number, or none if no operation has one |
| DurableExecution.BestIsUnique | src/trace/context/extractors/durable-execution.ts:63-70 | That contract determines the answer |
| DurableExecution.FindLatestCheckpointHeaders | src/trace/context/extractors/durable-execution.ts:59-84 | The headers come from the latest checkpoint alone: what its payload parses to, even if that is of no use, and its step result only if it has no payload; they must be a non-empty string that parses to an object |

## Left out

- HTTP, UDP, KMS, Secrets Manager, the extension's endpoint and the file system: I/O. Only a client that accepts or rejects, a statsD list and a stdout list remain.
- dd-trace, span wrappers and patching: foreign code. A span is its id, parent, name, start and finish.
- Event extractors other than the durable one, trigger parsing and span inference: long tables whose properties can be read off one branch.
- The `datadog()` wrapper and the trace listener, except the queue drain and the tracing of module loads: orchestration of effects.
- The waiting time between final attempts: only their number and their answers are modelled, as documented for the promise-retry library.
- `union` with a metric that is not a distribution: the type has no other kind.
- NaN and infinite metric values, invalid dates, a NaN depth: metric values and times are numbers.
- ToAPIPoint: does not carry the metric's host, because the API record of the code does not either.
- InvocationFlow.DeliveredOnComplete: covers one invocation and one processor; metrics submitted after a processor was replaced by the next invocation are not followed.
- The array identity of the root list: `getTraceTree` returns the live array, here the list is a value, so a caller that keeps it does not see later roots.
- ExtractDDContext: keeps the sampled field as text; `parseInt` on it is not part of this model. Whitespace that `BigInt` would accept around digits counts as a wrong digit.
- AcceptsCanonicalDecimals: speaks of integers up to 2^53 - 1 in size; how larger ones are rounded and printed is an arbitrary function here.
- A missing `children` list of a node counts as an empty one.
