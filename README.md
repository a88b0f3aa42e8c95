# chunkedBackpressure, modelled in Dafny

This project models `chunkedBackpressure` from the rxjs-operators library. The operator turns a
stream of values `T` into a stream of results `R`. It calls a delegate `T[] -> Observable<R>`
on chunks of source values. While a result stream is still running, new values are buffered,
and the whole buffer becomes the next chunk once that stream finishes.

The operator merges three kinds of event into one stream:

- source values;
- a `DONE` marker appended to the source;
- an `IDLE` signal that the `finalize` of every result stream feeds back through the subject `idle$`.

A `scan` reducer folds these events over an accumulator `[data, bDone]`. `data` is `NOTHING`,
a non-empty buffer, or the result stream just produced by the delegate. Only result streams
pass the `isBusy` filter, and `concatMap` subscribes to them one after another.

- `utils.dfy` (module `Utils`) holds strict equality, `isNotNil` over a `null | undefined |
  value` datatype, and `arrayPush` on a `JsArray` class, which grows an array in place and
  hands back the same object.
- `backpressure.dfy` (module `Backpressure`) holds the reducer as a pure `Step` over a
  datatype `Nothing | Buffer(items) | Busy(chunk)`. The delegate is not interpreted: the
  result stream `aDelegate(chunk)` is represented by `Busy(chunk)`, and each step reports the
  delegate call it made and whether it called `idle$.complete()`. The runtime tests `isIdle`,
  `isDone`, `isNothing`, `isBuffer` and `isBusy` become the constructors' discriminators. `Run`
  folds `Step` over a list of events.
- `BackpressureMarbles` (same file) replays the repository's marble test as an event order.
- `pipeline.dfy` (module `Pipeline`) holds the class `Chunked`. It carries the accumulator,
  with its buffer as a `JsArray` pushed through `ArrayPush`. It also carries the `concatMap`
  queue of result streams that have not finished, and whether the source and `idle$` are
  still open. Each event method handles one event, and each is proved to apply `Step`. The class
  invariant ties the reducer to the queue. At most two result streams are ever queued, and
  two only after DONE. The combined stream completes exactly when the source is done and the
  queue is drained, and by then every source value has been handed to the delegate exactly
  once, in arrival order.

Two values in a row from an idle start do not form one chunk. The first is handed to the
delegate alone (src/operators/backpressure.ts:132-136). The second starts a new buffer and
waits for the IDLE of that first result stream (lines 138-139 and 79-83).
`BackpressureMarbles.OpeningSegment` states this.

## Model

| member | source | states |
|---|---|---|
| Utils.IsEqual | src/utils/utils.ts:1 | strict identity: true exactly when the two values are the same value |
| Utils.IsEqualReflexive | src/utils/utils.ts:1 | `isEqual(a, a)` holds for every value |
| Utils.IsEqualSymmetric | src/utils/utils.ts:1 | `isEqual(a, b)` equals `isEqual(b, a)` |
| Utils.IsNotNil | src/utils/utils.ts:8-10 | the result is true exactly for a defined value, and false exactly for `null` or `undefined` |
| Utils.JsArray.Push | src/utils/utils.ts:4 | `push` appends the element at the end of the array's contents |
| Utils.ArrayPush | src/utils/utils.ts:3-6 | the returned array is the given one, its length grew by one, its earlier elements are unchanged, and its last element is the pushed one |
| Backpressure.Init | src/operators/backpressure.ts:141 | the seed is well formed, not done, has nothing buffered and does not pass the busy filter |
| Backpressure.Step | src/operators/backpressure.ts:67-141 | a delegate call is made exactly when the new data passes the busy filter, so a busy state never survives a step; the done flag becomes `old flag or DONE`; `idle$` is completed only into `[NOTHING, true]`; buffers and chunks stay non-empty; pending values plus the new value equal the chunk handed over plus the new pending values |
| Backpressure.ValueWhenIdleInvokes | src/operators/backpressure.ts:132-136 | a value at `NOTHING` calls the delegate with exactly `[v]`, moves to busy and keeps the done flag |
| Backpressure.ValueWhenBusyStartsBuffer | src/operators/backpressure.ts:138-139 | a value while busy with no buffer starts the buffer `[v]` and makes no delegate call |
| Backpressure.ValueWhenBufferingAppends | src/operators/backpressure.ts:123-127 | a value while buffering is appended at the end of the buffer and makes no delegate call |
| Backpressure.IdleFlushesBuffer | src/operators/backpressure.ts:79-83 | IDLE with a buffer hands the whole buffer to the delegate, leaves no buffer and keeps the done flag |
| Backpressure.IdleWithoutBuffer | src/operators/backpressure.ts:85-94 | IDLE without a buffer returns to `NOTHING`, makes no call, and completes `idle$` if and only if the source is done |
| Backpressure.DoneFlushesBuffer | src/operators/backpressure.ts:103-107 | DONE with a buffer hands the buffer to the delegate, sets the done flag and does not complete `idle$` |
| Backpressure.DoneWhenIdleCloses | src/operators/backpressure.ts:109-118 | DONE at `NOTHING` completes `idle$` at once and stays at `[NOTHING, true]` |
| Backpressure.DoneWhenBusyDefers | src/operators/backpressure.ts:109-118 | DONE while busy with no buffer goes to `[NOTHING, true]` without completing `idle$` |
| Backpressure.Run | src/operators/backpressure.ts:67-141 | over any list of events, the done flag never resets, a completed `idle$` implies the done flag, and from a well-formed state every delegate chunk is non-empty |
| Backpressure.RunConservesValues | src/operators/backpressure.ts:61-141 | over any list of events, the delegate chunks concatenated, followed by the remaining buffer, equal the old buffer followed by the source values in arrival order: no value is lost, duplicated or reordered |
| Backpressure.RunDoneFlag | src/operators/backpressure.ts:83-139 | after any list of events the done flag is true exactly when it was true before or a DONE was delivered |
| Backpressure.BufferAbsorbsValues | src/operators/backpressure.ts:123-127 | while buffering, any run of values only extends the buffer, in order, with no delegate call |
| Backpressure.BurstBecomesOneChunk | src/operators/backpressure.ts:75-139 | all values that arrive while one result stream runs reach the delegate as one chunk, in arrival order, at that stream's IDLE |
| Backpressure.EmissionsAreCalls | src/operators/backpressure.ts:144-148 | over any list of events, the accumulators that `map` and `filter(isBusy)` (`Emitted`) pass on to `concatMap` are exactly the delegate calls, each once and in call order |
| Backpressure.EmptySourceCloses | src/operators/backpressure.ts:109-118 | an empty source, DONE first from `[NOTHING, false]`, completes `idle$` with zero delegate calls |
| BackpressureMarbles.MarbleTrace | src/operators/backpressure.spec.ts:10-19 | for the event order the marble frames give, value before IDLE on a shared frame, there are exactly the eight delegate calls with the chunks listed, and then `idle$` is completed |
| BackpressureMarbles.OpeningSegment | src/operators/backpressure.ts:132-139 | from the seed, two values then an IDLE give two delegate calls, `[x0]` and then `[x1]`: the second value is not added to the first chunk |
| BackpressureMarbles.ClosingSegment | src/operators/backpressure.ts:85-118 | IDLE, a value, DONE while that value's stream runs, then its IDLE: exactly one delegate call, with that value alone, and the run ends at `[NOTHING, true]` with `idle$` completed |
| Pipeline.Chunked.constructor | src/operators/backpressure.ts:43-59 | subscribing creates fresh state: the seed `[NOTHING, false]`, both inputs open, no queued result stream |
| Pipeline.Chunked.OnValue | src/operators/backpressure.ts:123-139 | a source value applies `Step`; while buffering, the buffer stays the same array object, grown through `arrayPush`, and a new buffer is a fresh array; any delegate result joins the end of the `concatMap` queue, and the class invariant is kept |
| Pipeline.Chunked.OnSourceDone | src/operators/backpressure.ts:99-118 | DONE applies `Step`; a flushed buffer is queued behind the running result stream, and `idle$` is completed only when nothing runs |
| Pipeline.Chunked.OnResultComplete | src/operators/backpressure.ts:52-55 | the subscribed result stream finishes and leaves the queue; its IDLE applies `Step` while `idle$` is open and is dropped after that |
| Pipeline.Chunked.IsComplete | src/operators/backpressure.ts:59-148 | the combined stream has completed exactly when the source is done and no result stream is queued, and then the delegate chunks concatenated equal all source values in order |
| Pipeline.Chunked.Active | src/operators/backpressure.ts:144-148 | the subscribed chunk is the head of the `concatMap` queue and is non-empty; at most two result streams are queued, and two only after DONE |

## Left out

- `thisThenThat` and `thisThenThats` (src/operators/thisthenthat.ts) are not part of this model. They only compose rxjs `merge`, `share`, `takeUntil`, `take`, `NEVER` and `EMPTY`, and their behaviour depends on that library's scheduling.
- The rxjs plumbing (`defer`, `merge`, `endWith`, `Subject`, `finalize` and the subscription side of `concatMap`) is reduced to the three event kinds and an explicit queue. The order in which events of the same instant reach the reducer is chosen by the caller of the class methods.
- Only the head of the queue is subscribed. This is how the model expresses "one result stream at a time". It is an assumption about `concatMap`, not something proved about it.
- The values the result streams emit are not modelled. Only when each result stream starts and finishes matters to the operator's state.
- Errors and cancellation are not modelled. The source has no logic for them; they come from rxjs.
- The order in which `merge(obj$, idle$)` subscribes is not modelled (src/operators/backpressure.ts:59). `obj$` is subscribed before `idle$`. If the source emits and the delegate's stream completes at once during that subscription, the IDLE is sent to `idle$` before anything listens and is lost. The model assumes every IDLE reaches the reducer while `idle$` is open.
- Timing, including the real-timer test in src/operators/backpressure.spec.ts, is not modelled.
- Utils.IsEqualReflexive: does not model `NaN === NaN` being false, because values are modelled as a type with mathematical equality; the operator only compares symbols.
- The runtime tests on symbols and `isObservable` are replaced by datatype constructors.
- Pipeline.Chunked.OnValue: the chunk handed to the delegate is a value snapshot, so the model does not follow that JavaScript array after the handover. The operator never pushes onto a handed-over array: the next value starts a fresh array (src/operators/backpressure.ts:139).
