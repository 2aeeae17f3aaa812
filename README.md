# soabase-stages: the outcome algebra of a stage chain

soabase-stages builds chains of asynchronous stages over `CompletionStage<Optional<T>>`. Each
stage of a chain settles in one of three ways. A present Optional carries a value on. An empty
Optional aborts the chain. An exception fails it. `thenIf` and its relatives run user code only
for a present value. The terminal handlers `whenComplete`, `whenAborted`, `whenFailed` and
`whenFinal` react to the other outcomes. `withTimeout` races a chain against a timer. A `Tracing`
is told when each traced task starts and ends. `Cancelable` is a tracing that can cancel the
chain and interrupt its running threads.

This project models that core:

- `outcomes.dfy` (`Outcomes`): how a stage settles. An outcome is `Present(v)`, `Absent`,
  `Failed(e)` or `Unsettled` (it never completes). User code gives a `Reply`: it returns,
  throws or hangs. The observable calls are the tracer's start, success and fail callbacks,
  plus `Invoked` for each call into user code.
- `timeout.dfy` (`Timeout`): `Timeout.within` and `failAfter`. The timer's
  `CompletableFuture` is a class whose `complete` and `completeExceptionally` take effect only
  once. `applyToEither` takes the side that settles first. When both sides have settled, an
  explicit `Race` value says which one came first.
- `aborted.dfy` (`Aborted`) and `abort_wrapper.dfy` (`AbortWrapper`): the static helpers over
  `CompletionStage<Optional<T>>`.
- `staged_future.dfy` (`StagedFutures`): `StagedFutureImpl`. Every combinator maps the previous
  chain to the next one, together with the calls it made along the way.
- `builder.dfy` (`Builder`): `StagedFutureBuilderImpl`, which creates the first stage.
- `chains.dfy` (`Chains`): whole chains, as a list of combinator calls run in order. The
  scenarios of the repository's `TestStaged` become lemmas about all inputs.
- `cancelable.dfy` (`Cancellation`): `Cancelable` as a class with its flag, its set of active
  threads and the calls it forwards to the next tracer. Thread interrupt flags live in a
  `Threads` object.
- `tracing.dfy` (`Tracing`), `scans.dfy` (`Scans`) and `decimal.dfy` (`Decimal`):
  `Tracing.getContext`, a loop over the stack trace, proved against a scan defined on sequences.

## Model

| member | source | states |
|---|---|---|
| Outcomes.OfFutureToFuture | src/main/java/io/soabase/stages/StagedFutureImpl.java:68-71 | Exposing a chain's outcome as a `CompletionStage<Optional<T>>` and reading it back loses nothing |
| Outcomes.ToFutureOfFuture | src/main/java/io/soabase/stages/StagedFutureImpl.java:60-66 | A stage adopted by a chain is exposed again unchanged |
| Outcomes.OfReply | src/main/java/io/soabase/stages/StagedFutureImpl.java:55 | The outcome of running a supplier: present with the Optional's value iff it returns a non-empty Optional, absent iff it returns an empty one, failed with the thrown exception iff it throws, unsettled iff it hangs |
| Outcomes.Skip | src/main/java/io/soabase/stages/StagedFutureImpl.java:78-84 | A chain that is not present is passed on as it is: absent stays absent, a failure keeps its exception, unsettled stays unsettled |
| Outcomes.SomeOf | src/main/java/io/soabase/stages/StagedFutureImpl.java:91 | `Optional.of` around user code: a returned value becomes present, a thrown exception is kept, a hang stays a hang |
| Outcomes.FutureOfSome | src/main/java/io/soabase/stages/StagedFutureImpl.java:106 | `thenApply(Optional::of)` on a stage: a value becomes present, an exception is kept, a stage that never completes stays so |
| Outcomes.TracerCalls | src/main/java/io/soabase/stages/StagedFutureImpl.java:178-189 | The tracer sees exactly the calls made other than the calls into user code: every such call is seen, nothing else is, and there are no more of them than calls made |
| Outcomes.TracerCallsAppend | src/main/java/io/soabase/stages/StagedFutureImpl.java:178-189 | The tracer calls of two runs in sequence are those of the first followed by those of the second |
| Outcomes.EndsMatchedAppend | src/main/java/io/soabase/stages/StagedFutureImpl.java:178-189 | Two call sequences in which every end callback follows a start keep that property when joined |
| Timeout.TimeoutError | src/main/java/io/soabase/stages/Timeout.java:76 | The timer's exception is a TimeoutException whose message is "Timeout after " followed by the duration |
| Timeout.CompletableFuture.Complete | src/main/java/io/soabase/stages/Timeout.java:78 | `complete(v)` settles a pending future with `v` and reports true; a settled future is left alone and it reports false |
| Timeout.CompletableFuture.CompleteExceptionally | src/main/java/io/soabase/stages/Timeout.java:80 | `completeExceptionally(e)` settles a pending future with `e` and reports true; a settled future is left alone and it reports false |
| Timeout.TimerOutcome | src/main/java/io/soabase/stages/Timeout.java:75-81 | Without a default the timer fails with the timeout exception; with one it never fails, and its value is the supplier's |
| Timeout.TimerTask | src/main/java/io/soabase/stages/Timeout.java:75-81 | The scheduled task settles a still pending future with the timer's outcome and changes nothing else |
| Timeout.InternalFailAfter | src/main/java/io/soabase/stages/Timeout.java:73-83 | A fresh future, once the task has run, holds the timer's outcome |
| Timeout.FailAfter | src/main/java/io/soabase/stages/Timeout.java:57-59 | `failAfter(d)` settles with a TimeoutException |
| Timeout.FailAfterDefault | src/main/java/io/soabase/stages/Timeout.java:69-71 | `failAfter(d, s)` never fails with a timeout; it has a value iff the supplier returns, and that value is the supplier's |
| Timeout.ApplyToEither | src/main/java/io/soabase/stages/Timeout.java:33 | The result is one of the two futures, and it never settles only when neither does |
| Timeout.Within | src/main/java/io/soabase/stages/Timeout.java:31-34 | A future raced against a failing timer always settles |
| Timeout.WithinDefault | src/main/java/io/soabase/stages/Timeout.java:45-48 | A future raced against a default timer never settles only when the future hangs and the supplier does not return |
| Timeout.ApplyToEitherSymmetric | src/main/java/io/soabase/stages/Timeout.java:33 | The race does not depend on which future is the receiver, only on which one settles first |
| Timeout.LoserIgnored | src/main/java/io/soabase/stages/Timeout.java:33 | Once the future wins, the timer's outcome has no effect |
| Timeout.WithinFutureWins | src/main/java/io/soabase/stages/Timeout.java:31-48 | A future that settles first keeps its own outcome, with or without a default |
| Timeout.WithinTimerWins | src/main/java/io/soabase/stages/Timeout.java:31-34 | When the timer fires first, or the future hangs, the result is the TimeoutException "Timeout after d" |
| Timeout.WithinDefaultTimerWins | src/main/java/io/soabase/stages/Timeout.java:45-48 | When the timer fires first, the result is the supplier's value; a supplier that throws or hangs leaves the future's outcome |
| Aborted.NewAbortException | src/main/java/io/soabase/stages/Aborted.java:28-32 | Aborted.AbortException carries the message "Aborted" |
| Aborted.FlatMap | src/main/java/io/soabase/stages/Aborted.java:44 | `optional.flatMap(handler)` calls the handler iff the Optional is present and then takes its Optional; otherwise the outcome is passed on |
| Aborted.OnEmpty | src/main/java/io/soabase/stages/Aborted.java:86 | The handler runs iff the Optional is empty; a present value becomes empty; a failure is passed on |
| Aborted.WhenComplete | src/main/java/io/soabase/stages/Aborted.java:42-45 | `whenComplete` uses no executor: it runs on the thread that completes the stage, or on the calling thread when the stage is already complete |
| Aborted.WhenCompleteAsync | src/main/java/io/soabase/stages/Aborted.java:56-59 | `whenCompleteAsync` runs on the default pool |
| Aborted.WhenCompleteAsyncOn | src/main/java/io/soabase/stages/Aborted.java:71-74 | `whenCompleteAsync(..., executor)` runs on the given executor |
| Aborted.WhenAborted | src/main/java/io/soabase/stages/Aborted.java:84-87 | `whenAborted` uses no executor: it runs on the thread that completes the stage, or on the calling thread when the stage is already complete |
| Aborted.WhenAbortedAsync | src/main/java/io/soabase/stages/Aborted.java:98-101 | `whenAbortedAsync` runs on the default pool |
| Aborted.WhenAbortedAsyncOnAsWritten | src/main/java/io/soabase/stages/Aborted.java:113-116 | As written, `whenAbortedAsync(..., executor)` runs on the default pool |
| Aborted.WhenAbortedAsyncOn | src/main/java/io/soabase/stages/Aborted.java:103-116 | As documented, `whenAbortedAsync(..., executor)` runs on the given executor |
| Aborted.WhenCompleteOnPresent | src/main/java/io/soabase/stages/Aborted.java:42-74 | For a present value, all three whenComplete variants call the handler once and take its Optional |
| Aborted.WhenCompleteSkips | src/main/java/io/soabase/stages/Aborted.java:42-74 | For a stage that is not present (empty, failed or never completing), none of the three variants calls the handler, and each passes the outcome on |
| Aborted.WhenAbortedVariantsAgree | src/main/java/io/soabase/stages/Aborted.java:84-116 | All whenAborted variants compute the same outcome: present becomes empty, empty runs the handler, failed stays failed |
| Aborted.AbortedExecutorIgnored | src/main/java/io/soabase/stages/Aborted.java:103-116 | As written, the executor argument is never used; as documented, it is |
| AbortWrapper.NewAbortException | src/main/java/io/soabase/stages/AbortWrapper.java:8-12 | AbortWrapper.AbortException carries the message "Aborted" and is a class of its own, distinct from Aborted.AbortException |
| AbortWrapper.AbortIfEmpty | src/main/java/io/soabase/stages/AbortWrapper.java:14-24 | A present value is unwrapped; an empty Optional becomes an AbortException; a failure keeps its exception; it settles iff the stage does |
| AbortWrapper.AbortIfEmptyForgetsOnlyAborts | src/main/java/io/soabase/stages/AbortWrapper.java:14-24 | Two stages give the same result iff they are equal, or one is empty and the other already failed with AbortWrapper's own AbortException |
| StagedFutures.Trace | src/main/java/io/soabase/stages/StagedFutureImpl.java:178-189 | startProc comes first; the proc runs iff startProc does not throw, and an exception from startProc is the result; otherwise the proc's reply is kept and exactly one of endProcSuccess or endProcFail follows it |
| StagedFutures.TracingProc | src/main/java/io/soabase/stages/StagedFutureImpl.java:191-209 | A null tracing calls the proc unwrapped; otherwise the call is traced |
| StagedFutures.FromSupplier | src/main/java/io/soabase/stages/StagedFutureImpl.java:52-58 | The first stage keeps executor and tracing; unless startProc throws, the supplier is called and its Optional or exception is the outcome; a startProc that throws fails the chain with that exception after the start call alone |
| StagedFutures.FromStage | src/main/java/io/soabase/stages/StagedFutureImpl.java:60-66 | An adopted stage makes no calls and is exposed unchanged |
| StagedFutures.Unwrap | src/main/java/io/soabase/stages/StagedFutureImpl.java:68-71 | `unwrap()` returns the chain's future, from which its outcome can be recovered |
| StagedFutures.ThenIf | src/main/java/io/soabase/stages/StagedFutureImpl.java:73-86 | A chain that is not present makes no call and is passed on; a present value makes exactly the traced calls of the proc, and the outcome is what the traced proc replies: present, empty, failed with its exception, or unsettled |
| StagedFutures.Then | src/main/java/io/soabase/stages/StagedFutureImpl.java:88-92 | `then` aborts iff the chain was already empty |
| StagedFutures.ThenStageIf | src/main/java/io/soabase/stages/StagedFutureImpl.java:94-98 | The stage function is called iff the chain is present or empty, with `Optional.of(v)` or `Optional.empty()`, and its completion is the outcome; a failure is passed on and an unsettled chain stays unsettled |
| StagedFutures.ThenStage | src/main/java/io/soabase/stages/StagedFutureImpl.java:100-112 | The stage function is called once iff the chain is present, untraced; a stage that never completes leaves the chain unsettled; otherwise the outcome is passed on |
| StagedFutures.WithTimeout | src/main/java/io/soabase/stages/StagedFutureImpl.java:114-118 | A chain with a timeout makes no call and always settles |
| StagedFutures.WithTimeoutDefault | src/main/java/io/soabase/stages/StagedFutureImpl.java:120-124 | The default supplier is called once, whichever side wins |
| StagedFutures.Passing | src/main/java/io/soabase/stages/StagedFutureImpl.java:129-132 | The yielding function returns its argument iff the consumer returns |
| StagedFutures.WhenCompleteYield | src/main/java/io/soabase/stages/StagedFutureImpl.java:135-140 | The handler is called iff the chain is present, and `Optional.of` its result (or its exception) is the outcome; otherwise the outcome is passed on |
| StagedFutures.WhenComplete | src/main/java/io/soabase/stages/StagedFutureImpl.java:126-133 | The handler is called iff the chain is present; a handler that returns leaves the value unchanged, one that throws fails the chain with its exception, one that hangs leaves it unsettled |
| StagedFutures.EmptyAfter | src/main/java/io/soabase/stages/StagedFutureImpl.java:145-148 | The supplier returns an empty Optional iff the handler returns |
| StagedFutures.WhenAborted | src/main/java/io/soabase/stages/StagedFutureImpl.java:142-150 | The handler is called iff the chain is empty, and the chain stays empty when it returns (fails with its exception otherwise); a present value becomes empty; a failure or an unsettled chain is passed on |
| StagedFutures.WhenFailed | src/main/java/io/soabase/stages/StagedFutureImpl.java:152-161 | The handler is called iff the chain failed; a present or empty chain becomes empty; a handled failure becomes empty, a handler that throws fails the chain with its own exception, one that hangs leaves it unsettled; an unsettled chain stays unsettled |
| StagedFutures.WhenFinal | src/main/java/io/soabase/stages/StagedFutureImpl.java:163-170 | The handler runs once for every settled chain; when it returns, a present or empty chain is kept and a failed one becomes empty; when it throws, the chain fails with its exception; when it hangs, or the chain never settles, the chain is unsettled |
| StagedFutures.ThenIfIgnoresProc | src/main/java/io/soabase/stages/StagedFutureImpl.java:77-84 | An absent, failed or unsettled chain does not depend on the proc at all |
| StagedFutures.ThenIfTraced | src/main/java/io/soabase/stages/StagedFutureImpl.java:73-86 | With a tracer that lets tasks start: start, proc, then success; or start, proc, then fail, and the chain fails with the proc's exception; an empty Optional aborts; in every case the outcome is the proc's own reply |
| StagedFutures.ThenIfUntraced | src/main/java/io/soabase/stages/StagedFutureImpl.java:194-196 | With a null tracing only the proc is called, and its Optional is the outcome |
| StagedFutures.ThenIfRefused | src/main/java/io/soabase/stages/StagedFutureImpl.java:178-181 | A tracer whose startProc throws fails the chain with that exception and the proc never runs |
| StagedFutures.ThenIsThenIfOfSome | src/main/java/io/soabase/stages/StagedFutureImpl.java:88-92 | `then(f)` is `thenIf` of `Optional.of(f(v))`, and a value `f` returns is present in the next chain |
| StagedFutures.ThenStageAdopts | src/main/java/io/soabase/stages/StagedFutureImpl.java:100-112 | A present value takes the stage's value or exception; an empty chain stays empty without calling the stage |
| StagedFutures.WithTimeoutOutcomes | src/main/java/io/soabase/stages/StagedFutureImpl.java:114-124 | A chain that settles first keeps its outcome; otherwise it fails with the TimeoutException, or with a default it becomes present with the default |
| StagedFutures.WhenFinalOnce | src/main/java/io/soabase/stages/StagedFutureImpl.java:163-170 | For a settled chain the final handler is called exactly once and the tracer sees nothing |
| StagedFutures.WhenFailedFeedsWhenAborted | src/main/java/io/soabase/stages/StagedFutureImpl.java:142-161 | After whenFailed, a whenAborted handler runs for a chain that succeeded or aborted |
| Builder.NewBuilder | src/main/java/io/soabase/stages/StagedFutureBuilderImpl.java:30-33 | A null executor is refused with a NullPointerException "executor cannot be null"; otherwise the builder keeps executor and tracing |
| Builder.FirstThenIf | src/main/java/io/soabase/stages/StagedFutureBuilderImpl.java:40-43 | The first stage runs the supplier with the builder's executor and tracing, and a throwing supplier fails the chain |
| Builder.FirstThen | src/main/java/io/soabase/stages/StagedFutureBuilderImpl.java:35-38 | A first stage made with `then` never aborts |
| Builder.FirstThenStage | src/main/java/io/soabase/stages/StagedFutureBuilderImpl.java:45-48 | A first stage made from a CompletionStage adopts it unchanged and makes no call |
| Builder.BuilderNeedsExecutor | src/main/java/io/soabase/stages/StagedFutureBuilderImpl.java:30-33 | Whether a builder can be made depends only on the executor, never on the tracing |
| Builder.FirstThenOutcome | src/main/java/io/soabase/stages/StagedFutureBuilderImpl.java:35-43 | A first `then` is present with the supplier's value, or fails with its exception |
| Chains.Apply | src/main/java/io/soabase/stages/StagedFutureImpl.java:73-170 | Every combinator keeps the chain's executor and tracing |
| Chains.Run | src/main/java/io/soabase/stages/StagedFutureImpl.java:73-170 | A whole chain keeps the executor and tracing it was built with |
| Chains.RunAppend | src/main/java/io/soabase/stages/StagedFutureImpl.java:73-170 | Running two lists of stages one after the other is running their concatenation, and the calls are concatenated |
| Chains.RunOne | src/main/java/io/soabase/stages/StagedFutureImpl.java:73-170 | A chain of one stage is that stage |
| Chains.RunTwo | src/main/java/io/soabase/stages/StagedFutureImpl.java:73-170 | A chain of two stages is the second stage applied to the first |
| Chains.SkippedUnlessPresent | src/main/java/io/soabase/stages/StagedFutureImpl.java:77-84 | An aborted, failed or unsettled chain passes through any number of value stages unchanged, with no call |
| Chains.PresentStagesTraceInOrder | src/test/java/io/soabase/stages/TestStaged.java:56-77 | n value-producing thenIf stages end present, with the calls start, proc, success n times in order |
| Chains.AbortStopsChain | src/test/java/io/soabase/stages/TestStaged.java:79-104 | After a stage that returns an empty Optional, later stages make no call, the tracer sees start and success once, the whenAborted handler runs, and the chain ends empty |
| Chains.WhenAbortedRuns | src/main/java/io/soabase/stages/StagedFutureImpl.java:142-150 | whenAborted on an empty chain with a handler that returns calls the handler once and leaves the chain empty |
| Chains.HangThenTimeout | src/test/java/io/soabase/stages/TestStaged.java:106-133 | A hanging traced stage followed by a timeout fails with the TimeoutException after start and the proc call |
| Chains.HangingStageTimesOut | src/test/java/io/soabase/stages/TestStaged.java:106-133 | A hanging stage with a timeout fails the chain with the TimeoutException, later stages leave no trace, and a final whenFailed empties the chain |
| Chains.WhenFailedRuns | src/main/java/io/soabase/stages/StagedFutureImpl.java:152-161 | whenFailed on a failed chain ends with what the handler leaves: empty when it returns, its exception when it throws |
| Chains.HangingStageTakesDefault | src/test/java/io/soabase/stages/TestStaged.java:135-159 | A hanging stage with a default resumes the chain with the default as a present value for every later stage |
| Chains.FailureRecoversToAbsent | src/test/java/io/soabase/stages/TestStaged.java:161-188 | A throwing stage fails the chain, the tracer sees start then fail, later stages make no call, and whenFailed empties the chain |
| Chains.RefusedChainRunsNothing | src/main/java/io/soabase/stages/StagedFutureImpl.java:178-181 | With a tracer that refuses to start, the first thenIf fails the chain and no proc of any thenIf stage runs |
| Chains.CancelledPartWay | src/main/java/io/soabase/stages/tracing/Cancelable.java:60-72 | Once the Cancelable is cancelled between two stages, no later thenIf proc runs: a present chain fails with the CancellationException after one refused start, any other chain passes on with no call |
| Chains.ApplyEndsMatched | src/main/java/io/soabase/stages/StagedFutureImpl.java:178-189 | In any one stage, every end callback follows a start |
| Chains.TracerCallsBracketed | src/main/java/io/soabase/stages/StagedFutureImpl.java:178-189 | In any whole chain, the tracer never sees an end callback that does not follow a start |
| Cancellation.StartProcStep | src/main/java/io/soabase/stages/tracing/Cancelable.java:68-79 | startProc on a cancelled chain throws the CancellationException and changes nothing; otherwise the thread becomes active, the start is forwarded to next, and what next's startProc throws escapes |
| Cancellation.EndProcStep | src/main/java/io/soabase/stages/tracing/Cancelable.java:81-109 | An ending thread stops being active, the chain is cancelled afterwards iff it was before or the thread was interrupted, and the end callback is forwarded to next |
| Cancellation.Forward | src/main/java/io/soabase/stages/tracing/Cancelable.java:76-78 | A call is passed on to next exactly when there is a next, and nothing is passed on otherwise |
| Cancellation.Refusal | src/main/java/io/soabase/stages/tracing/Cancelable.java:68-79 | startProc throws iff the chain is cancelled or next's startProc throws; a cancelled chain throws the CancellationException, otherwise what escapes is next's exception |
| Cancellation.Act | src/main/java/io/soabase/stages/tracing/Cancelable.java:60-109 | One call on a Cancelable: the chain is cancelled afterwards iff it was, or the call cancels, or an interrupted thread ends; only cancelChain(true) interrupts, exactly the active threads; the forwarded calls only grow at the end |
| Cancellation.ActAll | src/main/java/io/soabase/stages/tracing/Cancelable.java:60-109 | Any sequence of calls only adds interrupted threads and only appends to the calls forwarded to next |
| Cancellation.Cancelable.constructor | src/main/java/io/soabase/stages/tracing/Cancelable.java:42-53 | A new Cancelable is not cancelled, has no active thread and has forwarded nothing |
| Cancellation.Cancelable.CancelChain | src/main/java/io/soabase/stages/tracing/Cancelable.java:60-66 | Sets the flag; with mayInterruptIfRunning, interrupts exactly the active threads, and nothing else changes |
| Cancellation.Cancelable.StartProc | src/main/java/io/soabase/stages/tracing/Cancelable.java:68-79 | The new state and the exception are those of the startProc step, including an exception from next's startProc after the thread became active |
| Cancellation.Cancelable.EndProcSuccess | src/main/java/io/soabase/stages/tracing/Cancelable.java:81-88 | The new state is the end step with a forwarded success |
| Cancellation.Cancelable.EndProcFail | src/main/java/io/soabase/stages/tracing/Cancelable.java:90-97 | The new state is the end step with a forwarded failure |
| Cancellation.Cancelable.HandleInterrupted | src/main/java/io/soabase/stages/tracing/Cancelable.java:99-101 | Sets the flag and changes nothing else |
| Cancellation.Cancelable.End | src/main/java/io/soabase/stages/tracing/Cancelable.java:103-109 | Removes the thread from the active set, and cancels iff the thread is interrupted |
| Cancellation.Trace | src/main/java/io/soabase/stages/StagedFutureImpl.java:178-189 | A task traced by a Cancelable gives the reply of the chain's trace for a tracer that throws what the Cancelable's startProc throws; the forwarded calls are those of that trace; a task refused by next, or one that hangs, leaves its thread active |
| Cancellation.CanceledStaysCanceled | src/main/java/io/soabase/stages/tracing/Cancelable.java:60-109 | No sequence of calls resets the cancelled flag |
| Cancellation.CanceledStartsNothing | src/main/java/io/soabase/stages/tracing/Cancelable.java:68-79 | After cancellation no thread becomes active and no start is forwarded |
| Cancellation.CancelInterruptsActive | src/main/java/io/soabase/stages/tracing/Cancelable.java:60-66 | cancelChain(true) interrupts exactly the active threads, cancelChain(false) none; both cancel |
| Cancellation.InterruptedEndCancels | src/main/java/io/soabase/stages/tracing/Cancelable.java:103-109 | An interrupted thread cancels the chain when its task ends, successfully or not |
| Cancellation.CancelWhileRunning | src/test/java/io/soabase/stages/TestStaged.java:190-222 | Cancelling during a running stage interrupts its thread; when that task ends, with whatever exception, the thread leaves the active set, and the next task of any thread is refused with the CancellationException and never becomes active |
| Tracing.ThreadLabel | src/main/java/io/soabase/stages/tracing/Tracing.java:151 | The label is "@", the group name or "-" when there is no group, ":", then the thread name |
| Tracing.StagedFutureFrameIff | src/main/java/io/soabase/stages/tracing/Tracing.java:161 | A frame starts the scan iff its class name extends StagedFuture's name: StagedFutureImpl frames do, Tracing's own frames do not |
| Tracing.FrameTextParts | src/main/java/io/soabase/stages/tracing/Tracing.java:159 | A kept frame prints as its class name, a colon, then its line number, with a minus sign exactly when the line number is negative |
| Tracing.GetContext | src/main/java/io/soabase/stages/tracing/Tracing.java:147-165 | The loop returns the thread's label followed by at most max frames, those right after the first StagedFuture frame |
| Tracing.GetContextAll | src/main/java/io/soabase/stages/tracing/Tracing.java:137-139 | getContext() is getContext(Integer.MAX_VALUE) |
| Tracing.ContextBounded | src/main/java/io/soabase/stages/tracing/Tracing.java:147-165 | The context starts with the thread's label and holds at most max frames |
| Tracing.ContextLabelOnly | src/main/java/io/soabase/stages/tracing/Tracing.java:156-161 | With max at most zero, or no StagedFuture frame on the stack, the context is the label alone |
| Tracing.ContextMonotone | src/main/java/io/soabase/stages/tracing/Tracing.java:156 | A context is a prefix of the context for any larger max |
| Tracing.ContextAllKeepsEverything | src/main/java/io/soabase/stages/tracing/Tracing.java:137-139 | getContext() keeps every frame after the first StagedFuture frame of a stack of realistic depth |
| Scans.Map | src/main/java/io/soabase/stages/tracing/Tracing.java:159 | Every frame is formatted, in order |
| Scans.FirstIndex | src/main/java/io/soabase/stages/tracing/Tracing.java:161 | The first frame that starts the scan: it matches, no earlier one does, and there is none iff no frame matches |
| Scans.FirstIndexExtend | src/main/java/io/soabase/stages/tracing/Tracing.java:161 | Examining one more frame before the scan has started either finds the first match or extends the unmatched prefix |
| Scans.Take | src/main/java/io/soabase/stages/tracing/Tracing.java:156 | At most max elements are kept, none for max at most zero, all when max is at least the length |
| Scans.ScanStep | src/main/java/io/soabase/stages/tracing/Tracing.java:158-159 | Adding the next formatted frame extends the context by one frame |
| Scans.ScanEndsStarted | src/main/java/io/soabase/stages/tracing/Tracing.java:156 | A started scan that stops at max frames or at the end of the trace has taken the bounded rest |
| Scans.ScanEndsUnstarted | src/main/java/io/soabase/stages/tracing/Tracing.java:156 | A scan that stops before it starts has taken nothing |
| Scans.BoundedShape | src/main/java/io/soabase/stages/tracing/Tracing.java:147-165 | The head comes first, at most max elements follow, and none when no element matches |
| Scans.BoundedInOrder | src/main/java/io/soabase/stages/tracing/Tracing.java:154-163 | The i-th element after the head is the frame i places after the first match, formatted |
| Scans.BoundedMonotone | src/main/java/io/soabase/stages/tracing/Tracing.java:156 | A larger bound only adds elements at the end |
| Decimal.NatToDecimal | src/main/java/io/soabase/stages/tracing/Tracing.java:159 | A line number prints as a non-empty string of digits |
| Decimal.NatToDecimalRoundTrip | src/main/java/io/soabase/stages/tracing/Tracing.java:159 | The printed digits read back as the number, with no leading zero |
| Decimal.IntToDecimalSign | src/main/java/io/soabase/stages/tracing/Tracing.java:159 | A printed int starts with "-" iff it is negative |
| Decimal.IntToDecimalReadsBack | src/main/java/io/soabase/stages/tracing/Tracing.java:159 | A printed int reads back as the int: its digits after the sign are its magnitude |

## Left out

- Threads, executors and scheduling are not modelled: an executor is an id, a stage runs to its
  outcome, and a hang is the outcome `Unsettled`. Where a stage runs is recorded only for the
  `Aborted` helpers, where it is the point of the finding below.
- Concurrency is left out: `isCanceled` being volatile and `active` being a concurrent set.
  `Cancelable`'s methods are modelled as atomic steps on one object, interleaved only in
  `Cancellation.ActAll`.
- `Thread.currentThread()` becomes an explicit thread id, and `Thread.isInterrupted` becomes
  membership in `Threads.interrupted`.
- Durations are opaque text, and no time passes. Which side of the timeout race settles first is
  a parameter (`Timeout.Race`), not a clock.
- `Duration` arguments of endProcSuccess and endProcFail are dropped, since they are only
  measurements.
- `CompletionException` wrapping of exceptions that cross a stage is not modelled. A failure keeps
  the exception that was thrown. The repository's tests unwrap it before looking.
- Null callbacks are not modelled. The `Objects.requireNonNull` checks on `proc`, `stage` and
  `handler` (StagedFutureImpl.java:75,96,102,128,137,144,192,202) only throw before a stage is
  built. Only the builder's executor check is modelled (`Builder.NewBuilder`).
- A tracer's endProcSuccess and endProcFail are modelled as returning normally. A next tracer that
  throws from them is not modelled. A next tracer whose startProc throws is modelled
  (`Cancellation.Cancelable.StartProc`).
- User code that returns null is not modelled. `Optional.of(null)` would throw a
  NullPointerException in `then`, `thenStage`, `withTimeout` with a default and
  `whenCompleteYield` (StagedFutureImpl.java:91,106,122,138). A flatMap handler returning null
  would throw in the `Aborted` helpers (Aborted.java:44,58,73). In the model a returned value is
  never null.
- `Chains` runs a whole chain against one tracer value. So it cannot follow a `Cancelable` whose
  state changes while the chain runs, by `cancelChain` between stages or by an interrupted
  thread's `end()` (Cancelable.java:106-108). `Chains.CancelledPartWay` covers a chain split at
  the point of cancellation. The interleaving of the Cancelable's own calls is modelled
  separately, by `Cancellation.ActAll`.
- The timer task of `Timeout.internalFailAfter` is never cancelled. So the default supplier of
  `withTimeout(max, defaultValue)` is called even when the chain wins: `StagedFutures.WithTimeoutDefault`
  records that call. Its timing relative to the chain is not modelled.
- A default value from `withTimeout(max, defaultValue)` produces no trace callbacks of its own.
  StagedFutureImpl.java:120-124 does not trace the supplier, and the model follows the code.
- `whenFailed` (StagedFutureImpl.java:154-159) returns an empty Optional for a present value too,
  not only after a handled failure. The model follows the code.
- `whenAbortedOrFailed` is declared in StagedFutureTerminal.java:14, but `StagedFutureImpl` does
  not implement it, so there is no behaviour to model.
- `Aborted.AbortException` and `AbortWrapper.AbortException` are modelled only as values. Nothing
  in the core raises the former.
- `Tracing`'s `formatStart`, `formatSuccess` and `formatFail`, and the Slf4J and console tracings,
  are output formatting. They are not part of this model, and neither are the interface files
  (`StagedFuture`, `StagedFutureBuilder`, `StagedFutureTerminal`, `TimeoutStagedFuture`), which
  only declare and delegate.
- Strings are sequences of characters. Thread and class names are taken as given, and the line
  number is printed in decimal with a leading "-" when negative.
- The stack trace handed to `Tracing.GetContext` is a parameter. The JVM's own frames are not
  modelled.
- Tracing.ContextAllKeepsEverything: stated only for stacks of at most Integer.MAX_VALUE frames,
  because getContext() stops at that bound.
- `Chains` models chains whose stages all carry one value type. Chains that change type between
  stages are covered by the single-stage members of `StagedFutures`.

## Findings

| source | as written | input that shows it | evidently intended | confidence | as-written member | corrected member |
|---|---|---|---|---|---|---|
| src/main/java/io/soabase/stages/Aborted.java:113-116 | `whenAbortedAsync(stage, handler, executor)` calls `thenApplyAsync` without the executor, so the handler runs on the default pool | any stage with any executor `E`: the handler does not run on `E` | the documentation at lines 103-112 says the handler is executed using the given executor | not executed | Aborted.WhenAbortedAsyncOnAsWritten (shown by Aborted.AbortedExecutorIgnored) | Aborted.WhenAbortedAsyncOn (used by StagedFutures.WhenAborted) |
