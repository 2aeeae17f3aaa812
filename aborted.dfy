/** Aborted: wrappers over a CompletionStage<Optional<T>> that call a handler only for a
    non-empty Optional (whenComplete*) or only for an empty one (whenAborted*). A failed stage
    skips the handler in both, as thenApply does. */
module Aborted {
  import opened Outcomes

  /** Where a variant runs its function: with no executor (on the thread that completes the
      stage, or on the calling thread when the stage is already complete), on the default
      asynchronous pool, or on a given executor. */
  datatype Execution = NoExecutor | DefaultPool | On(executor: Executor)

  datatype Applied<U> = Applied(step: Step<U>, runsOn: Execution)

  /** AbortException's constructor. */
  function NewAbortException(): (e: Throwable)
    ensures e.kind == AbortException && e.message == "Aborted"
  {
    ABORTED
  }

  /** thenApply(optional -> optional.flatMap(handler)) */
  function FlatMap<T, U>(stage: Outcome<T>, handler: T -> Reply<Option<U>>): (r: Step<U>)
    ensures (Invoked in r.events) <==> stage.Present?
    ensures stage.Present? ==> r.events == [Invoked] && r.outcome == OfReply(handler(stage.value))
    ensures !stage.Present? ==> r.events == [] && r.outcome == Skip(stage)
  {
    match stage
    case Present(v) => Step(OfReply(handler(v)), [Invoked])
    case _ => Step(Skip(stage), [])
  }

  /** thenApply(optional -> optional.isPresent() ? Optional.empty() : handler.get()) */
  function OnEmpty<T, U>(stage: Outcome<T>, handler: Reply<Option<U>>): (r: Step<U>)
    ensures (Invoked in r.events) <==> stage.Absent?
    ensures stage.Absent? ==> r.events == [Invoked] && r.outcome == OfReply(handler)
    ensures stage.Present? ==> r == Step(Absent, [])
    ensures stage.Failed? || stage.Unsettled? ==> r.events == [] && r.outcome == Skip(stage)
  {
    match stage
    case Present(_) => Step(Absent, [])
    case Absent => Step(OfReply(handler), [Invoked])
    case _ => Step(Skip(stage), [])
  }

  function WhenComplete<T, U>(stage: Outcome<T>, handler: T -> Reply<Option<U>>): (r: Applied<U>)
    ensures r.runsOn == NoExecutor
  {
    Applied(FlatMap(stage, handler), NoExecutor)
  }

  function WhenCompleteAsync<T, U>(stage: Outcome<T>, handler: T -> Reply<Option<U>>): (r: Applied<U>)
    ensures r.runsOn == DefaultPool
  {
    Applied(FlatMap(stage, handler), DefaultPool)
  }

  function WhenCompleteAsyncOn<T, U>(stage: Outcome<T>, handler: T -> Reply<Option<U>>, executor: Executor): (r: Applied<U>)
    ensures r.runsOn == On(executor)
  {
    Applied(FlatMap(stage, handler), On(executor))
  }

  function WhenAborted<T, U>(stage: Outcome<T>, handler: Reply<Option<U>>): (r: Applied<U>)
    ensures r.runsOn == NoExecutor
  {
    Applied(OnEmpty(stage, handler), NoExecutor)
  }

  function WhenAbortedAsync<T, U>(stage: Outcome<T>, handler: Reply<Option<U>>): (r: Applied<U>)
    ensures r.runsOn == DefaultPool
  {
    Applied(OnEmpty(stage, handler), DefaultPool)
  }

  /** whenAbortedAsync(stage, handler, executor) as the source has it: the executor is never
      passed on, so the handler runs on the default pool. */
  function WhenAbortedAsyncOnAsWritten<T, U>(stage: Outcome<T>, handler: Reply<Option<U>>, executor: Executor): (r: Applied<U>)
    ensures r.runsOn == DefaultPool
  {
    Applied(OnEmpty(stage, handler), DefaultPool)
  }

  /** whenAbortedAsync(stage, handler, executor) as its documentation describes it: the handler
      runs on the given executor, as in whenCompleteAsync(stage, handler, executor). */
  function WhenAbortedAsyncOn<T, U>(stage: Outcome<T>, handler: Reply<Option<U>>, executor: Executor): (r: Applied<U>)
    ensures r.runsOn == On(executor)
  {
    Applied(OnEmpty(stage, handler), On(executor))
  }

  /** The handler of whenComplete* runs only on a present value; its Optional becomes the result. */
  lemma WhenCompleteOnPresent<T, U>(v: T, handler: T -> Reply<Option<U>>, executor: Executor)
    ensures WhenComplete(Present(v), handler).step == Step(OfReply(handler(v)), [Invoked])
    ensures WhenCompleteAsync(Present(v), handler).step == WhenComplete(Present(v), handler).step
    ensures WhenCompleteAsyncOn(Present(v), handler, executor).step == WhenComplete(Present(v), handler).step
  {
  }

  /** A stage that is not present (empty, failed, or never completing) skips the handler of all
      three whenComplete variants, which pass its outcome on. */
  lemma WhenCompleteSkips<T, U>(stage: Outcome<T>, handler: T -> Reply<Option<U>>, executor: Executor)
    requires !stage.Present?
    ensures WhenComplete(stage, handler).step == Step(Skip(stage), [])
    ensures WhenCompleteAsync(stage, handler).step == Step(Skip(stage), [])
    ensures WhenCompleteAsyncOn(stage, handler, executor).step == Step(Skip(stage), [])
    ensures WhenComplete(stage, handler).step.events == []
    ensures stage.Absent? ==> WhenCompleteAsyncOn(stage, handler, executor).step.outcome == Absent
    ensures stage.Failed? ==> WhenCompleteAsync(stage, handler).step.outcome == Failed(stage.error)
  {
  }

  /** whenAborted* drops a present value without calling the handler, and returns the handler's
      Optional for an empty one; the three variants compute the same outcome and calls. */
  lemma WhenAbortedVariantsAgree<T, U>(stage: Outcome<T>, handler: Reply<Option<U>>, executor: Executor)
    ensures WhenAbortedAsync(stage, handler).step == WhenAborted(stage, handler).step
    ensures WhenAbortedAsyncOnAsWritten(stage, handler, executor).step == WhenAborted(stage, handler).step
    ensures WhenAbortedAsyncOn(stage, handler, executor).step == WhenAborted(stage, handler).step
    ensures stage.Present? ==> WhenAborted(stage, handler).step == Step(Absent, [])
    ensures stage.Absent? ==> WhenAborted(stage, handler).step == Step(OfReply(handler), [Invoked])
    ensures stage.Failed? ==> WhenAborted(stage, handler).step == Step(Failed(stage.error), [])
  {
  }

  /** The executor given to whenAbortedAsync is not the one its handler runs on, whichever it is. */
  lemma AbortedExecutorIgnored<T, U>(stage: Outcome<T>, handler: Reply<Option<U>>, executor: Executor)
    ensures WhenAbortedAsyncOnAsWritten(stage, handler, executor).runsOn != On(executor)
    ensures WhenAbortedAsyncOnAsWritten(stage, handler, executor)
         == WhenAbortedAsyncOnAsWritten(stage, handler, Executor(executor.id + 1))
    ensures WhenAbortedAsyncOn(stage, handler, executor).runsOn
         == WhenCompleteAsyncOn(stage, (_: T) => handler, executor).runsOn
  {
  }
}
