/** StagedFutureBuilderImpl: holds an executor and a tracing and creates the first stage of a chain. */
module Builder {
  import opened Outcomes
  import opened StagedFutures

  datatype StagedFutureBuilder = StagedFutureBuilder(executor: Executor, tracing: Option<Tracer>)

  /** The constructor: Objects.requireNonNull(executor, "executor cannot be null"); the tracing
      may be null. */
  function NewBuilder(executor: Option<Executor>, tracing: Option<Tracer>): (r: Result<StagedFutureBuilder>)
    ensures r.Err? <==> executor.None?
    ensures r.Err? ==> r.error == Throwable(NullPointerException, "executor cannot be null")
    ensures r.Ok? ==> r.value == StagedFutureBuilder(executor.value, tracing)
  {
    match executor
    case None => Err(Throwable(NullPointerException, "executor cannot be null"))
    case Some(e) => Ok(StagedFutureBuilder(e, tracing))
  }

  /** thenIf(proc): the first stage runs the traced supplier. */
  function FirstThenIf<U>(b: StagedFutureBuilder, proc: Reply<Option<U>>): (r: Link<U>)
    ensures r.next.executor == b.executor && r.next.tracing == b.tracing
    ensures b.tracing.None? ==> r == Link(StagedFuture(b.executor, OfReply(proc), None), [Invoked])
    ensures b.tracing == Some(Tracer(None)) ==> r.next.future == OfReply(proc) && |r.events| >= 2 && r.events[..2] == [Start, Invoked]
    ensures proc.Throws? ==> r.next.future.Failed?
  {
    FromSupplier(proc, b.executor, b.tracing)
  }

  /** then(proc) is thenIf(() -> Optional.of(proc.get())). */
  function FirstThen<U>(b: StagedFutureBuilder, proc: Reply<U>): (r: Link<U>)
    ensures !r.next.future.Absent?
  {
    FirstThenIf(b, SomeOf(proc))
  }

  /** thenStage(stage): the given stage is adopted unchanged, without tracing. */
  function FirstThenStage<U>(b: StagedFutureBuilder, stage: Future<Option<U>>): (r: Link<U>)
    ensures r.events == []
    ensures ToFuture(r.next.future) == stage
    ensures r.next.executor == b.executor && r.next.tracing == b.tracing
  {
    FromStage(stage, b.executor, b.tracing)
  }

  /** A builder exists exactly for a non-null executor, whatever the tracing. */
  lemma BuilderNeedsExecutor(executor: Option<Executor>, tracing: Option<Tracer>, other: Option<Tracer>)
    ensures NewBuilder(executor, tracing).Ok? == NewBuilder(executor, other).Ok?
    ensures NewBuilder(executor, None).Ok? <==> executor.Some?
  {
  }

  /** A first stage built with then carries the supplier's value, or its exception. */
  lemma FirstThenOutcome<U>(b: StagedFutureBuilder, proc: Reply<U>)
    requires b.tracing.None? || b.tracing.value.startThrows.None?
    ensures proc.Returns? ==> FirstThen(b, proc).next.future == Present(proc.value)
    ensures proc.Throws? ==> FirstThen(b, proc).next.future == Failed(proc.error)
  {
  }
}
