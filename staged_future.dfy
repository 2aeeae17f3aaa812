/** StagedFutureImpl: a stage chain. Each combinator builds a new chain from the outcome of the
    previous one and the user's callback; executor and tracing are carried along unchanged.
    Every combinator also returns the observable calls it makes: the tracer's callbacks and
    `Invoked` for each call into user code. */
module StagedFutures {
  import opened Outcomes
  import Timeout
  import Aborted

  /** A Tracing as the chain sees it: whether its startProc throws, and what. Its
      endProcSuccess and endProcFail return normally. */
  datatype Tracer = Tracer(startThrows: Option<Throwable>)

  /** StagedFutureImpl's three final fields; a null tracing is None. */
  datatype StagedFuture<T> = StagedFuture(executor: Executor, future: Outcome<T>, tracing: Option<Tracer>)

  /** A new chain together with the calls made while its outcome was computed. */
  datatype Link<T> = Link(next: StagedFuture<T>, events: seq<Event>)

  /** A call to a user procedure as tracing sees it: what it gave and the calls made around it. */
  datatype Call<T> = Call(reply: Reply<T>, events: seq<Event>)

  /** trace(tracing, proc): startProc, then the proc, then endProcSuccess or endProcFail. An
      exception from startProc escapes before the proc runs and before the try block. */
  function Trace<U>(tracer: Tracer, proc: Reply<U>): (r: Call<U>)
    ensures |r.events| > 0 && r.events[0] == Start
    ensures (Invoked in r.events) <==> tracer.startThrows.None?
    ensures tracer.startThrows.Some? ==> r == Call(Throws(tracer.startThrows.value), [Start])
    ensures tracer.startThrows.None? ==> r.reply == proc
    ensures tracer.startThrows.None? && !proc.Hangs? ==>
      TracerCalls(r.events) == [Start, if proc.Returns? then Success else Fail(proc.error)]
    ensures EndsMatched(TracerCalls(r.events))
  {
    match tracer.startThrows
    case Some(e) => Call(Throws(e), [Start])
    case None =>
      match proc
      case Returns(_) => Call(proc, [Start, Invoked, Success])
      case Throws(e) =>
        assert TracerCalls([Fail(e)]) == [Fail(e)];
        assert [Invoked, Fail(e)][1..] == [Fail(e)];
        assert TracerCalls([Invoked, Fail(e)]) == [Fail(e)];
        assert [Start, Invoked, Fail(e)][1..] == [Invoked, Fail(e)];
        Call(proc, [Start, Invoked, Fail(e)])
      case Hangs => Call(Hangs, [Start, Invoked])
  }

  /** tracingProc(tracing, proc): the proc itself when tracing is null, else traced. */
  function TracingProc<U>(tracing: Option<Tracer>, proc: Reply<U>): (r: Call<U>)
    ensures tracing.None? ==> r == Call(proc, [Invoked])
    ensures tracing.Some? ==> r == Trace(tracing.value, proc)
  {
    match tracing
    case None => Call(proc, [Invoked])
    case Some(t) => Trace(t, proc)
  }

  /** The constructor taking a supplier: supplyAsync(tracingProc(tracing, proc), executor). */
  function FromSupplier<T>(proc: Reply<Option<T>>, executor: Executor, tracing: Option<Tracer>): (r: Link<T>)
    ensures r.next.executor == executor && r.next.tracing == tracing
    ensures (Invoked in r.events) <==> (tracing.None? || tracing.value.startThrows.None?)
    ensures tracing.None? || tracing.value.startThrows.None? ==> r.next.future == OfReply(proc)
    ensures tracing.Some? && tracing.value.startThrows.Some? ==>
      r.next.future == Failed(tracing.value.startThrows.value) && r.events == [Start]
  {
    var call := TracingProc(tracing, proc);
    Link(StagedFuture(executor, OfReply(call.reply), tracing), call.events)
  }

  /** The constructor taking a CompletionStage: the stage is adopted as it is. */
  function FromStage<T>(future: Future<Option<T>>, executor: Executor, tracing: Option<Tracer>): (r: Link<T>)
    ensures r.events == []
    ensures ToFuture(r.next.future) == future
  {
    ToFutureOfFuture(future);
    Link(StagedFuture(executor, OfFuture(future), tracing), [])
  }

  function Unwrap<T>(s: StagedFuture<T>): (f: Future<Option<T>>)
    ensures OfFuture(f) == s.future
  {
    OfFutureToFuture(s.future);
    ToFuture(s.future)
  }

  /** thenIf(proc): an empty, failed or unsettled chain is carried on without calling proc or the
      tracer; a present value goes through the traced proc, whose Optional becomes the outcome. */
  function ThenIf<T, U>(s: StagedFuture<T>, proc: T -> Reply<Option<U>>): (r: Link<U>)
    ensures r.next.executor == s.executor && r.next.tracing == s.tracing
    ensures !s.future.Present? ==> r.events == [] && r.next.future == Skip(s.future)
    ensures s.future.Present? ==> r.events == TracingProc(s.tracing, proc(s.future.value)).events
    ensures s.future.Present? ==> r.next.future == OfReply(TracingProc(s.tracing, proc(s.future.value)).reply)
  {
    match s.future
    case Present(v) =>
      var call := TracingProc(s.tracing, proc(v));
      Link(StagedFuture(s.executor, OfReply(call.reply), s.tracing), call.events)
    case _ => Link(StagedFuture(s.executor, Skip(s.future), s.tracing), [])
  }

  /** then(proc) is thenIf(v -> Optional.of(proc.apply(v))). */
  function Then<T, U>(s: StagedFuture<T>, proc: T -> Reply<U>): (r: Link<U>)
    ensures r.next.executor == s.executor && r.next.tracing == s.tracing
    ensures r.next.future.Absent? <==> s.future.Absent?
  {
    ThenIf(s, (v: T) => SomeOf(proc(v)))
  }

  /** thenStageIf(stage): the stage is composed with the Optional itself, empty or not. */
  function ThenStageIf<T, U>(s: StagedFuture<T>, stage: Option<T> -> Future<Option<U>>): (r: Link<U>)
    ensures r.next.executor == s.executor && r.next.tracing == s.tracing
    ensures (Invoked in r.events) <==> s.future.Present? || s.future.Absent?
    ensures s.future.Present? ==> r.next.future == OfFuture(stage(Some(s.future.value)))
    ensures s.future.Absent? ==> r.next.future == OfFuture(stage(None))
    ensures s.future.Failed? ==> r.next.future == Failed(s.future.error)
    ensures s.future.Unsettled? ==> r.next.future == Unsettled
  {
    match s.future
    case Present(v) => Link(StagedFuture(s.executor, OfFuture(stage(Some(v))), s.tracing), [Invoked])
    case Absent => Link(StagedFuture(s.executor, OfFuture(stage(None)), s.tracing), [Invoked])
    case _ => Link(StagedFuture(s.executor, Skip(s.future), s.tracing), [])
  }

  /** thenStage(stage): a present value is handed to stage, and its completion becomes a present
      outcome; nothing here is traced. */
  function ThenStage<T, U>(s: StagedFuture<T>, stage: T -> Future<U>): (r: Link<U>)
    ensures r.next.executor == s.executor && r.next.tracing == s.tracing
    ensures !s.future.Present? ==> r.events == [] && r.next.future == Skip(s.future)
    ensures s.future.Present? ==> r.events == [Invoked]
    ensures s.future.Present? && stage(s.future.value).Never? ==> r.next.future == Unsettled
  {
    match s.future
    case Present(v) => Link(StagedFuture(s.executor, OfFuture(FutureOfSome(stage(v))), s.tracing), [Invoked])
    case _ => Link(StagedFuture(s.executor, Skip(s.future), s.tracing), [])
  }

  /** withTimeout(max): this chain's future raced against a timer that fails. */
  function WithTimeout<T>(s: StagedFuture<T>, max: Timeout.Duration, first: Timeout.Race): (r: Link<T>)
    ensures r.events == [] && r.next.executor == s.executor && r.next.tracing == s.tracing
    ensures !r.next.future.Unsettled?
  {
    Link(StagedFuture(s.executor, OfFuture(Timeout.Within(ToFuture(s.future), max, first)), s.tracing), [])
  }

  /** withTimeout(max, defaultValue): raced against a timer that completes with
      Optional.of(defaultValue.get()). The timer task is never cancelled, so the supplier is
      called even when the chain's future wins. */
  function WithTimeoutDefault<T>(s: StagedFuture<T>, max: Timeout.Duration, defaultValue: Reply<T>, first: Timeout.Race): (r: Link<T>)
    ensures r.events == [Invoked] && r.next.executor == s.executor && r.next.tracing == s.tracing
  {
    var timed := Timeout.WithinDefault(ToFuture(s.future), max, SomeOf(defaultValue), first);
    Link(StagedFuture(s.executor, OfFuture(timed), s.tracing), [Invoked])
  }

  /** The yielding function whenComplete builds: accept the value, then return it. */
  function Passing<T>(handler: T -> Reply<()>, v: T): (r: Reply<T>)
    ensures r.Returns? <==> handler(v).Returns?
    ensures r.Returns? ==> r.value == v
  {
    match handler(v)
    case Returns(_) => Returns(v)
    case Throws(e) => Throws(e)
    case Hangs => Hangs
  }

  /** whenCompleteYield(handler): Aborted.whenCompleteAsync with v -> Optional.of(handler(v)). */
  function WhenCompleteYield<T, U>(s: StagedFuture<T>, handler: T -> Reply<U>): (r: Link<U>)
    ensures r.next.executor == s.executor && r.next.tracing == s.tracing
    ensures (Invoked in r.events) <==> s.future.Present?
    ensures s.future.Present? ==> r.next.future == OfReply(SomeOf(handler(s.future.value)))
    ensures !s.future.Present? ==> r.next.future == Skip(s.future)
  {
    var step := Aborted.WhenCompleteAsync(s.future, (v: T) => SomeOf(handler(v))).step;
    Link(StagedFuture(s.executor, step.outcome, s.tracing), step.events)
  }

  /** whenComplete(handler): the handler sees a present value, which is passed on unchanged. */
  function WhenComplete<T>(s: StagedFuture<T>, handler: T -> Reply<()>): (r: Link<T>)
    ensures r.next.executor == s.executor && r.next.tracing == s.tracing
    ensures (Invoked in r.events) <==> s.future.Present?
    ensures s.future.Present? && handler(s.future.value).Returns? ==> r.next.future == s.future
    ensures s.future.Present? && handler(s.future.value).Throws? ==> r.next.future == Failed(handler(s.future.value).error)
    ensures s.future.Present? && handler(s.future.value).Hangs? ==> r.next.future == Unsettled
    ensures !s.future.Present? ==> r.next.future == s.future
  {
    var r := WhenCompleteYield(s, (v: T) => Passing(handler, v));
    assert s.future.Present? ==>
      r.next.future == OfReply(SomeOf(Passing(handler, s.future.value)));
    r
  }

  /** The supplier whenAborted builds: run the handler, then return an empty Optional. */
  function EmptyAfter<U>(handler: Reply<()>): (r: Reply<Option<U>>)
    ensures r.Returns? <==> handler.Returns?
    ensures r.Returns? ==> r.value == None
  {
    match handler
    case Returns(_) => Returns(None)
    case Throws(e) => Throws(e)
    case Hangs => Hangs
  }

  /** whenAborted(handler): Aborted.whenAbortedAsync(future, ..., executor). */
  function WhenAborted<T>(s: StagedFuture<T>, handler: Reply<()>): (r: Link<T>)
    ensures r.next.executor == s.executor && r.next.tracing == s.tracing
    ensures (Invoked in r.events) <==> s.future.Absent?
    ensures s.future.Present? ==> r.next.future == Absent
    ensures s.future.Absent? ==> r.next.future == OfReply(EmptyAfter<T>(handler))
    ensures s.future.Failed? || s.future.Unsettled? ==> r.next.future == s.future
  {
    var step := Aborted.WhenAbortedAsyncOn(s.future, EmptyAfter<T>(handler), s.executor).step;
    Link(StagedFuture(s.executor, step.outcome, s.tracing), step.events)
  }

  /** whenFailed(handler): handleAsync that calls the handler only with an exception and
      otherwise yields an empty Optional, also for a present value. */
  function WhenFailed<T>(s: StagedFuture<T>, handler: Throwable -> Reply<()>): (r: Link<T>)
    ensures r.next.executor == s.executor && r.next.tracing == s.tracing
    ensures (Invoked in r.events) <==> s.future.Failed?
    ensures s.future.Present? || s.future.Absent? ==> r.next.future == Absent
    ensures s.future.Failed? && handler(s.future.error).Returns? ==> r.next.future == Absent
    ensures s.future.Failed? && handler(s.future.error).Throws? ==> r.next.future == Failed(handler(s.future.error).error)
    ensures s.future.Failed? && handler(s.future.error).Hangs? ==> r.next.future == Unsettled
    ensures s.future.Unsettled? ==> r.next.future == Unsettled
  {
    match s.future
    case Failed(e) => Link(StagedFuture(s.executor, OfReply(EmptyAfter(handler(e))), s.tracing), [Invoked])
    case Unsettled => Link(StagedFuture(s.executor, Unsettled, s.tracing), [])
    case _ => Link(StagedFuture(s.executor, Absent, s.tracing), [])
  }

  /** whenFinal(handler): handleAsync that always runs the handler, then yields the Optional it
      was given, or an empty one when the future failed. */
  function WhenFinal<T>(s: StagedFuture<T>, handler: Reply<()>): (r: Link<T>)
    ensures r.next.executor == s.executor && r.next.tracing == s.tracing
    ensures r.events == if s.future.Unsettled? then [] else [Invoked]
    ensures handler.Returns? && !s.future.Failed? ==> r.next.future == s.future
    ensures handler.Returns? && s.future.Failed? ==> r.next.future == Absent
    ensures !s.future.Unsettled? && handler.Throws? ==> r.next.future == Failed(handler.error)
    ensures !s.future.Unsettled? && handler.Hangs? ==> r.next.future == Unsettled
    ensures s.future.Unsettled? ==> r.next.future == Unsettled
  {
    match s.future
    case Unsettled => Link(StagedFuture(s.executor, Unsettled, s.tracing), [])
    case _ =>
      var kept := if s.future.Failed? then Absent else s.future;
      var out := match handler
        case Returns(_) => kept
        case Throws(e) => Failed(e)
        case Hangs => Unsettled;
      Link(StagedFuture(s.executor, out, s.tracing), [Invoked])
  }

  /** A chain that is not present never consults the proc of thenIf: any two procs agree. */
  lemma ThenIfIgnoresProc<T, U>(s: StagedFuture<T>, p: T -> Reply<Option<U>>, q: T -> Reply<Option<U>>)
    requires !s.future.Present?
    ensures ThenIf(s, p) == ThenIf(s, q)
  {
  }

  /** thenIf on a present value with a tracer that lets it start: start, the proc, then exactly
      one of success or failure; a throwing proc fails the chain, it never aborts it. */
  lemma ThenIfTraced<T, U>(s: StagedFuture<T>, proc: T -> Reply<Option<U>>)
    requires s.future.Present? && s.tracing == Some(Tracer(None))
    ensures var reply := proc(s.future.value);
      && (reply.Returns? ==> ThenIf(s, proc).events == [Start, Invoked, Success])
      && (reply.Throws? ==>
            ThenIf(s, proc).events == [Start, Invoked, Fail(reply.error)] &&
            ThenIf(s, proc).next.future == Failed(reply.error))
      && (reply == Returns(None) ==> ThenIf(s, proc).next.future == Absent)
      && ThenIf(s, proc).next.future == OfReply(reply)
  {
  }

  /** With a null tracing the proc is called unwrapped and its Optional is the outcome. */
  lemma ThenIfUntraced<T, U>(s: StagedFuture<T>, proc: T -> Reply<Option<U>>)
    requires s.future.Present? && s.tracing.None?
    ensures ThenIf(s, proc).events == [Invoked]
    ensures ThenIf(s, proc).next.future == OfReply(proc(s.future.value))
  {
  }

  /** A tracer whose startProc throws keeps the proc from running and fails the chain. */
  lemma ThenIfRefused<T, U>(s: StagedFuture<T>, proc: T -> Reply<Option<U>>, e: Throwable)
    requires s.future.Present? && s.tracing == Some(Tracer(Some(e)))
    ensures ThenIf(s, proc) == Link(StagedFuture(s.executor, Failed(e), s.tracing), [Start])
  {
  }

  /** then(f) is thenIf of Optional.of(f(v)); it carries f's value and never aborts by itself. */
  lemma ThenIsThenIfOfSome<T, U>(s: StagedFuture<T>, f: T -> Reply<U>)
    ensures Then(s, f) == ThenIf(s, (v: T) => SomeOf(f(v)))
    ensures s.future.Present? && f(s.future.value).Returns? &&
            (s.tracing.None? || s.tracing.value.startThrows.None?) ==>
      Then(s, f).next.future == Present(f(s.future.value).value)
  {
  }

  /** thenStage: a present value becomes present with the stage's value; an empty chain stays
      empty without applying the stage. */
  lemma ThenStageAdopts<T, U>(s: StagedFuture<T>, stage: T -> Future<U>)
    ensures s.future.Present? && stage(s.future.value).Value? ==>
      ThenStage(s, stage).next.future == Present(stage(s.future.value).value)
    ensures s.future.Present? && stage(s.future.value).Error? ==>
      ThenStage(s, stage).next.future == Failed(stage(s.future.value).error)
    ensures s.future.Absent? ==> ThenStage(s, stage) == Link(StagedFuture(s.executor, Absent, s.tracing), [])
  {
  }

  /** withTimeout: a chain that settles before the timer keeps its outcome; otherwise it fails
      with the TimeoutException, or with a default it becomes present with the default. */
  lemma WithTimeoutOutcomes<T>(s: StagedFuture<T>, max: Timeout.Duration, defaultValue: Reply<T>, first: Timeout.Race)
    ensures !s.future.Unsettled? && first == Timeout.FutureFirst ==>
      WithTimeout(s, max, first).next.future == s.future &&
      WithTimeoutDefault(s, max, defaultValue, first).next.future == s.future
    ensures s.future.Unsettled? || first == Timeout.TimerFirst ==>
      WithTimeout(s, max, first).next.future == Failed(Timeout.TimeoutError(max))
    ensures (s.future.Unsettled? || first == Timeout.TimerFirst) && defaultValue.Returns? ==>
      WithTimeoutDefault(s, max, defaultValue, first).next.future == Present(defaultValue.value)
  {
    OfFutureToFuture(s.future);
  }

  /** whenFinal runs its handler exactly once for every settled chain. */
  lemma WhenFinalOnce<T>(s: StagedFuture<T>, handler: Reply<()>)
    requires !s.future.Unsettled?
    ensures WhenFinal(s, handler).events == [Invoked]
    ensures |TracerCalls(WhenFinal(s, handler).events)| == 0
  {
  }

  /** whenFailed turns every settled, non-failed chain into an empty one, so a whenAborted that
      follows it runs its handler whether the chain had succeeded or aborted. */
  lemma WhenFailedFeedsWhenAborted<T>(s: StagedFuture<T>, onFail: Throwable -> Reply<()>, onAbort: Reply<()>)
    requires s.future.Present? || s.future.Absent?
    ensures WhenAborted(WhenFailed(s, onFail).next, onAbort).events == [Invoked]
  {
  }
}
