/** Timeout: races a future against a timer that either fails with a TimeoutException or
    completes with a default value. When the timer fires is not modelled; a `Race` says which
    side completes first when both complete. */
module Timeout {
  import opened Outcomes

  /** A java.time.Duration, carried as the text its toString() produces. */
  datatype Duration = Duration(text: string)

  /** Which of two completions arrives first, when both arrive. */
  datatype Race = FutureFirst | TimerFirst
  {
    function Swapped(): Race
    {
      if FutureFirst? then TimerFirst else FutureFirst
    }
  }

  /** The exception the timer task builds: "Timeout after " followed by the duration. */
  function TimeoutError(d: Duration): (e: Throwable)
    ensures e.kind == TimeoutException
    ensures e.message == "Timeout after " + d.text
  {
    Throwable(TimeoutException, "Timeout after " + d.text)
  }

  /** A CompletableFuture as internalFailAfter uses it: created incomplete, and completed by
      whichever completion call comes first. `state` is Never while it is incomplete. */
  class CompletableFuture<T> {
    var state: Future<T>

    constructor ()
      ensures state == Never
    {
      state := Never;
    }

    method Complete(v: T) returns (done: bool)
      modifies this
      ensures done <==> old(state).Never?
      ensures state == if done then Value(v) else old(state)
    {
      done := state.Never?;
      if done {
        state := Value(v);
      }
    }

    method CompleteExceptionally(e: Throwable) returns (done: bool)
      modifies this
      ensures done <==> old(state).Never?
      ensures state == if done then Error(e) else old(state)
    {
      done := state.Never?;
      if done {
        state := Error(e);
      }
    }
  }

  /** How the timer's future settles once its task has run. `defaultValue` is the supplier
      (None for a null one) and what its get() does. A supplier that throws, or a null one,
      makes the task end with an exception before it completes the future. */
  function TimerOutcome<T>(d: Duration, defaultValue: Option<Reply<T>>, useDefaultValue: bool): (f: Future<T>)
    ensures !useDefaultValue ==> f == Error(TimeoutError(d))
    ensures useDefaultValue ==> !f.Error?
    ensures f.Value? ==> defaultValue == Some(Returns(f.value))
  {
    if !useDefaultValue then Error(TimeoutError(d))
    else match defaultValue
      case Some(Returns(v)) => Value(v)
      case _ => Never
  }

  /** The task internalFailAfter hands to the scheduler, run when the duration has elapsed. */
  method TimerTask<T>(future: CompletableFuture<T>, d: Duration, defaultValue: Option<Reply<T>>, useDefaultValue: bool)
    modifies future
    ensures old(future.state).Never? ==> future.state == TimerOutcome(d, defaultValue, useDefaultValue)
    ensures !old(future.state).Never? ==> future.state == old(future.state)
  {
    var ex := TimeoutError(d);
    if useDefaultValue {
      match defaultValue
      case Some(Returns(v)) =>
        var _ := future.Complete(v);
      case _ =>
    } else {
      var _ := future.CompleteExceptionally(ex);
    }
  }

  /** internalFailAfter: a fresh future that only the timer task completes. The model runs the
      task before returning, so the future returned is the one the caller eventually sees. */
  method InternalFailAfter<T>(d: Duration, defaultValue: Option<Reply<T>>, useDefaultValue: bool)
    returns (future: CompletableFuture<T>)
    ensures fresh(future)
    ensures future.state == TimerOutcome(d, defaultValue, useDefaultValue)
  {
    future := new CompletableFuture();
    TimerTask(future, d, defaultValue, useDefaultValue);
  }

  /** failAfter(duration): only ever completes exceptionally, with a TimeoutException. */
  function FailAfter<T>(d: Duration): (f: Future<T>)
    ensures f.Error? && f.error.kind == TimeoutException
  {
    TimerOutcome(d, None, false)
  }

  /** failAfter(duration, defaultValue): only ever completes normally, with what the supplier returned. */
  function FailAfterDefault<T>(d: Duration, defaultValue: Reply<T>): (f: Future<T>)
    ensures !f.Error?
    ensures f.Value? <==> defaultValue.Returns?
    ensures f.Value? ==> f.value == defaultValue.value
  {
    TimerOutcome(d, Some(defaultValue), true)
  }

  /** applyToEither(other, identity()): the first of the two to complete decides the result,
      whether it completes normally or exceptionally. */
  function ApplyToEither<T>(future: Future<T>, other: Future<T>, first: Race): (r: Future<T>)
    ensures r == future || r == other
    ensures r.Never? <==> future.Never? && other.Never?
  {
    if future.Never? then other
    else if other.Never? then future
    else if first == FutureFirst then future
    else other
  }

  /** within(future, duration) */
  function Within<T>(future: Future<T>, d: Duration, first: Race): (r: Future<T>)
    ensures !r.Never?
  {
    ApplyToEither(future, FailAfter(d), first)
  }

  /** within(future, duration, defaultValue) */
  function WithinDefault<T>(future: Future<T>, d: Duration, defaultValue: Reply<T>, first: Race): (r: Future<T>)
    ensures r.Never? <==> future.Never? && !defaultValue.Returns?
  {
    ApplyToEither(future, FailAfterDefault(d, defaultValue), first)
  }

  /** The race does not depend on the order its two futures are named in. */
  lemma ApplyToEitherSymmetric<T>(a: Future<T>, b: Future<T>, first: Race)
    ensures ApplyToEither(a, b, first) == ApplyToEither(b, a, first.Swapped())
  {
  }

  /** Once one side has completed first, how (or whether) the loser completes later is irrelevant. */
  lemma LoserIgnored<T>(future: Future<T>, timer: Future<T>, timer': Future<T>)
    requires !future.Never?
    ensures ApplyToEither(future, timer, FutureFirst) == ApplyToEither(future, timer', FutureFirst) == future
  {
  }

  /** A future that settles before the timer is passed through, normally or exceptionally. */
  lemma WithinFutureWins<T>(future: Future<T>, d: Duration, defaultValue: Reply<T>)
    requires !future.Never?
    ensures Within(future, d, FutureFirst) == future
    ensures WithinDefault(future, d, defaultValue, FutureFirst) == future
  {
  }

  /** The timer fires first (or the future never settles): a TimeoutException naming the duration. */
  lemma WithinTimerWins<T>(future: Future<T>, d: Duration, first: Race)
    requires future.Never? || first == TimerFirst
    ensures Within(future, d, first) == Error(TimeoutError(d))
    ensures Within(future, d, first).error.message == "Timeout after " + d.text
  {
  }

  /** The timer fires first with a default: the supplier's value, or, when the supplier throws,
      whatever the future eventually does. */
  lemma WithinDefaultTimerWins<T>(future: Future<T>, d: Duration, defaultValue: Reply<T>, first: Race)
    requires future.Never? || first == TimerFirst
    ensures defaultValue.Returns? ==> WithinDefault(future, d, defaultValue, first) == Value(defaultValue.value)
    ensures !defaultValue.Returns? ==> WithinDefault(future, d, defaultValue, first) == future
  {
  }
}
