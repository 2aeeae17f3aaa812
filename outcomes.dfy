/** The values a stage chain passes around: the exceptions it raises or carries, what a call
    into user code does, how a future settles, and the calls an observer of the chain can see. */
module Outcomes {

  datatype Option<T> = None | Some(value: T)

  /** The exception classes the library raises or passes along. */
  datatype ErrorKind =
    | UserException(id: nat)   // anything thrown by user code: a proc, a handler, a supplier
    | AbortException          // Aborted.AbortException
    | WrapperAbortException   // AbortWrapper.AbortException, a distinct class
    | TimeoutException
    | CancellationException
    | NullPointerException

  datatype Throwable = Throwable(kind: ErrorKind, message: string)

  datatype Result<T> = Ok(value: T) | Err(error: Throwable)

  /** What a call into user code does: it returns a value, throws, or never returns. */
  datatype Reply<T> = Returns(value: T) | Throws(error: Throwable) | Hangs

  /** How a CompletionStage<T> settles: normally, exceptionally, or never. */
  datatype Future<T> = Value(value: T) | Error(error: Throwable) | Never

  /** How a CompletionStage<Optional<T>> settles: a non-empty Optional, an empty one (the chain
      aborted), an exception, or never. */
  datatype Outcome<T> = Present(value: T) | Absent | Failed(error: Throwable) | Unsettled

  /** An observable call: one of the three tracer callbacks, or a call into user code. */
  datatype Event = Start | Success | Fail(error: Throwable) | Invoked
  {
    predicate IsEnd() { Success? || Fail? }
  }

  /** An opaque executor; which one runs a stage never changes what the stage computes. */
  datatype Executor = Executor(id: nat)

  /** A settled outcome together with the calls made while computing it. */
  datatype Step<T> = Step(outcome: Outcome<T>, events: seq<Event>)

  /** The exception Aborted.AbortException's constructor makes. */
  const ABORTED := Throwable(AbortException, "Aborted")

  /** The exception AbortWrapper.AbortException's constructor makes: the same message, another class. */
  const WRAPPER_ABORTED := Throwable(WrapperAbortException, "Aborted")

  /** The Optional view of a CompletionStage<Optional<T>>. */
  function ToFuture<T>(o: Outcome<T>): (f: Future<Option<T>>)
    ensures f.Never? <==> o.Unsettled?
    ensures f.Error? <==> o.Failed?
  {
    match o
    case Present(v) => Value(Some(v))
    case Absent => Value(None)
    case Failed(e) => Error(e)
    case Unsettled => Never
  }

  function OfFuture<T>(f: Future<Option<T>>): (o: Outcome<T>)
    ensures o.Unsettled? <==> f.Never?
    ensures o.Failed? <==> f.Error?
  {
    match f
    case Value(Some(v)) => Present(v)
    case Value(None) => Absent
    case Error(e) => Failed(e)
    case Never => Unsettled
  }

  lemma OfFutureToFuture<T>(o: Outcome<T>)
    ensures OfFuture(ToFuture(o)) == o
  {
  }

  lemma ToFutureOfFuture<T>(f: Future<Option<T>>)
    ensures ToFuture(OfFuture(f)) == f
  {
  }

  /** The outcome of a stage whose user code gave `r`. */
  function OfReply<T>(r: Reply<Option<T>>): (o: Outcome<T>)
    ensures o.Present? <==> r.Returns? && r.value.Some?
    ensures o.Absent? <==> r == Returns(None)
    ensures o.Failed? <==> r.Throws?
    ensures o.Unsettled? <==> r.Hangs?
    ensures o.Present? ==> o.value == r.value.value
    ensures o.Failed? ==> o.error == r.error
  {
    match r
    case Returns(Some(v)) => Present(v)
    case Returns(None) => Absent
    case Throws(e) => Failed(e)
    case Hangs => Unsettled
  }

  /** Optional.of applied to whatever user code returns. */
  function SomeOf<T>(r: Reply<T>): (o: Reply<Option<T>>)
    ensures o.Returns? <==> r.Returns?
    ensures o.Returns? ==> o.value == Some(r.value)
    ensures o.Throws? <==> r.Throws?
    ensures o.Throws? ==> o.error == r.error
  {
    match r
    case Returns(v) => Returns(Some(v))
    case Throws(e) => Throws(e)
    case Hangs => Hangs
  }

  /** thenApply(Optional::of) on a future. */
  function FutureOfSome<T>(f: Future<T>): (o: Future<Option<T>>)
    ensures o.Value? <==> f.Value?
    ensures o.Value? ==> o.value == Some(f.value)
    ensures o.Error? <==> f.Error?
    ensures o.Error? ==> o.error == f.error
  {
    match f
    case Value(v) => Value(Some(v))
    case Error(e) => Error(e)
    case Never => Never
  }

  /** An empty, failed or unsettled outcome carried unchanged to a stage of another value type. */
  function Skip<T, U>(o: Outcome<T>): (r: Outcome<U>)
    requires !o.Present?
    ensures r.Absent? <==> o.Absent?
    ensures r.Unsettled? <==> o.Unsettled?
    ensures r.Failed? <==> o.Failed?
    ensures o.Failed? ==> r.error == o.error
  {
    match o
    case Absent => Absent
    case Failed(e) => Failed(e)
    case Unsettled => Unsettled
  }

  /** The calls a tracer receives: the events without the calls into user code. */
  function TracerCalls(events: seq<Event>): (calls: seq<Event>)
    ensures |calls| <= |events|
    ensures Invoked !in calls
    ensures forall e :: e in calls ==> e in events
    ensures forall e | e in events && e != Invoked :: e in calls
  {
    if events == [] then []
    else (if events[0] == Invoked then [] else [events[0]]) + TracerCalls(events[1..])
  }

  lemma {:induction false} TracerCallsAppend(a: seq<Event>, b: seq<Event>)
    ensures TracerCalls(a + b) == TracerCalls(a) + TracerCalls(b)
  {
    if a == [] {
      assert a + b == b;
    } else {
      var head := if a[0] == Invoked then [] else [a[0]];
      assert (a + b)[0] == a[0] && (a + b)[1..] == a[1..] + b;
      assert TracerCalls(a + b) == head + TracerCalls(a[1..] + b);
      TracerCallsAppend(a[1..], b);
      assert head + (TracerCalls(a[1..]) + TracerCalls(b)) == (head + TracerCalls(a[1..])) + TracerCalls(b);
    }
  }

  /** Every end callback comes straight after the start callback of its task. */
  ghost predicate EndsMatched(calls: seq<Event>)
  {
    forall i | 0 <= i < |calls| && calls[i].IsEnd() :: 0 < i && calls[i - 1] == Start
  }

  lemma EndsMatchedAppend(a: seq<Event>, b: seq<Event>)
    requires EndsMatched(a) && EndsMatched(b)
    ensures EndsMatched(a + b)
  {
    forall i | 0 <= i < |a + b| && (a + b)[i].IsEnd()
      ensures 0 < i && (a + b)[i - 1] == Start
    {
      if i >= |a| {
        assert (a + b)[i] == b[i - |a|];
        assert (a + b)[i - 1] == b[i - 1 - |a|];
      } else {
        assert (a + b)[i] == a[i];
      }
    }
  }
}
