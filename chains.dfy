/** A whole chain: a StagedFuture followed by the combinators called on it, one after another.
    Each stage starts only once the previous one has settled, so the calls of the chain are the
    calls of its stages, in order. All stages carry one value type. */
module Chains {
  import opened Outcomes
  import opened StagedFutures
  import Timeout

  /** One combinator call on a chain, with its arguments. */
  datatype Op<!V> =
    | ThenIfOp(proc: V -> Reply<Option<V>>)
    | ThenOp(fn: V -> Reply<V>)
    | ThenStageIfOp(stageIf: Option<V> -> Future<Option<V>>)
    | ThenStageOp(stage: V -> Future<V>)
    | WithTimeoutOp(max: Timeout.Duration, first: Timeout.Race)
    | WithTimeoutDefaultOp(max: Timeout.Duration, defaultValue: Reply<V>, first: Timeout.Race)
    | WhenCompleteOp(onComplete: V -> Reply<()>)
    | WhenCompleteYieldOp(yielding: V -> Reply<V>)
    | WhenAbortedOp(onAbort: Reply<()>)
    | WhenFailedOp(onFail: Throwable -> Reply<()>)
    | WhenFinalOp(onFinal: Reply<()>)

  /** The stages that only do something for a present value. */
  predicate OnlyOnPresent<V>(op: Op<V>)
  {
    op.ThenIfOp? || op.ThenOp? || op.ThenStageOp? || op.WhenCompleteOp? || op.WhenCompleteYieldOp?
  }

  function Apply<V>(s: StagedFuture<V>, op: Op<V>): (r: Link<V>)
    ensures r.next.executor == s.executor && r.next.tracing == s.tracing
  {
    match op
    case ThenIfOp(proc) => ThenIf(s, proc)
    case ThenOp(fn) => Then(s, fn)
    case ThenStageIfOp(stageIf) => ThenStageIf(s, stageIf)
    case ThenStageOp(stage) => ThenStage(s, stage)
    case WithTimeoutOp(max, first) => WithTimeout(s, max, first)
    case WithTimeoutDefaultOp(max, defaultValue, first) => WithTimeoutDefault(s, max, defaultValue, first)
    case WhenCompleteOp(onComplete) => WhenComplete(s, onComplete)
    case WhenCompleteYieldOp(yielding) => WhenCompleteYield(s, yielding)
    case WhenAbortedOp(onAbort) => WhenAborted(s, onAbort)
    case WhenFailedOp(onFail) => WhenFailed(s, onFail)
    case WhenFinalOp(onFinal) => WhenFinal(s, onFinal)
  }

  /** The chain after all of `ops`, and every call made along the way. */
  function Run<V>(s: StagedFuture<V>, ops: seq<Op<V>>): (r: Link<V>)
    ensures r.next.executor == s.executor && r.next.tracing == s.tracing
    decreases |ops|
  {
    if ops == [] then Link(s, [])
    else
      var head := Apply(s, ops[0]);
      var rest := Run(head.next, ops[1..]);
      Link(rest.next, head.events + rest.events)
  }

  function Repeat(block: seq<Event>, n: nat): (r: seq<Event>)
    ensures |r| == n * |block|
  {
    if n == 0 then [] else block + Repeat(block, n - 1)
  }

  ghost predicate AlwaysPresent<V(!new)>(proc: V -> Reply<Option<V>>)
  {
    forall x :: proc(x).Returns? && proc(x).value.Some?
  }

  /** Running two lists of stages one after the other is running their concatenation. */
  lemma {:induction false} RunAppend<V>(s: StagedFuture<V>, a: seq<Op<V>>, b: seq<Op<V>>)
    ensures Run(s, a + b).next == Run(Run(s, a).next, b).next
    ensures Run(s, a + b).events == Run(s, a).events + Run(Run(s, a).next, b).events
    decreases |a|
  {
    if a == [] {
      assert a + b == b;
    } else {
      assert (a + b)[0] == a[0];
      assert (a + b)[1..] == a[1..] + b;
      var head := Apply(s, a[0]);
      RunAppend(head.next, a[1..], b);
      var ra := Run(head.next, a[1..]);
      var rb := Run(ra.next, b);
      assert head.events + (ra.events + rb.events) == (head.events + ra.events) + rb.events;
    }
  }

  lemma RunOne<V>(s: StagedFuture<V>, op: Op<V>)
    ensures Run(s, [op]) == Apply(s, op)
  {
    var head := Apply(s, op);
    assert [op][1..] == [];
    assert head.events + [] == head.events;
  }

  lemma RunTwo<V>(s: StagedFuture<V>, a: Op<V>, b: Op<V>)
    ensures Run(s, [a, b]).next == Apply(Apply(s, a).next, b).next
    ensures Run(s, [a, b]).events == Apply(s, a).events + Apply(Apply(s, a).next, b).events
  {
    assert [a, b] == [a] + [b];
    RunAppend(s, [a], [b]);
    RunOne(s, a);
    RunOne(Apply(s, a).next, b);
  }

  /** Once a chain is empty, failed or unsettled, the stages that act only on a present value
      call nothing, trace nothing, and leave the chain as it is. */
  lemma {:induction false} SkippedUnlessPresent<V>(s: StagedFuture<V>, ops: seq<Op<V>>)
    requires !s.future.Present?
    requires forall i | 0 <= i < |ops| :: OnlyOnPresent(ops[i])
    ensures Run(s, ops) == Link(s, [])
    decreases |ops|
  {
    if ops != [] {
      assert OnlyOnPresent(ops[0]);
      assert Skip<V, V>(s.future) == s.future;
      assert Apply(s, ops[0]) == Link(s, []);
      SkippedUnlessPresent(s, ops[1..]);
    }
  }

  /** A chain of thenIf stages that each produce a value, traced by a tracer that lets them all
      start: start, call, success for each stage, in stage order. */
  lemma {:induction false} PresentStagesTraceInOrder<V(!new)>(s: StagedFuture<V>, ops: seq<Op<V>>)
    requires s.future.Present? && s.tracing == Some(Tracer(None))
    requires forall i | 0 <= i < |ops| :: ops[i].ThenIfOp? && AlwaysPresent(ops[i].proc)
    ensures Run(s, ops).next.future.Present?
    ensures Run(s, ops).events == Repeat([Start, Invoked, Success], |ops|)
    decreases |ops|
  {
    if ops != [] {
      var proc := ops[0].proc;
      assert proc(s.future.value).Returns? && proc(s.future.value).value.Some?;
      var head := Apply(s, ops[0]);
      assert head.events == [Start, Invoked, Success];
      PresentStagesTraceInOrder(head.next, ops[1..]);
    }
  }

  /** The aborting stage and the stages after it: one traced call, then nothing. */
  lemma AbortedPrefix<V>(s: StagedFuture<V>, abort: V -> Reply<Option<V>>, ops: seq<Op<V>>)
    requires s.future.Present? && s.tracing == Some(Tracer(None))
    requires abort(s.future.value) == Returns(None)
    requires forall i | 0 <= i < |ops| :: OnlyOnPresent(ops[i])
    ensures Run(s, [ThenIfOp(abort)] + ops) == Link(StagedFuture(s.executor, Absent, s.tracing), [Start, Invoked, Success])
  {
    var head := Apply(s, ThenIfOp(abort));
    assert head.events == [Start, Invoked, Success] && head.next == StagedFuture(s.executor, Absent, s.tracing);
    RunAppend(s, [ThenIfOp(abort)], ops);
    RunOne(s, ThenIfOp(abort));
    SkippedUnlessPresent(head.next, ops);
  }

  /** The tracer's view of an aborting stage followed by a whenAborted handler. */
  lemma AbortedTracerCalls()
    ensures TracerCalls([Start, Invoked, Success, Invoked]) == [Start, Success]
  {
    TracerCallsAppend([Start, Invoked, Success], [Invoked]);
    TracerCallsAppend([Start], [Invoked, Success]);
    assert [Start, Invoked, Success] == [Start] + [Invoked, Success];
    assert [Start, Invoked, Success, Invoked] == [Start, Invoked, Success] + [Invoked];
    assert [Invoked, Success][1..] == [Success];
  }

  /** A whenAborted stage on an aborted chain: its handler runs once and the chain stays empty. */
  lemma WhenAbortedRuns<V>(aborted: StagedFuture<V>, onAbort: Reply<()>)
    requires aborted.future.Absent? && onAbort.Returns?
    ensures Run(aborted, [WhenAbortedOp(onAbort)]) == Link(aborted, [Invoked])
  {
    RunOne(aborted, WhenAbortedOp(onAbort));
  }

  /** A stage that aborts stops the chain: later stages leave no trace and the whenAborted
      handler at the end runs once. */
  lemma AbortStopsChain<V>(s: StagedFuture<V>, abort: V -> Reply<Option<V>>, ops: seq<Op<V>>, onAbort: Reply<()>)
    requires s.future.Present? && s.tracing == Some(Tracer(None))
    requires abort(s.future.value) == Returns(None)
    requires forall i | 0 <= i < |ops| :: OnlyOnPresent(ops[i])
    requires onAbort.Returns?
    ensures Run(s, [ThenIfOp(abort)] + ops + [WhenAbortedOp(onAbort)]).events == [Start, Invoked, Success, Invoked]
    ensures TracerCalls(Run(s, [ThenIfOp(abort)] + ops + [WhenAbortedOp(onAbort)]).events) == [Start, Success]
    ensures Run(s, [ThenIfOp(abort)] + ops + [WhenAbortedOp(onAbort)]).next.future == Absent
  {
    var pre := [ThenIfOp(abort)] + ops;
    var aborted: StagedFuture<V> := StagedFuture(s.executor, Absent, s.tracing);
    AbortedPrefix(s, abort, ops);
    WhenAbortedRuns(aborted, onAbort);
    RunAppend(s, pre, [WhenAbortedOp(onAbort)]);
    assert Run(s, pre + [WhenAbortedOp(onAbort)]).events == [Start, Invoked, Success] + [Invoked];
    AbortedTracerCalls();
  }

  /** The first two steps of HangingStageTimesOut: the hanging stage, then the timer's failure. */
  lemma HangThenTimeout<V>(s: StagedFuture<V>, hang: V -> Reply<Option<V>>, max: Timeout.Duration, first: Timeout.Race)
    requires s.future.Present? && s.tracing == Some(Tracer(None))
    requires hang(s.future.value).Hangs?
    ensures Run(s, [ThenIfOp(hang), WithTimeoutOp(max, first)])
         == Link(StagedFuture(s.executor, Failed(Timeout.TimeoutError(max)), s.tracing), [Start, Invoked])
  {
    var hung := Apply(s, ThenIfOp(hang));
    assert hung.next.future == Unsettled && hung.events == [Start, Invoked];
    var timed := Apply(hung.next, WithTimeoutOp(max, first));
    assert timed.next.future == Failed(Timeout.TimeoutError(max)) && timed.events == [];
    RunTwo(s, ThenIfOp(hang), WithTimeoutOp(max, first));
  }

  /** A whenFailed stage on a failed chain: its handler sees the exception. */
  lemma WhenFailedRuns<V>(failed: StagedFuture<V>, onFail: Throwable -> Reply<()>)
    requires failed.future.Failed?
    ensures Run(failed, [WhenFailedOp(onFail)]).next.future == OfReply(EmptyAfter(onFail(failed.future.error)))
  {
    RunOne(failed, WhenFailedOp(onFail));
  }

  /** A stage that never returns, raced against a timer that fires: the chain fails with the
      TimeoutException, later stages leave no trace, and a final whenFailed sees that exception. */
  lemma HangingStageTimesOut<V>(s: StagedFuture<V>, hang: V -> Reply<Option<V>>, max: Timeout.Duration,
                                first: Timeout.Race, ops: seq<Op<V>>, onFail: Throwable -> Reply<()>)
    requires s.future.Present? && s.tracing == Some(Tracer(None))
    requires hang(s.future.value).Hangs?
    requires forall i | 0 <= i < |ops| :: OnlyOnPresent(ops[i])
    ensures Run(s, [ThenIfOp(hang), WithTimeoutOp(max, first)] + ops).next.future == Failed(Timeout.TimeoutError(max))
    ensures Run(s, [ThenIfOp(hang), WithTimeoutOp(max, first)] + ops).events == [Start, Invoked]
    ensures Run(s, [ThenIfOp(hang), WithTimeoutOp(max, first)] + ops + [WhenFailedOp(onFail)]).next.future
         == OfReply(EmptyAfter(onFail(Timeout.TimeoutError(max))))
  {
    var pre := [ThenIfOp(hang), WithTimeoutOp(max, first)];
    var failed := StagedFuture(s.executor, Failed(Timeout.TimeoutError(max)), s.tracing);
    HangThenTimeout(s, hang, max, first);
    RunAppend(s, pre, ops);
    SkippedUnlessPresent(failed, ops);
    assert Run(s, pre + ops) == Link(failed, [Start, Invoked]);
    RunAppend(s, pre + ops, [WhenFailedOp(onFail)]);
    WhenFailedRuns(failed, onFail);
  }

  /** The first two steps of HangingStageTakesDefault: the hanging stage, then the default. */
  lemma HangThenDefault<V>(s: StagedFuture<V>, hang: V -> Reply<Option<V>>, max: Timeout.Duration, dv: V, first: Timeout.Race)
    requires s.future.Present? && s.tracing == Some(Tracer(None))
    requires hang(s.future.value).Hangs?
    ensures Run(s, [ThenIfOp(hang), WithTimeoutDefaultOp(max, Returns(dv), first)])
      == Link(StagedFuture(s.executor, Present(dv), s.tracing), [Start, Invoked, Invoked])
  {
    var hung := Apply(s, ThenIfOp(hang));
    assert hung.next.future == Unsettled && hung.events == [Start, Invoked];
    var timed := Apply(hung.next, WithTimeoutDefaultOp(max, Returns(dv), first));
    assert timed.next == StagedFuture(s.executor, Present(dv), s.tracing) && timed.events == [Invoked];
    RunTwo(s, ThenIfOp(hang), WithTimeoutDefaultOp(max, Returns(dv), first));
  }

  /** The same race with a default that the supplier returns: the chain continues with the
      default as a present value, and every later stage sees it. */
  lemma HangingStageTakesDefault<V>(s: StagedFuture<V>, hang: V -> Reply<Option<V>>, max: Timeout.Duration,
                                    dv: V, first: Timeout.Race, ops: seq<Op<V>>)
    requires s.future.Present? && s.tracing == Some(Tracer(None))
    requires hang(s.future.value).Hangs?
    ensures var resumed := StagedFuture(s.executor, Present(dv), s.tracing);
      && Run(s, [ThenIfOp(hang), WithTimeoutDefaultOp(max, Returns(dv), first)] + ops).next == Run(resumed, ops).next
      && Run(s, [ThenIfOp(hang), WithTimeoutDefaultOp(max, Returns(dv), first)] + ops).events
         == [Start, Invoked, Invoked] + Run(resumed, ops).events
  {
    HangThenDefault(s, hang, max, dv, first);
    RunAppend(s, [ThenIfOp(hang), WithTimeoutDefaultOp(max, Returns(dv), first)], ops);
  }

  /** A stage that throws fails the chain (it does not abort it); later stages leave no trace,
      and a final whenFailed whose handler returns turns the chain empty. */
  lemma FailureRecoversToAbsent<V>(s: StagedFuture<V>, failing: V -> Reply<Option<V>>, ops: seq<Op<V>>,
                                   onFail: Throwable -> Reply<()>)
    requires s.future.Present? && s.tracing == Some(Tracer(None))
    requires failing(s.future.value).Throws?
    requires forall i | 0 <= i < |ops| :: OnlyOnPresent(ops[i])
    requires onFail(failing(s.future.value).error).Returns?
    ensures var e := failing(s.future.value).error;
      && Run(s, [ThenIfOp(failing)] + ops).next.future == Failed(e)
      && Run(s, [ThenIfOp(failing)] + ops + [WhenFailedOp(onFail)]).events == [Start, Invoked, Fail(e), Invoked]
      && Run(s, [ThenIfOp(failing)] + ops + [WhenFailedOp(onFail)]).next.future == Absent
  {
    var e := failing(s.future.value).error;
    var head := Apply(s, ThenIfOp(failing));
    assert head.next.future == Failed(e) && head.events == [Start, Invoked, Fail(e)];
    RunOne(s, ThenIfOp(failing));
    RunAppend(s, [ThenIfOp(failing)], ops);
    SkippedUnlessPresent(head.next, ops);
    RunAppend(s, [ThenIfOp(failing)] + ops, [WhenFailedOp(onFail)]);
  }

  /** A tracer that refuses to start (a cancelled chain) fails the first thenIf stage before its
      proc runs; no later thenIf stage runs either. */
  lemma {:induction false} RefusedChainRunsNothing<V>(s: StagedFuture<V>, ops: seq<Op<V>>, e: Throwable)
    requires s.future.Present? && s.tracing == Some(Tracer(Some(e)))
    requires 0 < |ops|
    requires forall i | 0 <= i < |ops| :: ops[i].ThenIfOp?
    ensures Run(s, ops) == Link(StagedFuture(s.executor, Failed(e), s.tracing), [Start])
  {
    var head := Apply(s, ops[0]);
    assert head == Link(StagedFuture(s.executor, Failed(e), s.tracing), [Start]);
    SkippedUnlessPresent(head.next, ops[1..]);
  }

  /** A Cancelable that becomes cancelled part-way through a chain, between the stages `before`
      and the thenIf stages `after`: from then on its startProc throws `e`. No proc of `after`
      runs; a present chain fails with `e` after one refused start, and any other chain is
      passed on with no call. */
  lemma CancelledPartWay<V>(s: StagedFuture<V>, before: seq<Op<V>>, after: seq<Op<V>>, e: Throwable)
    requires 0 < |after|
    requires forall i | 0 <= i < |after| :: after[i].ThenIfOp?
    ensures var mid := Run(s, before).next;
      var rest := Run(mid.(tracing := Some(Tracer(Some(e)))), after);
      && Invoked !in rest.events
      && rest.events == (if mid.future.Present? then [Start] else [])
      && rest.next.future == (if mid.future.Present? then Failed(e) else mid.future)
  {
    var refusing := Run(s, before).next.(tracing := Some(Tracer(Some(e))));
    if refusing.future.Present? {
      RefusedChainRunsNothing(refusing, after, e);
    } else {
      SkippedUnlessPresent(refusing, after);
    }
  }

  lemma ApplyEndsMatched<V>(s: StagedFuture<V>, op: Op<V>)
    ensures EndsMatched(TracerCalls(Apply(s, op).events))
  {
    var events := Apply(s, op).events;
    if op.ThenIfOp? && s.future.Present? {
      if s.tracing.None? {
        assert events == [Invoked];
      }
    } else if op.ThenOp? && s.future.Present? {
      if s.tracing.None? {
        assert events == [Invoked];
      }
    } else {
      assert events == [] || events == [Invoked];
      assert TracerCalls([Invoked]) == [];
    }
  }

  /** Whatever the stages, the tracer never sees an end callback that does not come straight
      after the start callback of the same task. */
  lemma {:induction false} TracerCallsBracketed<V>(s: StagedFuture<V>, ops: seq<Op<V>>)
    ensures EndsMatched(TracerCalls(Run(s, ops).events))
    decreases |ops|
  {
    if ops != [] {
      var head := Apply(s, ops[0]);
      var rest := Run(head.next, ops[1..]);
      ApplyEndsMatched(s, ops[0]);
      TracerCallsBracketed(head.next, ops[1..]);
      TracerCallsAppend(head.events, rest.events);
      EndsMatchedAppend(TracerCalls(head.events), TracerCalls(rest.events));
    }
  }
}
