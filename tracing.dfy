/** Tracing.getContext: the context a logging tracer prints with each callback. It is the calling
    thread's label followed by the stack frames that lie below the first StagedFuture frame
    (the frames of the code that built or ran the chain), at most `max` of them. */
module Tracing {
  import opened Outcomes
  import opened Decimal
  import opened Scans

  /** Java's int. */
  newtype Int32 = x: int | -0x8000_0000 <= x < 0x8000_0000

  /** Integer.MAX_VALUE, the bound getContext() passes on. */
  const INTEGER_MAX_VALUE: Int32 := 0x7fff_ffff

  /** StagedFuture.class.getName(). */
  const STAGED_FUTURE_CLASS := "io.soabase.stages.StagedFuture"

  /** One StackTraceElement: only its class name and line number are printed. */
  datatype Frame = Frame(className: string, lineNumber: Int32)

  /** The current thread: the name of its group (None when the thread has terminated and
      getThreadGroup() is null) and its own name. */
  datatype ThreadInfo = ThreadInfo(groupName: Option<string>, name: string)

  /** "@" + group name (or "-") + ":" + thread name. */
  function ThreadLabel(t: ThreadInfo): (text: string)
    ensures t.groupName.None? ==> text == "@-:" + t.name
    ensures t.groupName.Some? ==> text == "@" + t.groupName.value + ":" + t.name
  {
    "@" + (match t.groupName case Some(g) => g case None => "-") + ":" + t.name
  }

  predicate StartsWith(s: string, prefix: string)
  {
    |prefix| <= |s| && s[..|prefix|] == prefix
  }

  /** A frame whose class name starts with StagedFuture's, so StagedFutureImpl and the
      StagedFuture interface both count. */
  predicate IsStagedFutureFrame(f: Frame)
  {
    StartsWith(f.className, STAGED_FUTURE_CLASS)
  }

  /** trace.getClassName() + ":" + trace.getLineNumber(). */
  function FrameText(f: Frame): string
  {
    f.className + ":" + IntToDecimal(f.lineNumber as int)
  }

  /** The frames after the first StagedFuture frame, formatted. */
  function KeptTexts(stackTrace: seq<Frame>): seq<string>
  {
    Map(After(stackTrace, IsStagedFutureFrame), FrameText)
  }

  /** What getContext(max) returns for a thread and its stack trace. */
  function Context(t: ThreadInfo, stackTrace: seq<Frame>, max: int): seq<string>
  {
    Bounded(ThreadLabel(t), stackTrace, IsStagedFutureFrame, FrameText, max)
  }

  /** getContext(max): the thread's label, then scans the stack trace: frames up to and
      including the first StagedFuture frame are skipped, the later ones are added, until
      `max` frames have been added or the trace ends. */
  method GetContext(t: ThreadInfo, stackTrace: seq<Frame>, max: Int32) returns (context: seq<string>)
    ensures context == Context(t, stackTrace, max as int)
  {
    context := [ThreadLabel(t)];
    var index := 0;
    var started := false;
    ghost var k: nat := 0;
    while |context| - 1 < max as int && index < |stackTrace|
      invariant 0 <= index <= |stackTrace|
      invariant !started ==> context == [ThreadLabel(t)] && FirstIndex(stackTrace[..index], IsStagedFutureFrame).None?
      invariant started ==> k < index && FirstIndex(stackTrace, IsStagedFutureFrame) == Some(k)
      invariant started ==> context == [ThreadLabel(t)] + Map(stackTrace[k + 1..index], FrameText)
      invariant max >= 0 ==> |context| - 1 <= max as int
      invariant started ==> 0 < max
    {
      var trace := stackTrace[index];
      if started {
        ScanStep(ThreadLabel(t), stackTrace, FrameText, k + 1, index, context);
        context := context + [FrameText(trace)];
      } else {
        FirstIndexExtend(stackTrace, IsStagedFutureFrame, index);
        started := IsStagedFutureFrame(trace);
        k := index;
      }
      index := index + 1;
    }
    if started {
      ScanEndsStarted(stackTrace, IsStagedFutureFrame, FrameText, max as int, k, index);
    } else {
      ScanEndsUnstarted(stackTrace, IsStagedFutureFrame, FrameText, max as int, index);
    }
  }

  /** getContext(): the same, with no bound but Integer.MAX_VALUE. */
  method GetContextAll(t: ThreadInfo, stackTrace: seq<Frame>) returns (context: seq<string>)
    ensures context == Context(t, stackTrace, INTEGER_MAX_VALUE as int)
  {
    context := GetContext(t, stackTrace, INTEGER_MAX_VALUE);
  }

  /** The context always starts with the thread's label and holds at most `max` frames. */
  lemma ContextBounded(t: ThreadInfo, stackTrace: seq<Frame>, max: int)
    ensures var c := Context(t, stackTrace, max);
      && |c| >= 1 && c[0] == ThreadLabel(t)
      && (max >= 0 ==> |c| <= max + 1)
  {
    BoundedShape(ThreadLabel(t), stackTrace, IsStagedFutureFrame, FrameText, max);
  }

  /** Without a StagedFuture frame on the stack, or with max <= 0, the context is the label alone. */
  lemma ContextLabelOnly(t: ThreadInfo, stackTrace: seq<Frame>, max: int)
    requires max <= 0 || forall j | 0 <= j < |stackTrace| :: !IsStagedFutureFrame(stackTrace[j])
    ensures Context(t, stackTrace, max) == [ThreadLabel(t)]
  {
    BoundedShape(ThreadLabel(t), stackTrace, IsStagedFutureFrame, FrameText, max);
  }

  /** A larger bound only adds frames: a context is a prefix of the one for any larger max. */
  lemma ContextMonotone(t: ThreadInfo, stackTrace: seq<Frame>, max: int, larger: int)
    requires max <= larger
    ensures var c := Context(t, stackTrace, max);
      var d := Context(t, stackTrace, larger);
      |c| <= |d| && d[..|c|] == c
  {
    BoundedMonotone(ThreadLabel(t), stackTrace, IsStagedFutureFrame, FrameText, max, larger);
  }

  /** getContext() cuts nothing off a stack trace of realistic depth: it holds every frame after
      the first StagedFuture frame. */
  lemma ContextAllKeepsEverything(t: ThreadInfo, stackTrace: seq<Frame>)
    requires |stackTrace| <= INTEGER_MAX_VALUE as int
    ensures Context(t, stackTrace, INTEGER_MAX_VALUE as int) == [ThreadLabel(t)] + KeptTexts(stackTrace)
  {
  }

  /** A StagedFuture frame is one whose class name extends StagedFuture's: the implementation's
      frames count, a frame of this tracing class does not. */
  lemma StagedFutureFrameIff(f: Frame)
    ensures IsStagedFutureFrame(f) <==> exists rest: string :: f.className == STAGED_FUTURE_CLASS + rest
    ensures IsStagedFutureFrame(Frame(STAGED_FUTURE_CLASS + "Impl", f.lineNumber))
    ensures !IsStagedFutureFrame(Frame("io.soabase.stages.tracing.Tracing", f.lineNumber))
  {
    var n := |STAGED_FUTURE_CLASS|;
    if IsStagedFutureFrame(f) {
      assert f.className == STAGED_FUTURE_CLASS + f.className[n..];
    }
    forall rest: string | f.className == STAGED_FUTURE_CLASS + rest
      ensures IsStagedFutureFrame(f)
    {
      assert f.className[..n] == STAGED_FUTURE_CLASS;
    }
    assert (STAGED_FUTURE_CLASS + "Impl")[..n] == STAGED_FUTURE_CLASS;
    assert "io.soabase.stages.tracing.Tracing"[n - 1] != STAGED_FUTURE_CLASS[n - 1];
  }

  /** A formatted frame is the class name, a colon, then the line number, with a '-' in front
      exactly when the line number is negative. */
  lemma FrameTextParts(f: Frame)
    ensures var t := FrameText(f); var n := |f.className|;
      && |t| > n + 1 && t[..n] == f.className && t[n] == ':'
      && t[n + 1..] == IntToDecimal(f.lineNumber as int)
      && (t[n + 1] == '-' <==> f.lineNumber < 0)
  {
    var n := |f.className|;
    var digits := IntToDecimal(f.lineNumber as int);
    IntToDecimalSign(f.lineNumber as int);
    var t := f.className + ":" + digits;
    assert t[..n] == f.className;
    assert t[n + 1..] == digits;
  }
}
