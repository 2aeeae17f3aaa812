/** AbortWrapper: turns a CompletionStage<Optional<T>> into a CompletionStage<T> in which an
    empty Optional becomes a failure with an AbortException. */
module AbortWrapper {
  import opened Outcomes

  /** AbortException's constructor. */
  function NewAbortException(): (e: Throwable)
    ensures e.kind == WrapperAbortException && e.message == "Aborted"
  {
    WRAPPER_ABORTED
  }

  /** abortIfEmpty(stage): thenCompose into a fresh future completed once, normally with the
      value or exceptionally with an AbortException. A failed stage skips the function. */
  function AbortIfEmpty<T>(stage: Outcome<T>): (r: Future<T>)
    ensures r.Value? <==> stage.Present?
    ensures stage.Present? ==> r.value == stage.value
    ensures stage.Absent? ==> r == Error(NewAbortException())
    ensures stage.Failed? ==> r == Error(stage.error)
    ensures r.Never? <==> stage.Unsettled?
  {
    match stage
    case Present(v) => Value(v)
    case Absent => Error(NewAbortException())
    case Failed(e) => Error(e)
    case Unsettled => Never
  }

  /** The only thing abortIfEmpty forgets is whether a failure with "Aborted" was an empty
      Optional or an AbortWrapper.AbortException raised earlier: two stages give the same future exactly
      when they are equal or are those two. */
  lemma AbortIfEmptyForgetsOnlyAborts<T>(a: Outcome<T>, b: Outcome<T>)
    ensures AbortIfEmpty(a) == AbortIfEmpty(b) <==>
      a == b || {a, b} == {Absent, Failed(WRAPPER_ABORTED)}
  {
    if AbortIfEmpty(a) == AbortIfEmpty(b) && a != b {
      assert a.Absent? || b.Absent?;
    }
  }
}
