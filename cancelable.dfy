/** Cancelable: a tracer that records which threads are inside a traced task, forwards every
    callback to an optional next tracer, and can cancel the chain: later tasks are refused with a
    CancellationException and, on request, the active threads are interrupted. A thread is a
    plain id; the JVM's interrupt flags are the set `Threads.interrupted`. */
module Cancellation {
  import opened Outcomes
  import StagedFutures

  type ThreadId = nat

  /** The interrupt status of every thread: the ids whose flag is set. */
  class Threads {
    var interrupted: set<ThreadId>

    constructor ()
      ensures interrupted == {}
    {
      interrupted := {};
    }
  }

  /** What startProc throws once the chain is cancelled. */
  const CANCELED := Throwable(CancellationException, "Chain has been canceled")

  /** A Cancelable's state as a value: the flag, the active threads, and the calls it has
      forwarded to its next tracer, in order. */
  datatype Registry = Registry(canceled: bool, active: set<ThreadId>, forwarded: seq<Event>)

  /** The calls forwarded to next: none when next is null. */
  function Forward(hasNext: bool, call: Event): (f: seq<Event>)
    ensures hasNext <==> f == [call]
    ensures !hasNext ==> f == []
  {
    if hasNext then [call] else []
  }

  datatype Started = Started(registry: Registry, thrown: Option<Throwable>)

  /** startProc: a cancelled registry throws and changes nothing; otherwise the thread becomes
      active, then the call is forwarded to next, whose own startProc may throw (`nextThrows`).
      That exception escapes with the thread still active. */
  function StartProcStep(r: Registry, hasNext: bool, thread: ThreadId, nextThrows: Option<Throwable>): (s: Started)
    ensures r.canceled ==> s.registry == r && s.thrown == Some(CANCELED)
    ensures !r.canceled ==> s.registry.active == r.active + {thread}
    ensures !r.canceled ==> s.registry.forwarded == r.forwarded + Forward(hasNext, Start)
    ensures !r.canceled ==> s.thrown == (if hasNext then nextThrows else None)
    ensures s.registry.canceled == r.canceled
  {
    if r.canceled then Started(r, Some(CANCELED))
    else
      var accepted := r.(active := r.active + {thread}, forwarded := r.forwarded + Forward(hasNext, Start));
      Started(accepted, if hasNext then nextThrows else None)
  }

  /** end(), then forwarding: the thread stops being active, and an interrupted thread cancels
      the chain. `call` is the end callback being forwarded. */
  function EndProcStep(r: Registry, hasNext: bool, thread: ThreadId, interrupted: set<ThreadId>, call: Event): (r': Registry)
    requires call.IsEnd()
    ensures thread !in r'.active && r'.active == r.active - {thread}
    ensures r'.canceled <==> r.canceled || thread in interrupted
    ensures r'.forwarded == r.forwarded + Forward(hasNext, call)
  {
    Registry(r.canceled || thread in interrupted, r.active - {thread}, r.forwarded + Forward(hasNext, call))
  }

  class Cancelable {
    const hasNext: bool
    var isCanceled: bool
    var active: set<ThreadId>
    var forwarded: seq<Event>

    function State(): Registry
      reads this
    {
      Registry(isCanceled, active, forwarded)
    }

    /** Cancelable() has no next tracer; Cancelable(next) forwards to it. */
    constructor (hasNext: bool)
      ensures this.hasNext == hasNext
      ensures State() == Registry(false, {}, [])
    {
      this.hasNext := hasNext;
      isCanceled := false;
      active := {};
      forwarded := [];
    }

    /** cancelChain(mayInterruptIfRunning): sets the flag, then interrupts every active thread
      if asked to. */
    method CancelChain(mayInterruptIfRunning: bool, threads: Threads)
      modifies this, threads
      ensures State() == old(State()).(canceled := true)
      ensures threads.interrupted == old(threads.interrupted) + (if mayInterruptIfRunning then active else {})
    {
      isCanceled := true;
      if mayInterruptIfRunning {
        var pending := active;
        while pending != {}
          invariant State() == old(State()).(canceled := true)
          invariant pending <= active
          invariant threads.interrupted == old(threads.interrupted) + (active - pending)
          decreases pending
        {
          var t :| t in pending;
          threads.interrupted := threads.interrupted + {t};
          pending := pending - {t};
        }
      }
    }

    /** startProc; `nextThrows` is what next.startProc() throws, if anything. */
    method StartProc(thread: ThreadId, nextThrows: Option<Throwable>) returns (thrown: Option<Throwable>)
      modifies this
      ensures Started(State(), thrown) == StartProcStep(old(State()), hasNext, thread, nextThrows)
    {
      if isCanceled {
        return Some(CANCELED);
      }
      active := active + {thread};
      thrown := None;
      if hasNext {
        forwarded := forwarded + [Start];
        thrown := nextThrows;
      }
    }

    method EndProcSuccess(thread: ThreadId, threads: Threads)
      modifies this
      ensures State() == EndProcStep(old(State()), hasNext, thread, threads.interrupted, Success)
    {
      End(thread, threads);
      if hasNext {
        forwarded := forwarded + [Success];
      }
    }

    method EndProcFail(e: Throwable, thread: ThreadId, threads: Threads)
      modifies this
      ensures State() == EndProcStep(old(State()), hasNext, thread, threads.interrupted, Fail(e))
    {
      End(thread, threads);
      if hasNext {
        forwarded := forwarded + [Fail(e)];
      }
    }

    method HandleInterrupted()
      modifies this
      ensures State() == old(State()).(canceled := true)
    {
      isCanceled := true;
    }

    method End(thread: ThreadId, threads: Threads)
      modifies this
      ensures active == old(active) - {thread} && forwarded == old(forwarded)
      ensures isCanceled <==> old(isCanceled) || thread in threads.interrupted
    {
      active := active - {thread};
      if thread in threads.interrupted {
        HandleInterrupted();
      }
    }
  }

  /** What a Cancelable's startProc throws: CancellationException once cancelled, otherwise
      whatever next.startProc() throws. */
  function Refusal(canceled: bool, hasNext: bool, nextThrows: Option<Throwable>): (x: Option<Throwable>)
    ensures x.Some? <==> canceled || (hasNext && nextThrows.Some?)
    ensures canceled ==> x == Some(CANCELED)
    ensures !canceled && x.Some? ==> x == nextThrows
  {
    if canceled then Some(CANCELED) else if hasNext then nextThrows else None
  }

  /** StagedFutureImpl.trace with a Cancelable as the tracing: startProc, the proc, then
      endProcSuccess or endProcFail. The reply and the forwarded calls are those of the chain's
      model of trace, for a tracer whose startProc throws what the Cancelable's does. A task
      whose startProc was refused by next, or whose proc never returns, leaves its thread active. */
  method Trace<U>(tracing: Cancelable, threads: Threads, thread: ThreadId, nextThrows: Option<Throwable>, proc: Reply<U>)
    returns (r: Reply<U>)
    modifies tracing
    ensures var refusal := Refusal(old(tracing.isCanceled), tracing.hasNext, nextThrows);
      var call := StagedFutures.Trace(StagedFutures.Tracer(refusal), proc);
      && r == call.reply
      && tracing.isCanceled == (old(tracing.isCanceled) || (refusal.None? && !proc.Hangs? && thread in threads.interrupted))
      && tracing.forwarded == old(tracing.forwarded) +
           (if tracing.hasNext && !old(tracing.isCanceled) then TracerCalls(call.events) else [])
    ensures tracing.active == if old(tracing.isCanceled) then old(tracing.active)
                              else if Refusal(false, tracing.hasNext, nextThrows).Some? || proc.Hangs? then old(tracing.active) + {thread}
                              else old(tracing.active) - {thread}
  {
    var thrown := tracing.StartProc(thread, nextThrows);
    if thrown.Some? {
      return Throws(thrown.value);
    }
    match proc
    case Returns(_) =>
      tracing.EndProcSuccess(thread, threads);
      r := proc;
    case Throws(e) =>
      tracing.EndProcFail(e, thread, threads);
      r := proc;
    case Hangs =>
      assert [Start, Invoked][1..] == [Invoked] && [Invoked][1..] == [];
      assert TracerCalls([Start, Invoked]) == [Start];
      r := Hangs;
  }

  /** One call a thread makes on a Cancelable, or a cancellation. */
  datatype Action =
    | Cancel(mayInterruptIfRunning: bool)
    | Begin(thread: ThreadId, nextThrows: Option<Throwable>)
    | EndSuccess(thread: ThreadId)
    | EndFail(thread: ThreadId, error: Throwable)

  /** A Cancelable and the interrupt flags of all threads. */
  datatype World = World(registry: Registry, interrupted: set<ThreadId>)

  function Act(w: World, hasNext: bool, a: Action): (w': World)
    ensures w'.registry.canceled <==>
      w.registry.canceled || a.Cancel? || ((a.EndSuccess? || a.EndFail?) && a.thread in w.interrupted)
    ensures a.Cancel? && a.mayInterruptIfRunning ==> w'.interrupted == w.interrupted + w.registry.active
    ensures !(a.Cancel? && a.mayInterruptIfRunning) ==> w'.interrupted == w.interrupted
    ensures |w.registry.forwarded| <= |w'.registry.forwarded|
    ensures w'.registry.forwarded[..|w.registry.forwarded|] == w.registry.forwarded
  {
    match a
    case Cancel(may) =>
      World(w.registry.(canceled := true), w.interrupted + (if may then w.registry.active else {}))
    case Begin(t, nextThrows) => World(StartProcStep(w.registry, hasNext, t, nextThrows).registry, w.interrupted)
    case EndSuccess(t) => World(EndProcStep(w.registry, hasNext, t, w.interrupted, Success), w.interrupted)
    case EndFail(t, e) => World(EndProcStep(w.registry, hasNext, t, w.interrupted, Fail(e)), w.interrupted)
  }

  function ActAll(w: World, hasNext: bool, actions: seq<Action>): (w': World)
    ensures w.interrupted <= w'.interrupted
    ensures |w.registry.forwarded| <= |w'.registry.forwarded|
    ensures w'.registry.forwarded[..|w.registry.forwarded|] == w.registry.forwarded
    decreases |actions|
  {
    if actions == [] then w else ActAll(Act(w, hasNext, actions[0]), hasNext, actions[1..])
  }

  /** Nothing resets the flag: once cancelled, a Cancelable stays cancelled. */
  lemma {:induction false} CanceledStaysCanceled(w: World, hasNext: bool, actions: seq<Action>)
    requires w.registry.canceled
    ensures ActAll(w, hasNext, actions).registry.canceled
    decreases |actions|
  {
    if actions != [] {
      CanceledStaysCanceled(Act(w, hasNext, actions[0]), hasNext, actions[1..]);
    }
  }

  /** One action on a cancelled Cancelable: it stays cancelled, no thread becomes active, and
      what it forwards is not a start. */
  lemma ActAfterCancel(w: World, hasNext: bool, a: Action)
    requires w.registry.canceled
    ensures var w' := Act(w, hasNext, a);
      && w'.registry.canceled
      && w'.registry.active <= w.registry.active
      && |w.registry.forwarded| <= |w'.registry.forwarded|
      && w'.registry.forwarded[..|w.registry.forwarded|] == w.registry.forwarded
      && Start !in w'.registry.forwarded[|w.registry.forwarded|..]
  {
  }

  /** After cancellation no thread becomes active and no start is forwarded: every later
      startProc is refused, while the running threads can still end. */
  lemma {:induction false} CanceledStartsNothing(w: World, hasNext: bool, actions: seq<Action>)
    requires w.registry.canceled
    ensures ActAll(w, hasNext, actions).registry.active <= w.registry.active
    ensures var f := ActAll(w, hasNext, actions).registry.forwarded;
      |w.registry.forwarded| <= |f| && f[..|w.registry.forwarded|] == w.registry.forwarded &&
      Start !in f[|w.registry.forwarded|..]
    decreases |actions|
  {
    if actions != [] {
      var w' := Act(w, hasNext, actions[0]);
      ActAfterCancel(w, hasNext, actions[0]);
      var added := w'.registry.forwarded[|w.registry.forwarded|..];
      assert w'.registry.forwarded == w.registry.forwarded + added;
      CanceledStartsNothing(w', hasNext, actions[1..]);
      var f := ActAll(w', hasNext, actions[1..]).registry.forwarded;
      assert f[..|w'.registry.forwarded|] == w'.registry.forwarded;
      assert f[|w.registry.forwarded|..] == added + f[|w'.registry.forwarded|..];
    }
  }


  /** cancelChain(true) interrupts exactly the active threads; cancelChain(false) none. */
  lemma CancelInterruptsActive(w: World, hasNext: bool)
    ensures Act(w, hasNext, Cancel(true)).interrupted - w.interrupted == w.registry.active - w.interrupted
    ensures Act(w, hasNext, Cancel(false)).interrupted == w.interrupted
    ensures Act(w, hasNext, Cancel(true)).registry.canceled && Act(w, hasNext, Cancel(false)).registry.canceled
  {
  }

  /** A thread that was interrupted while it ran cancels the chain when its task ends. */
  lemma InterruptedEndCancels(w: World, hasNext: bool, t: ThreadId, e: Throwable)
    requires t in w.interrupted
    ensures Act(w, hasNext, EndSuccess(t)).registry.canceled
    ensures Act(w, hasNext, EndFail(t, e)).registry.canceled
  {
  }

  /** A chain cancelled while one of its stages runs: the running thread is interrupted, its
      task ends with whatever exception the interrupt caused and leaves the active set, and the next task of any thread is refused and never
      becomes active. */
  lemma {:induction false} CancelWhileRunning(w: World, hasNext: bool, running: ThreadId, later: ThreadId, nextThrows: Option<Throwable>, e: Throwable)
    requires !w.registry.canceled
    ensures var w1 := ActAll(w, hasNext, [Begin(running, None), Cancel(true)]);
      && running in w1.interrupted
      && StartProcStep(w1.registry, hasNext, later, nextThrows).thrown == Some(CANCELED)
      && ActAll(w1, hasNext, [EndFail(running, e), Begin(later, nextThrows)]).registry.active == w.registry.active - {running}
  {
    var w0 := Act(w, hasNext, Begin(running, None));
    assert running in w0.registry.active;
    var w1 := Act(w0, hasNext, Cancel(true));
    assert [Begin(running, None), Cancel(true)][1..] == [Cancel(true)] && [Cancel(true)][1..] == [];
    assert ActAll(w, hasNext, [Begin(running, None), Cancel(true)]) == w1;
    var w2 := Act(w1, hasNext, EndFail(running, e));
    var w3 := Act(w2, hasNext, Begin(later, nextThrows));
    assert [EndFail(running, e), Begin(later, nextThrows)][1..] == [Begin(later, nextThrows)] && [Begin(later, nextThrows)][1..] == [];
    assert ActAll(w1, hasNext, [EndFail(running, e), Begin(later, nextThrows)]) == ActAll(w2, hasNext, [Begin(later, nextThrows)]);
    assert ActAll(w2, hasNext, [Begin(later, nextThrows)]) == w3;
    assert w3.registry.active == w2.registry.active;
  }
}
