/**
 * The scheduling core of `IOEventLoop` (mrblib/io_event_loop.rb): the
 * decision taken by one pass of the event-loop fiber, and the bookkeeping
 * that `concurrently`, `wait`, `await_readable` and `await_writable` do
 * against the run queue (timers) and the IO watcher (per-IO reader and
 * writer registrations).
 *
 * The run queue and the IO watcher are represented only by abstract state:
 * the sequence of scheduled entries and two maps from IO to the registered
 * fiber. Every call the loop makes on a collaborator is also appended, in
 * order, to `calls`. Switching fibers (`resume`) is not modelled: the state
 * the loop hands back and what the fiber is resumed with are inputs.
 */
module EventLoop {
  import opened Wrappers

  /** An IO object, identified by its descriptor. */
  type IO = nat

  /** A Ruby exception: its class name and message. */
  datatype Exception = Exception(kind: string, message: string)

  /** What a fiber runs: a fiber created elsewhere (`Fiber.current`), or the block given to `concurrently`. */
  datatype Body = Foreign | Block(outcome: Outcome)

  class Fiber {
    const body: Body
    constructor (body: Body)
      ensures this.body == body
    {
      this.body := body;
    }
  }

  /** The future `concurrently` hands out; only its identity and its fiber matter here. */
  class Future {
    const fiber: Fiber
    constructor (fiber: Fiber)
      ensures this.fiber == fiber
    {
      this.fiber := fiber;
    }
  }

  /** The Ruby values that flow through the code modelled: `nil`, booleans, exceptions, futures, anything else. */
  datatype Value = Nil | Bool(b: bool) | Exc(e: Exception) | FutureRef(future: Future) | Obj(id: nat)

  /** How a piece of Ruby code ends: it returns a value or raises an exception. */
  datatype Outcome = Returned(value: Value) | Raised(error: Exception)

  /** The optional third argument of `RunQueue#schedule`. */
  datatype Payload = Omitted | Given(value: Value)

  /** One scheduled entry of the run queue: the fiber, its delay in seconds (or nil), its payload. */
  datatype Entry = Entry(fiber: Fiber, delay: Option<real>, payload: Payload)

  /** A call the loop makes on a collaborator, or `resume` (transfer to the loop fiber). */
  datatype Call =
    | Schedule(fiber: Fiber, delay: Option<real>, payload: Payload)
    | Cancel(fiber: Fiber)
    | WatchReader(io: IO, fiber: Fiber)
    | WatchWriter(io: IO, fiber: Fiber)
    | CancelWatchingReader(io: IO)
    | CancelWatchingWriter(io: IO)
    | Trigger(event: string, arg: Value)
    | EvaluateTo(future: Future, value: Value)
    | Resume

  /** The state of the run queue and of the IO watcher. */
  datatype Snapshot = Snapshot(runQueue: seq<Entry>, readers: map<IO, Fiber>, writers: map<IO, Fiber>)

  /** `IOWatcher#watches?`: some IO has a reader or a writer registered. */
  predicate Watches(s: Snapshot) {
    s.readers != map[] || s.writers != map[]
  }

  /** `RunQueue#cancel(fiber)`: the queue without the entries of `fiber`, the rest kept in order. */
  function Cancelled(q: seq<Entry>, fiber: Fiber): (r: seq<Entry>)
    ensures |r| <= |q|
    ensures forall i :: 0 <= i < |r| ==> r[i] in q && r[i].fiber != fiber
    ensures forall i :: 0 <= i < |q| && q[i].fiber != fiber ==> q[i] in r
  {
    if q == [] then []
    else if q[0].fiber == fiber then Cancelled(q[1..], fiber)
    else [q[0]] + Cancelled(q[1..], fiber)
  }

  /** Cancelling distributes over concatenation: the entries kept stay in their order. */
  lemma {:induction false} CancelledKeepsOrder(a: seq<Entry>, b: seq<Entry>, fiber: Fiber)
    ensures Cancelled(a + b, fiber) == Cancelled(a, fiber) + Cancelled(b, fiber)
  {
    if a == [] {
      assert a + b == b;
    } else {
      assert (a + b)[0] == a[0] && (a + b)[1..] == a[1..] + b;
      CancelledKeepsOrder(a[1..], b, fiber);
    }
  }

  /** Each entry of another fiber is kept as often as it occurs; no entry of `fiber` is kept. */
  lemma {:induction false} CancelledKeepsCounts(q: seq<Entry>, fiber: Fiber, e: Entry)
    ensures multiset(Cancelled(q, fiber))[e] == if e.fiber == fiber then 0 else multiset(q)[e]
  {
    if q != [] {
      assert q == [q[0]] + q[1..];
      CancelledKeepsCounts(q[1..], fiber, e);
    }
  }

  /** Cancelling a fiber that has no entry left (its timer already fired) changes nothing. */
  lemma {:induction false} CancelAbsentIsNoOp(q: seq<Entry>, fiber: Fiber)
    requires forall i :: 0 <= i < |q| ==> q[i].fiber != fiber
    ensures Cancelled(q, fiber) == q
  {
    if q != [] {
      CancelAbsentIsNoOp(q[1..], fiber);
    }
  }

  /** Cancelling twice is cancelling once. */
  lemma CancelIdempotent(q: seq<Entry>, fiber: Fiber)
    ensures Cancelled(Cancelled(q, fiber), fiber) == Cancelled(q, fiber)
  {
    var r := Cancelled(q, fiber);
    CancelAbsentIsNoOp(r, fiber);
  }

  /** The message of the error raised when the loop has nothing to wait for. */
  const InfiniteLoopMessage: string :=
    "Infinitely running event loop detected. This should not happen and is considered a bug in this gem."

  /** What one pass of the event-loop fiber does. */
  datatype Action =
    | ProcessPending                          // @run_queue.process_pending
    | ProcessReadyIn(timeout: Option<real>)   // @io_watcher.process_ready_in timeout
    | Fail(error: Exception)                  // raise Error, ...

  /**
   * One pass of `while true` in the event-loop fiber, given what
   * `@run_queue.waiting_time` answered (a number of seconds or nil) and
   * whether the IO watcher watches anything.
   */
  function LoopStep(waitingTime: Option<real>, watches: bool): (a: Action)
    // due timers first, even when IO is watched
    ensures a == ProcessPending <==> waitingTime == Some(0.0)
    // otherwise block on IO for exactly the waiting time, nil meaning without bound
    ensures a.ProcessReadyIn? <==> waitingTime != Some(0.0) && (watches || waitingTime.Some?)
    ensures a.ProcessReadyIn? ==> a.timeout == waitingTime
    // an unbounded wait only when some IO can end it
    ensures a == ProcessReadyIn(None) ==> watches
    // the error exactly when there is neither a timer nor a watch
    ensures a.Fail? <==> waitingTime.None? && !watches
    ensures a.Fail? ==> a.error == Exception("IOEventLoop::Error", InfiniteLoopMessage)
  {
    if waitingTime == Some(0.0) then ProcessPending
    else if watches || waitingTime.Some? then ProcessReadyIn(waitingTime)
    else Fail(Exception("IOEventLoop::Error", InfiniteLoopMessage))
  }

  /** A timer with a deadline is queued, or some IO is watched. */
  predicate SomethingToWaitFor(s: Snapshot) {
    (exists i :: 0 <= i < |s.runQueue| && s.runQueue[i].delay.Some?) || Watches(s)
  }

  /** What is assumed of the run queue: it answers nil only when no queued entry has a deadline. */
  predicate WaitingTimeAgrees(q: seq<Entry>, waitingTime: Option<real>) {
    waitingTime.None? ==> forall i :: 0 <= i < |q| ==> q[i].delay.None?
  }

  /**
   * The reason the error branch is never reached: a fiber that suspends
   * leaves something to wait for, and then the pass does not fail.
   */
  lemma SuspendedLoopNeverFails(s: Snapshot, waitingTime: Option<real>)
    requires SomethingToWaitFor(s)
    requires WaitingTimeAgrees(s.runQueue, waitingTime)
    ensures !LoopStep(waitingTime, Watches(s)).Fail?
  {
  }

  /**
   * `wait(nil)` on an idle loop: the only entry has no deadline and nothing is
   * watched, so a run queue that answers nil leaves the loop pass to fail.
   */
  lemma WaitNilOnIdleLoopCanFail(current: Fiber)
    ensures var s := Snapshot([Entry(current, None, Omitted)], map[], map[]);
            !SomethingToWaitFor(s) && WaitingTimeAgrees(s.runQueue, None) && LoopStep(None, Watches(s)).Fail?
  {
  }

  class Loop {
    var runQueue: seq<Entry>
    var readers: map<IO, Fiber>
    var writers: map<IO, Fiber>
    /** The calls made on the run queue, the IO watcher and the other collaborators, oldest first. */
    var calls: seq<Call>

    function State(): Snapshot
      reads this
    {
      Snapshot(runQueue, readers, writers)
    }

    /** `IOEventLoop.new`: a fresh run queue and IO watcher. */
    constructor ()
      ensures runQueue == [] && readers == map[] && writers == map[] && calls == []
      ensures !Watches(State())
    {
      runQueue, readers, writers, calls := [], map[], map[], [];
    }

    // The collaborator calls used below, each with its effect on the abstract state.

    method Schedule(fiber: Fiber, delay: Option<real>, payload: Payload)
      modifies this
      ensures runQueue == old(runQueue) + [Entry(fiber, delay, payload)]
      ensures readers == old(readers) && writers == old(writers)
      ensures calls == old(calls) + [Call.Schedule(fiber, delay, payload)]
    {
      runQueue := runQueue + [Entry(fiber, delay, payload)];
      calls := calls + [Call.Schedule(fiber, delay, payload)];
    }

    method Cancel(fiber: Fiber)
      modifies this
      ensures runQueue == Cancelled(old(runQueue), fiber)
      ensures readers == old(readers) && writers == old(writers)
      ensures calls == old(calls) + [Call.Cancel(fiber)]
    {
      runQueue := Cancelled(runQueue, fiber);
      calls := calls + [Call.Cancel(fiber)];
    }

    method WatchReader(io: IO, fiber: Fiber)
      modifies this
      ensures readers == old(readers)[io := fiber]
      ensures runQueue == old(runQueue) && writers == old(writers)
      ensures calls == old(calls) + [Call.WatchReader(io, fiber)]
    {
      readers := readers[io := fiber];
      calls := calls + [Call.WatchReader(io, fiber)];
    }

    method WatchWriter(io: IO, fiber: Fiber)
      modifies this
      ensures writers == old(writers)[io := fiber]
      ensures runQueue == old(runQueue) && readers == old(readers)
      ensures calls == old(calls) + [Call.WatchWriter(io, fiber)]
    {
      writers := writers[io := fiber];
      calls := calls + [Call.WatchWriter(io, fiber)];
    }

    method CancelWatchingReader(io: IO)
      modifies this
      ensures readers == old(readers) - {io}
      ensures runQueue == old(runQueue) && writers == old(writers)
      ensures calls == old(calls) + [Call.CancelWatchingReader(io)]
    {
      readers := readers - {io};
      calls := calls + [Call.CancelWatchingReader(io)];
    }

    method CancelWatchingWriter(io: IO)
      modifies this
      ensures writers == old(writers) - {io}
      ensures runQueue == old(runQueue) && readers == old(readers)
      ensures calls == old(calls) + [Call.CancelWatchingWriter(io)]
    {
      writers := writers - {io};
      calls := calls + [Call.CancelWatchingWriter(io)];
    }

    /**
     * `resume`: control goes to the loop fiber, which runs other fibers; when
     * this fiber is transferred back, the run queue and the watcher are in
     * state `back` and the transfer returns or raises as `resumption` says.
     */
    method Resume(back: Snapshot, resumption: Outcome) returns (o: Outcome)
      modifies this
      ensures State() == back && o == resumption
      ensures calls == old(calls) + [Call.Resume]
    {
      runQueue, readers, writers := back.runQueue, back.readers, back.writers;
      calls := calls + [Call.Resume];
      o := resumption;
    }

    /**
     * `concurrently { ... }`, where the block would end as `block` says:
     * a new fiber and a new future; the fiber is queued to start at once
     * with the future as payload, and the future is returned.
     */
    method Concurrently(block: Outcome) returns (future: Future)
      modifies this
      ensures fresh(future) && fresh(future.fiber) && future.fiber.body == Block(block)
      ensures runQueue == old(runQueue) + [Entry(future.fiber, Some(0.0), Given(FutureRef(future)))]
      ensures forall i :: 0 <= i < |old(runQueue)| ==> old(runQueue)[i].fiber != future.fiber
      ensures readers == old(readers) && writers == old(writers)
      // exactly one call, the schedule: nothing of the block has run
      ensures calls == old(calls) + [Call.Schedule(future.fiber, Some(0.0), Given(FutureRef(future)))]
    {
      var fiber := new Fiber(Block(block));
      future := new Future(fiber);
      Schedule(fiber, Some(0.0), Given(FutureRef(future)));
    }

    /**
     * The body of a fiber made by `concurrently`, first resumed with its
     * `future`: the block's value, or the exception it raised (after
     * triggering `:error` with it), goes to `future.evaluate_to`; then the
     * fiber resumes the loop.
     */
    method RunConcurrentFiber(fiber: Fiber, future: Future)
      requires fiber.body.Block?
      modifies this
      ensures State() == old(State())
      ensures fiber.body.outcome.Returned? ==>
        calls == old(calls) + [Call.EvaluateTo(future, fiber.body.outcome.value), Call.Resume]
      ensures fiber.body.outcome.Raised? ==>
        var e := fiber.body.outcome.error;
        calls == old(calls) + [Call.Trigger("error", Exc(e)), Call.EvaluateTo(future, Exc(e)), Call.Resume]
    {
      var result: Value;
      match fiber.body.outcome {
        case Returned(v) =>
          result := v;
        case Raised(e) =>
          calls := calls + [Call.Trigger("error", Exc(e))];
          result := Exc(e);
      }
      calls := calls + [Call.EvaluateTo(future, result)];
      calls := calls + [Call.Resume];
    }

    /**
     * `wait(seconds)` from fiber `current`: queue it with exactly `seconds`
     * and no payload, then resume the loop. `suspended` is the state at
     * the moment control leaves the fiber.
     */
    method Wait(current: Fiber, seconds: Option<real>, back: Snapshot, resumption: Outcome)
      returns (o: Outcome, ghost suspended: Snapshot)
      modifies this
      ensures suspended == Snapshot(old(runQueue) + [Entry(current, seconds, Omitted)], old(readers), old(writers))
      ensures seconds.Some? ==> SomethingToWaitFor(suspended)
      ensures calls == old(calls) + [Call.Schedule(current, seconds, Omitted), Call.Resume]
      ensures State() == back && o == resumption
    {
      Schedule(current, seconds, Omitted);
      suspended := State();
      assert runQueue[|runQueue| - 1] == Entry(current, seconds, Omitted);
      o := Resume(back, resumption);
    }

    /**
     * `await_readable(io, within: within)` from fiber `current`. The
     * cleanup of the `ensure` clause runs whether the transfer back returns
     * or raises, and `o` is passed on unchanged either way.
     */
    method AwaitReadable(io: IO, within: Option<real>, current: Fiber, back: Snapshot, resumption: Outcome)
      returns (o: Outcome, ghost suspended: Snapshot)
      modifies this
      // while suspended: a timer with payload false only when `within` is given, and the reader registered
      ensures suspended.runQueue ==
        old(runQueue) + (if within.Some? then [Entry(current, within, Given(Bool(false)))] else [])
      ensures suspended.readers == old(readers)[io := current] && suspended.writers == old(writers)
      ensures SomethingToWaitFor(suspended)
      // afterwards: no reader for `io`, and the fiber's timer cancelled exactly when `within` was given
      ensures io !in readers
      ensures within.Some? ==> forall i :: 0 <= i < |runQueue| ==> runQueue[i].fiber != current
      ensures readers == back.readers - {io} && writers == back.writers
      ensures runQueue == if within.Some? then Cancelled(back.runQueue, current) else back.runQueue
      ensures calls == old(calls)
        + (if within.Some? then [Call.Schedule(current, within, Given(Bool(false)))] else [])
        + [Call.WatchReader(io, current), Call.Resume, Call.CancelWatchingReader(io)]
        + (if within.Some? then [Call.Cancel(current)] else [])
      ensures o == resumption
    {
      if within.Some? {
        Schedule(current, within, Given(Bool(false)));
      }
      WatchReader(io, current);
      suspended := State();
      assert io in suspended.readers;
      o := Resume(back, resumption);
      // ensure
      CancelWatchingReader(io);
      if within.Some? {
        Cancel(current);
      }
    }

    /** `await_writable(io, within: within)`: as `AwaitReadable`, with the writer role. */
    method AwaitWritable(io: IO, within: Option<real>, current: Fiber, back: Snapshot, resumption: Outcome)
      returns (o: Outcome, ghost suspended: Snapshot)
      modifies this
      ensures suspended.runQueue ==
        old(runQueue) + (if within.Some? then [Entry(current, within, Given(Bool(false)))] else [])
      ensures suspended.writers == old(writers)[io := current] && suspended.readers == old(readers)
      ensures SomethingToWaitFor(suspended)
      ensures io !in writers
      ensures within.Some? ==> forall i :: 0 <= i < |runQueue| ==> runQueue[i].fiber != current
      ensures writers == back.writers - {io} && readers == back.readers
      ensures runQueue == if within.Some? then Cancelled(back.runQueue, current) else back.runQueue
      ensures calls == old(calls)
        + (if within.Some? then [Call.Schedule(current, within, Given(Bool(false)))] else [])
        + [Call.WatchWriter(io, current), Call.Resume, Call.CancelWatchingWriter(io)]
        + (if within.Some? then [Call.Cancel(current)] else [])
      ensures o == resumption
    {
      if within.Some? {
        Schedule(current, within, Given(Bool(false)));
      }
      WatchWriter(io, current);
      suspended := State();
      assert io in suspended.writers;
      o := Resume(back, resumption);
      // ensure
      CancelWatchingWriter(io);
      if within.Some? {
        Cancel(current);
      }
    }
  }
}
