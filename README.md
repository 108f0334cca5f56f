# mruby aggregated timers: binary search and event-loop bookkeeping

This project models two pieces of an mruby cooperative event loop
(`IOEventLoop`) in Dafny and proves properties of the models.

- `ArrayBsearch` (`array_bsearch.dfy`) models `Array#bsearch_index` in
  find-minimum mode, the polyfill mruby needs. It is a lo/hi binary search in
  the manner of Python's `bisect_left`. The block is a pure function
  `T -> bool` and the array is an `array<T>` that the method only reads: it
  has no `modifies` clause. Besides the index (or `None` for `nil`), the method
  records in the ghost out-parameter `probes` the indices at which it called
  the block, in order. With
  it the contract can say which elements were read and how often the block ran.
  `FirstSatisfying` is a linear-scan reference definition of "least index whose
  element satisfies the block". The search is proved equal to it on partitioned
  arrays (all false, then all true).
- `EventLoop` (`io_event_loop.dfy`) models `IOEventLoop`.
  - `LoopStep` is one pass of the loop fiber. It decides between "process the
    pending timers", "block on IO for the waiting time" and the "infinitely
    running event loop" error.
  - The class `Loop` holds abstract state: the run queue as a sequence of
    entries (fiber, delay, payload) and the IO watcher as two maps from IO to
    the registered reader or writer fiber. Its field `calls` lists, in order,
    every call made on a collaborator, including `resume`, except the
    constructors `Fiber.new` and `Future.new`, which are modelled as allocation.
  - `Concurrently`, `RunConcurrentFiber`, `Wait`, `AwaitReadable` and
    `AwaitWritable` are methods on `Loop`. Each states its new state and the
    calls it made.
  - `resume` hands control to the loop fiber, which runs other fibers. The
    model takes two inputs for it: the state the loop hands back, and whether
    the transfer back returns a value or raises. `Wait` and the two awaits also
    return the ghost state at the moment the fiber suspends. For the two awaits
    always, and for `wait` only when `seconds` is a number, that state is
    proved to leave the loop something to wait for, so a loop pass evaluated
    on that state does not fail (`SuspendedLoopNeverFails`). `wait(nil)` on an
    idle loop leaves nothing to wait for (`WaitNilOnIdleLoopCanFail`).
- Ruby's `Integer#div` floors. `lo` and `hi` are never negative, so it agrees
  with Dafny's `/`.
- `waiting_time` is `Option<real>`: a number of seconds, or `None` for `nil`.
  It is only compared with `0.0` and `nil`. No arithmetic is done on seconds.

## Model

| member | source | states |
|---|---|---|
| `ArrayBsearch.BsearchIndex` | mrblib/_ext_array.rb:5-22 | For any pure block: the result is `nil` or an index below the length. A found index holds a true element whose left neighbour, if any, is false. `nil` on a non-empty array means the last element is false. Every index the block was asked about is in bounds, and its answer agrees with the result (true exactly at or after it). An empty array gives `nil` without calling the block. The block runs at most floor(log2 n)+1 times. On a partitioned array the result is the least satisfying index, and `nil` exactly when no element satisfies the block. |
| `ArrayBsearch.FirstSatisfying` | mrblib/_ext_array.rb:6 | Reference for find-minimum mode: the result is an index of a satisfying element with no satisfying element before it, and `None` exactly when no element satisfies the block. |
| `ArrayBsearch.BoundaryIsFirst` | mrblib/_ext_array.rb:11-21 | On a partitioned array, a true element at index `i` whose left neighbour is false (or `i == 0`) is the first satisfying element. |
| `ArrayBsearch.FalseLastMeansNone` | mrblib/_ext_array.rb:14-21 | On a partitioned non-empty array, a false last element means no element satisfies the block. |
| `ArrayBsearch.BitsMonotone` | mrblib/_ext_array.rb:11-19 | The halving count behind the bound on block calls grows with the range size. |
| `EventLoop.LoopStep` | mrblib/io_event_loop.rb:13-27 | Pending timers are processed exactly when `waiting_time == 0`, even while IO is watched. Otherwise the loop blocks on IO for exactly `waiting_time` when something is watched or `waiting_time` is a number. An unbounded wait happens only with watches. The error (with its message) is raised exactly when `waiting_time` is nil and nothing is watched, and then neither other action is taken. |
| `EventLoop.SuspendedLoopNeverFails` | mrblib/io_event_loop.rb:18-24 | If a timer with a deadline is queued or some IO is watched, and the run queue answers nil only when no entry has a deadline, the loop pass does not raise. |
| `EventLoop.Cancelled` | mrblib/io_event_loop.rb:76-79 | `RunQueue#cancel(fiber)` leaves no entry of that fiber. It keeps every other entry and adds none. |
| `EventLoop.CancelledKeepsOrder` | mrblib/io_event_loop.rb:78 | `cancel` distributes over concatenation, so the entries it keeps stay in their order. |
| `EventLoop.CancelledKeepsCounts` | mrblib/io_event_loop.rb:78 | `cancel` keeps each entry of another fiber exactly as often as it occurred, and none of the cancelled fiber. |
| `EventLoop.CancelAbsentIsNoOp` | mrblib/io_event_loop.rb:78 | Cancelling a fiber whose timer has already fired changes nothing. |
| `EventLoop.CancelIdempotent` | mrblib/io_event_loop.rb:92 | For `RunQueue#cancel` as modelled: cancelling twice is the same as cancelling once. |
| `EventLoop.Fiber.constructor` | mrblib/io_event_loop.rb:42 | `Fiber.new` gives a new fiber holding the given body. Only its identity and body are modelled. |
| `EventLoop.Future.constructor` | mrblib/io_event_loop.rb:54 | `Future.new` gives a new future tied to the given fiber. Only its identity and fiber are modelled. |
| `EventLoop.Loop.constructor` | mrblib/io_event_loop.rb:6-10 | A new loop has an empty run queue and no IO watched. |
| `EventLoop.Loop.Schedule` | mrblib/io_event_loop.rb:63 | `schedule` appends exactly one entry and changes nothing else. |
| `EventLoop.Loop.Cancel` | mrblib/io_event_loop.rb:78 | `cancel` removes that fiber's entries and changes nothing else. |
| `EventLoop.Loop.WatchReader` | mrblib/io_event_loop.rb:74 | `watch_reader` registers the fiber as the reader of `io` and changes nothing else. |
| `EventLoop.Loop.WatchWriter` | mrblib/io_event_loop.rb:88 | `watch_writer` registers the fiber as the writer of `io` and changes nothing else. |
| `EventLoop.Loop.CancelWatchingReader` | mrblib/io_event_loop.rb:77 | `cancel_watching_reader` removes the reader of `io`, if any, and changes nothing else. |
| `EventLoop.Loop.CancelWatchingWriter` | mrblib/io_event_loop.rb:91 | `cancel_watching_writer` removes the writer of `io`, if any, and changes nothing else. |
| `EventLoop.Loop.Resume` | mrblib/io_event_loop.rb:34-36 | `resume` returns or raises as the loop decides, with the state the loop hands back. |
| `EventLoop.Loop.Concurrently` | mrblib/io_event_loop.rb:41-57 | Creates a new fiber holding the block and a new future. It queues exactly one entry: that fiber, delay 0, the future as payload. The fiber had no entry before. It returns that future and changes no registration. The only collaborator call recorded is that `schedule`, so none of the block runs. `Future.new` is modelled as allocation and is not recorded as a call. |
| `EventLoop.Loop.RunConcurrentFiber` | mrblib/io_event_loop.rb:42-52 | A block that returns `v` gives `evaluate_to(v)`. A block that raises `e` first gives `trigger(:error, e)`, then `evaluate_to(e)` with the same exception object. Either way the fiber then resumes the loop. The queue and watcher state ensured is the state at that transfer; effects of `evaluate_to` and `trigger` on them are not modelled. |
| `EventLoop.WaitNilOnIdleLoopCanFail` | mrblib/io_event_loop.rb:62-63 | A queue holding only a `wait(nil)` entry and no watches leaves nothing to wait for, and if the run queue answers nil the loop pass raises the error. |
| `EventLoop.Loop.Wait` | mrblib/io_event_loop.rb:62-65 | Queues the current fiber with exactly `seconds` and no payload, then resumes the loop. With a number of seconds the suspended loop has something to wait for. |
| `EventLoop.Loop.AwaitReadable` | mrblib/io_event_loop.rb:70-79 | While suspended: the reader is registered for `io`, and a timer with payload `false` is queued exactly when `within` is given. Afterwards, whether the transfer back returned or raised: no reader for `io` remains, and the fiber's timer is cancelled exactly when `within` was given. The outcome is passed on unchanged. The calls are made in the source's order. |
| `EventLoop.Loop.AwaitWritable` | mrblib/io_event_loop.rb:84-93 | The same as `AwaitReadable`, for the writer role. |

## Left out

- Fiber switching (`Fiber.new`, `transfer`, `Fiber.current`) and the never-ending `while true` driver are not modelled. One pass of the loop is `LoopStep`. `resume` is the input-driven `Resume`. `Fiber.current` is a parameter.
- `RunQueue`, `IOWatcher`, `WallClock`, `EventWatcher`, `CallbacksAttachable` and `IOEventLoop::Future` are not part of this model. They appear only as abstract state (queue and registrations) or as logged calls (`trigger`, `evaluate_to`). `cancel` is taken to remove every entry of the fiber; there is at most one per fiber. The order of the queue is the order of `schedule` calls, not an order of firing.
- `process_pending` and `process_ready_in` (firing timers, blocking on IO readiness) are I/O and timing plumbing. `LoopStep` only says which of them runs and with what timeout.
- What `@run_queue.waiting_time` answers depends on the clock and the queue, which are not shown. It is an input to `LoopStep`. `SuspendedLoopNeverFails` states the assumption it needs about it.
- Seconds are Ruby floats. They are modelled as `real` and never computed with.
- The user block of `concurrently` is represented only by how it ends (a value or an exception). Its own effects are not modelled.
- Collaborator calls are taken not to raise. Only `resume` can raise in the model, which is the path the `ensure` clauses of `await_readable` and `await_writable` are for.
- EventLoop.SuspendedLoopNeverFails: covers only a loop pass evaluated on the state at the moment a fiber suspends. Other fibers run between that suspension and the loop's next pass, and they can invalidate it. For example, another fiber may register on the same IO, replacing the first reader, and then remove the registration in its own `ensure`. The model does not prove that the error branch is unreachable in the running system.
- EventLoop.Loop.RunConcurrentFiber: `evaluate_to` and `trigger` are recorded as calls without effect on the queue or the watcher. The future is built with `@run_queue` (line 54), but its code is not part of this model. The state ensured is the state at the final transfer to the loop. That transfer never returns to this fiber, so it is recorded directly rather than through `Resume`.
- `bsearch_index` called without a block (the `yield` on mrblib/_ext_array.rb:14 then raises `LocalJumpError` on a non-empty array) and a block that raises are not modelled. The block is a total pure function.
- EventLoop.Watches: the model's own definition of `IOWatcher#watches?`, whose code is not part of this model: some IO has a reader or a writer registered.
- EventLoop.Loop.Wait: with `seconds` nil the fiber is queued without a deadline, and nothing proves the loop then has something to wait for. What the unshown run queue answers for such an entry decides whether the loop raises its error.
- `wall_clock`, `watch_events` (lines 32, 96-100), the `remove_const` on line 1, and the `method_defined?` guard in mrblib/_ext_array.rb:2 are load-time housekeeping or thin delegation.
- mrblib/io_event_loop_concurrency_future.rb is not part of this model. It delegates to a `Concurrency` object that is not shown.
- The future behaviour exercised only by the RSpec tests under spec/ (idempotent `result`, first writer wins, `manually_resume!`, `conclude_with`, frozen `data`) is left out. Its code, `IOEventLoop::Future` and `ConcurrentEvaluation`, is not part of this model.
