# wasm-bindgen futures runtime, wait transformation and descriptor encoder, in Dafny

This project models four parts of wasm-bindgen and proves properties about them:

- **The futures runtime** (`crates/futures`):
  - The per-thread microtask queue, which runs tasks in batches. Each batch is
    triggered by a single `queueMicrotask` or `promise.then` request.
  - The multi-thread task. It has an atomic two-state wake flag. Its run loop
    polls the future and then suspends on `Atomics.waitAsync` or on the polyfill.
  - The `Atomics.waitAsync` polyfill. It keeps a pool of up to 32 idle helper
    workers. Each helper does one blocking `Atomics.wait` for the thread that
    asked, then posts the result back.
  - `spawn_thread`. The new thread runs a biased select between the future and
    an abort signal. The caller gets a `JoinError` or a `JoinHandle`.
  - The dispatch in `task/mod.rs`. It picks the single-thread or multi-thread
    task from a tri-state cache of `crossOriginIsolated`, which is filled once.
- **The wait transformation** (`crates/wait-xform`):
  - Every `memory.atomic.wait32` in a module becomes a call to a generated
    `__atomic_wait32`.
  - `__atomic_wait32` waits natively, or, while the exported `wait_prohibited`
    global is set, spins in a generated `__atomic_spin32`.
  - The spinning is bounded by the caller's timeout and by the exported
    `max_spin_ns` ceiling.
- **The descriptor encoder** (`crates/backend/src/encode.rs`):
  - It writes the custom section as a list of byte runs and spliced string
    expressions. Numbers use unsigned LEB128 (section 5.2.2 of the WebAssembly
    Core Specification).
  - It encodes strings and byte slices with a length prefix, vectors, options,
    structs and enums.
  - It resolves and memoises import module paths.

Host facts become inputs of the model:

- poll results;
- wakes from other threads;
- the answers of `Atomics.waitAsync` and `crossOriginIsolated`;
- the user agent;
- when the handle's owner calls `abort` or drops the handle, relative to the thread's polls;
- build-time environment variables;
- whether `package.json` exists;
- atomic loads and clock readings inside the spin function.

Where the source changes state in place, the model is a class:

- `Queue`, `AtomicWaker`, `Task`, the helper pool `Polyfill`, `ThreadsCache`;
- `JoinHandle` and `SpawnedThread`;
- `WasmModule` and the visitor `ReplaceAtomicWait`;
- `Encoder` and `Interner`.

Pure code is modelled as datatypes and functions. Each operation is tied to a
partner:

- a reference function, such as `Substituted` for the wait rewrite or `Encode`
  for the encoder methods;
- an inverse, such as `Decode` for `Encode` or `DecodeLeb` for `Leb128`;
- or a preserved invariant, such as the pool invariant of `Polyfill.Valid` or
  the byte-run coalescing of `Encoder.Valid`.

The spin function's result codes do not line up with the native wait's codes:

- a value that already differs on entry gives 0;
- a value that changes while spinning gives 1;
- the native instruction reports these the other way round (1 is "not-equal",
  0 is "ok").

`WaitXform.SpinCodesAgainstNative` states this, and the model keeps the code's
own codes.

The files:

| file | models |
|---|---|
| wrappers.dfy | `Option`, `Result`, integer widths and wrapping arithmetic |
| queue.dfy | crates/futures/src/queue.rs |
| multithread.dfy | crates/futures/src/task/multithread.rs |
| wait_async_polyfill.dfy | crates/futures/src/task/wait_async_polyfill.rs |
| thread_spawn.dfy | crates/futures/src/thread_spawn.rs |
| task_dispatch.dfy | crates/futures/src/task/mod.rs |
| wait_xform.dfy | crates/wait-xform/src/lib.rs |
| encode.dfy | crates/backend/src/encode.rs |

## Model

| member | source | states |
|---|---|---|
| Ints.WrappingIncUsize | crates/futures/src/task/wait_async_polyfill.rs:88 | `wrapping_add(1)` on a 32-bit usize: one more below `u32::MAX`, 0 after it, always below 2^32 |
| Ints.WrappingSub64 | crates/wait-xform/src/lib.rs:192-197 | `i64.sub` read as unsigned: the difference when it is non-negative, otherwise the difference plus 2^64; always below 2^64 |
| MicrotaskQueue.Queue.Request | crates/futures/src/queue.rs:72-76 | the flush is requested with `queueMicrotask` exactly when the global has it, otherwise with `promise.then` |
| MicrotaskQueue.Queue.constructor | crates/futures/src/queue.rs:91-116 | a new queue is empty and unscheduled, has issued no request, and remembers the probed `has_queue_microtask` |
| MicrotaskQueue.Queue.ScheduleTask | crates/futures/src/queue.rs:67-78 | the task goes at the back; the flag becomes set; a flush is requested only on the false-to-true edge; at most one flush is outstanding |
| MicrotaskQueue.Queue.PushTask | crates/futures/src/queue.rs:80-84 | exactly the effect of `schedule_task`: the task waits for the next tick |
| MicrotaskQueue.Queue.ScheduleAll | crates/futures/src/queue.rs:67-78 | a batch of `schedule_task` calls appends the batch in order and issues at most one request, and only if the queue was unscheduled and the batch is non-empty |
| MicrotaskQueue.Queue.RunAll | crates/futures/src/queue.rs:36-55 | a flush clears the flag first and runs exactly the tasks present at entry, in order; the tasks they schedule form the new queue; exactly one new flush is requested iff that queue is non-empty |
| MicrotaskQueue.TwoFlushes | crates/futures/src/queue.rs:41-55 | tasks scheduled during one flush are exactly what the next flush runs; none runs in the flush that scheduled it |
| MultithreadTask.AtomicWaker.constructor | crates/futures/src/task/multithread.rs:26-30 | a new waker is AWAKE, has notified nobody and is held by one `Arc` |
| MultithreadTask.AtomicWaker.Swap | crates/futures/src/task/multithread.rs:35 | the atomic swap returns the previous state and stores the new one |
| MultithreadTask.AtomicWaker.WakeByRef | crates/futures/src/task/multithread.rs:32-49 | the state ends AWAKE; notify (count 1) runs iff the state was SLEEPING |
| MultithreadTask.AtomicWaker.WakeMany | crates/futures/src/task/multithread.rs:32-49 | any number of wakes in a row notify at most once, and only when the first of them finds SLEEPING |
| MultithreadTask.AtomicWaker.RawClone | crates/futures/src/task/multithread.rs:55-58 | `clone` adds one `Arc` reference |
| MultithreadTask.AtomicWaker.RawWake | crates/futures/src/task/multithread.rs:60-63 | `wake` wakes as `wake_by_ref` does, then releases its reference |
| MultithreadTask.AtomicWaker.RawWakeByRef | crates/futures/src/task/multithread.rs:65-68 | `wake_by_ref` wakes and keeps the reference count |
| MultithreadTask.AtomicWaker.RawDrop | crates/futures/src/task/multithread.rs:70-72 | `drop` releases one reference |
| MultithreadTask.Contains | crates/futures/src/task/multithread.rs:213 | `str::contains` is true iff the needle occurs at some index of the haystack |
| MultithreadTask.IsSafariUserAgent | crates/futures/src/task/multithread.rs:211-214 | for every user agent: it counts as Safari iff "Safari" occurs in it and "Chrome" does not |
| MultithreadTask.SafariUserAgents | crates/futures/src/task/multithread.rs:211-214 | three examples: "Safari" counts as Safari; "Chrome Safari", which names Safari too, does not; "Firefox" does not |
| MultithreadTask.HostProbe.WaitAsyncUsable | crates/futures/src/task/multithread.rs:220-224 | native waitAsync is used only when the host defines it and the browser is not Safari |
| MultithreadTask.HostProbe.constructor | crates/futures/src/task/multithread.rs:208-225 | both thread-local memos start empty over fixed host facts |
| MultithreadTask.HostProbe.IsSafari | crates/futures/src/task/multithread.rs:208-215 | the answer is always the user-agent test, and the memo holds it afterwards |
| MultithreadTask.HostProbe.IsWaitAsyncAvailable | crates/futures/src/task/multithread.rs:217-225 | the answer is always the three-way conjunction and is memoised; the Safari memo is filled only when the first two conditions hold on the first call (short-circuit) |
| MultithreadTask.WaitAsyncChoice | crates/futures/src/task/multithread.rs:227-252 | `None` (poll again inline) iff the flag already differs; otherwise a native promise iff waitAsync is usable, else a polyfill wait whose timeout is 1000 ms exactly on Safari |
| MultithreadTask.StopIndex | crates/futures/src/task/multithread.rs:125-174 | the loop ends at the first iteration that is Ready or was not woken; every earlier one was Pending and woken |
| MultithreadTask.Task.constructor | crates/futures/src/task/multithread.rs:94-107 | a new task holds its future, shares a fresh AWAKE waker with its `Waker` (two references) and has polled nothing |
| MultithreadTask.Task.Run | crates/futures/src/task/multithread.rs:115-175 | a completed task returns at once and changes nothing; otherwise the function gives the number of polls, of notifies and of spurious-wakeup logs; a Ready poll drops the future; a final Pending puts the closure on exactly the promise `wait_async` chose; the final flag state is given too |
| MultithreadTask.Spawn | crates/futures/src/task/multithread.rs:94-111 | a fresh task with an AWAKE waker is appended to the thread's queue through `schedule_task` |
| MultithreadTask.RunAfterCompletion | crates/futures/src/task/multithread.rs:116-123 | after a run that completes, a later run (however woken) is a no-op: no poll, no promise |
| WaitAsyncPolyfill.ParseDecimalU32 | crates/futures/src/task/wait_async_polyfill.rs:101-104 | `u32::from_str_radix(_, 10)`: a result is always below 2^32; empty input, a lone sign or a '-' is an error |
| WaitAsyncPolyfill.LongWaitWarning | crates/futures/src/task/wait_async_polyfill.rs:100-106 | unset gives no warning; a set value gives the parsed u32, or none when it does not parse |
| WaitAsyncPolyfill.ParseDecimalRoundTrip | crates/futures/src/task/wait_async_polyfill.rs:101-104 | every u32 written in decimal parses back to itself, with or without a leading '+'; larger numbers are rejected as overflow |
| WaitAsyncPolyfill.LongWaitWarningSome | crates/futures/src/task/wait_async_polyfill.rs:100-106 | the warning is `n` iff `n` is below 2^32 and the variable is `n` in decimal, after an optional '+' and any number of leading zeros |
| WaitAsyncPolyfill.ParseRejectsMinus | crates/futures/src/task/wait_async_polyfill.rs:101-104 | nothing starting with '-' parses as a u32 |
| WaitAsyncPolyfill.Polyfill.constructor | crates/futures/src/task/wait_async_polyfill.rs:64-68 | the pool starts empty with `ID` 0, no helper created and no wait issued |
| WaitAsyncPolyfill.Polyfill.AllocHelper | crates/futures/src/task/wait_async_polyfill.rs:70-91 | reuses the last idle helper if there is one; otherwise creates a helper named with the current `ID` and bumps `ID` with 32-bit wrap-around; the helper is never terminated and is no longer idle |
| WaitAsyncPolyfill.Polyfill.FreeHelper | crates/futures/src/task/wait_async_polyfill.rs:93-98 | keeps the helper if fewer than 32 are idle, otherwise drops it, which terminates its worker |
| WaitAsyncPolyfill.Polyfill.WaitAsync | crates/futures/src/task/wait_async_polyfill.rs:108-176 | the new wait gets a helper that serves no other wait and was not terminated; a timer and a `done` cell exist iff the warning is configured; [memory, ptr / 4, value, timeout] is posted to that helper; reusing an idle helper leaves the `ID` counter and the count of created helpers alone, while a new helper bumps both; the pool invariant is kept |
| WaitAsyncPolyfill.Polyfill.DeliverResult | crates/futures/src/task/wait_async_polyfill.rs:145-154 | the result hands the helper back to the pool (kept or terminated as in `free_helper`), resolves exactly this wait, marks it done, and keeps the pool invariant |
| WaitAsyncPolyfill.Polyfill.FireLongWaitTimer | crates/futures/src/task/wait_async_polyfill.rs:117-126 | the timer prints a trace iff its wait is not done yet; it never resolves anything |
| WaitAsyncPolyfill.ManyConcurrentWaits | crates/futures/src/task/wait_async_polyfill.rs:70-98 | any number of simultaneous waits, even beyond the 32 kept idle, all get pairwise distinct busy helpers |
| ThreadSpawn.ExactlyOneKind | crates/futures/src/thread_spawn.rs:72-84 | every join error is exactly one of cancelled, failed and panicked |
| ThreadSpawn.PanicPayloadAsStr | crates/futures/src/thread_spawn.rs:30-40 | a `String` or `&str` payload yields its text; any other payload yields none |
| ThreadSpawn.TryIntoPanic | crates/futures/src/thread_spawn.rs:96-101 | Ok iff the error is a panic, and then it carries that panic's payload; otherwise the error itself comes back |
| ThreadSpawn.DisplayDistinguishes | crates/futures/src/thread_spawn.rs:55-66 | equal messages mean the same kind of error, and equal panic texts |
| ThreadSpawn.DisplayBoom | crates/futures/src/thread_spawn.rs:55-66 | a `&str` panic "boom" reads "task panicked with message boom", and `try_into_panic` returns its payload |
| ThreadSpawn.SelectOnce | crates/futures/src/thread_spawn.rs:152-163 | the future's arm is checked first: a value or a caught panic breaks the loop; only while it is pending does a live abort arm with `Ok` break with Aborted; an `Err` only disables that arm |
| ThreadSpawn.SelectOutcome | crates/futures/src/thread_spawn.rs:152-163 | the loop uses at most the polls given, and all of them if it has not broken |
| ThreadSpawn.FutureWinsTie | crates/futures/src/thread_spawn.rs:153-156 | the select is biased: a ready future wins over an abort signal in the same poll |
| ThreadSpawn.NoAbortAfterClose | crates/futures/src/thread_spawn.rs:157-161 | once the abort sender is gone without a signal, the loop never ends in Aborted |
| ThreadSpawn.AbortedOnlyOnSignal | crates/futures/src/thread_spawn.rs:157-161 | Aborted comes only from an `Ok` on the live abort receiver, after polls in which the future was pending and the receiver was still pending |
| ThreadSpawn.AbortObservation | crates/futures/src/thread_spawn.rs:157-158 | the receiver yields `Ok` iff the abort was signalled and `Err` iff the sender was dropped without a signal |
| ThreadSpawn.PollResult | crates/futures/src/thread_spawn.rs:119-123 | the handle is pending iff nothing was sent and the sender is alive; a sent result is returned as is; a dropped sender reads as Failed |
| ThreadSpawn.JoinHandle.constructor | crates/futures/src/thread_spawn.rs:170-173 | the handle starts with its abort sender and open channels |
| ThreadSpawn.JoinHandle.Abort | crates/futures/src/thread_spawn.rs:128-132 | the first call takes the sender and signals; later calls do nothing; at most one signal is ever sent |
| ThreadSpawn.JoinHandle.Drop | crates/futures/src/thread_spawn.rs:105-108 | dropping the handle drops a remaining abort sender, closing that channel without a signal |
| ThreadSpawn.JoinHandle.Poll | crates/futures/src/thread_spawn.rs:119-123 | polling the handle reads the result channel as `PollResult` says |
| ThreadSpawn.SpawnedThread.constructor | crates/futures/src/thread_spawn.rs:145 | the thread has done nothing yet |
| ThreadSpawn.Observed | crates/futures/src/thread_spawn.rs:152-163 | one poll per round: the thread sees as many polls as there are rounds |
| ThreadSpawn.ObservedAt | crates/futures/src/thread_spawn.rs:157-161 | the abort receiver in round `i` shows the channel exactly as the handle's `abort` and drop calls of rounds 0 to `i` left it |
| ThreadSpawn.PollRound | crates/futures/src/thread_spawn.rs:128-162 | the handle's action changes the channel as `abort` and drop do, and the select poll then sees the channel in its new state |
| ThreadSpawn.SelectLoop | crates/futures/src/thread_spawn.rs:152-163 | the loop against the handle gives the biased select's result and poll count on the polls it observes, and leaves the handle as the actions of the rounds it used left it |
| ThreadSpawn.SpawnedThread.Run | crates/futures/src/thread_spawn.rs:145-168 | hold first; the select runs against the handle's channels; once it breaks, its result is sent (kept by a live handle) and then the thread is released; if it never breaks, nothing is sent and the thread stays held |
| ThreadSpawn.SpawnedThread.Die | crates/futures/src/thread_spawn.rs:121 | a thread that dies before sending leaves a handle that reads Failed |
| ThreadSpawn.AbortBeforeReady | crates/futures/src/thread_spawn.rs:128-163 | an `abort()` on a live handle while the future is still pending ends the loop in Aborted, at the latest in the round of that call |
| ThreadSpawn.NoAbortNoAborted | crates/futures/src/thread_spawn.rs:128-163 | without an `abort()` call and with no signal already sent, the loop never ends in Aborted, whatever the future does and whether the handle is dropped |
| ThreadSpawn.AbortBeforeCompletion | crates/futures/src/thread_spawn.rs:119-168 | a fresh handle aborted before the future is ready resolves to `Err(Aborted)` |
| ThreadSpawn.NeverAbortedHandle | crates/futures/src/thread_spawn.rs:119-168 | a fresh handle that is never aborted never resolves to `Err(Aborted)` |
| ThreadSpawn.AbortAfterCompletion | crates/futures/src/thread_spawn.rs:128-132 | a fresh handle kept to the end and aborted after the result was sent reports that result |
| TaskDispatch.IsolatedFromHost | crates/futures/src/task/mod.rs:45-48 | threads are available iff the lookup gave the boolean `true`; an error, a missing value or a non-boolean counts as false |
| TaskDispatch.ThreadsCache.constructor | crates/futures/src/task/mod.rs:36 | the cache starts UNKNOWN, and the host has not been asked |
| TaskDispatch.ThreadsCache.ThreadsAvailable | crates/futures/src/task/mod.rs:28-56 | a known answer is returned without asking the host; from UNKNOWN the host is asked once and its answer stored; only the three constants are ever stored |
| TaskDispatch.AskTwice | crates/futures/src/task/mod.rs:38-43 | the first answer stands whatever the host says later, and the host is asked only once |
| TaskDispatch.SpawnKind | crates/futures/src/task/mod.rs:16-20 | the multi-thread task is chosen iff the build has atomics and threads are available |
| TaskDispatch.Spawn | crates/futures/src/task/mod.rs:15-24 | without atomics the single-thread task is used and the cache is untouched; with atomics a cached answer is kept and decides, without asking the host again, and from UNKNOWN the host is asked once and its answer is stored and decides |
| WaitXform.Substituted | crates/wait-xform/src/lib.rs:270-272 | the reference rewrite keeps the length of every instruction sequence |
| WaitXform.SubstitutedNoWaits | crates/wait-xform/src/lib.rs:270-272 | after the rewrite no wait is left, at any depth |
| WaitXform.SubstitutedPositions | crates/wait-xform/src/lib.rs:249-273 | position by position, a wait becomes a call to `__atomic_wait32`, a block, loop or if/else keeps its kind around rewritten bodies, and anything else is unchanged |
| WaitXform.WaitCheck | crates/wait-xform/src/lib.rs:249-268 | a wait is accepted iff it uses the module's memory, align 4 offset 0, and is not wait64; otherwise the last failing check gives the error (wait64, then the argument, then the memory) |
| WaitXform.WalkSeq | crates/wait-xform/src/lib.rs:243-247 | the walk keeps sequence lengths, and once an error is recorded the rest of the walk changes nothing |
| WaitXform.WalkInstr | crates/wait-xform/src/lib.rs:244-247 | once failed, an instruction and its nested bodies are left as they are |
| WaitXform.WalkSucceedsIff | crates/wait-xform/src/lib.rs:249-268 | a function is rewritten without error iff every wait in it is supported |
| WaitXform.WalkIsSubstitution | crates/wait-xform/src/lib.rs:249-273 | without an error, the visitor's walk is exactly the reference rewrite |
| WaitXform.ReplaceAtomicWait.constructor | crates/wait-xform/src/lib.rs:303-307 | a new visitor has no error |
| WaitXform.ReplaceAtomicWait.VisitInstr | crates/wait-xform/src/lib.rs:244-274 | before any error, a wait becomes the call and the error is that of the three checks; after an error, or for any other instruction, nothing changes |
| WaitXform.ReplaceAtomicWait.VisitTree | crates/wait-xform/src/lib.rs:309 | visiting an instruction and its nested sequences gives the walk's result and error |
| WaitXform.ReplaceAtomicWait.VisitSeq | crates/wait-xform/src/lib.rs:309 | visiting a sequence front to back gives the walk's result and error |
| WaitXform.SpinBodyHasNoWait | crates/wait-xform/src/lib.rs:153-231 | the generated spin function contains no wait |
| WaitXform.SpinLoopHasNoWait | crates/wait-xform/src/lib.rs:175-230 | the spin loop contains no wait |
| WaitXform.Wait32BodyHasOneWait | crates/wait-xform/src/lib.rs:107-122 | `__atomic_wait32` holds exactly one wait, and a supported one |
| WaitXform.Wait32RewriteCallsItself | crates/wait-xform/src/lib.rs:299-301 | rewriting `__atomic_wait32` would make its native branch call itself, which is why it is skipped |
| WaitXform.RewriteFrom | crates/wait-xform/src/lib.rs:298-316 | the rewrite loop keeps the function table's size and never touches functions before its start; its only error names a function |
| WaitXform.RewriteSucceeds | crates/wait-xform/src/lib.rs:298-316 | the pass succeeds iff every visited function has only supported waits; then each visited function is the reference rewrite of itself, and the rest are untouched |
| WaitXform.RewriteStopsAtFailure | crates/wait-xform/src/lib.rs:311-313 | on failure the error names the first visited function with an unsupported wait; that function keeps its partial rewrite; earlier ones are fully rewritten and later ones are untouched |
| WaitXform.RunLeavesOneWait | crates/wait-xform/src/lib.rs:297-316 | after a successful run the only wait left in any local function is the one inside `__atomic_wait32` |
| WaitXform.WasmModule.constructor | crates/wait-xform/src/lib.rs:280 | the module holds the given tables |
| WaitXform.WasmModule.AddImportFunc | crates/wait-xform/src/lib.rs:44-57 | adds one import and one named function standing for it, and returns the new function's id |
| WaitXform.WasmModule.AddExportedGlobal | crates/wait-xform/src/lib.rs:59-85 | adds one mutable, unshared, named global with the given initial value, and exports it under that name |
| WaitXform.WasmModule.AddLocals | crates/wait-xform/src/lib.rs:144-151 | adds the given number of locals and returns the first new id |
| WaitXform.WasmModule.Run | crates/wait-xform/src/lib.rs:280-317 | without a memory it fails and changes nothing; otherwise it adds the two imports, the `max_spin_ns` (10 s) and `wait_prohibited` (0) exported globals, nine locals and the spin and wait functions, then rewrites every other local function with the result `RewriteFrom` gives |
| WaitXform.WasmModule.RewriteFunctions | crates/wait-xform/src/lib.rs:298-316 | the loop over the functions has exactly the effect and result of `RewriteFrom` |
| WaitXform.Wait32Dispatch | crates/wait-xform/src/lib.rs:107-122 | running the generated `__atomic_wait32` body with Wasm's `if` rule (nonzero takes the consequent), the taken branch ends in the call of the spin function iff the `wait_prohibited` global is nonzero, and in a native 32-bit wait on the module's memory with the fixed memory argument iff it is zero |
| WaitXform.AtomicSpin32 | crates/wait-xform/src/lib.rs:128-234 | the generated spin function, over the successive loads and clock readings, ends as `SpinRun` says |
| WaitXform.SpinZeroIff | crates/wait-xform/src/lib.rs:160-167 | 0 is returned iff the value differs on entry |
| WaitXform.SpinLoopNeverZero | crates/wait-xform/src/lib.rs:175-230 | the loop can only return 1 or 2 |
| WaitXform.SpinLoopNotEqual | crates/wait-xform/src/lib.rs:179-190 | 1 is returned only after a load that differs, with every earlier load equal |
| WaitXform.SpinLoopTimedOut | crates/wait-xform/src/lib.rs:191-205 | 2 is returned only after a clock reading whose wrapped difference from the start reaches the timeout |
| WaitXform.SpinLoopTrapped | crates/wait-xform/src/lib.rs:206-227 | the spin-timeout trap happens only under a nonzero ceiling that some elapsed time reached while still below the timeout |
| WaitXform.SpinZeroTimeout | crates/wait-xform/src/lib.rs:191-205 | with timeout 0, an unchanged value returns 2 at the first loop iteration |
| WaitXform.SpinCodesAgainstNative | crates/wait-xform/src/lib.rs:160-190 | a value that differs on entry gives the native "ok" code 0, and one that changes while spinning gives the native "not-equal" code 1 |
| Encoding.Leb128 | crates/backend/src/encode.rs:462-472 | every u32 takes at least one byte |
| Encoding.Leb128Shape | crates/backend/src/encode.rs:462-472 | a u32 takes one to five bytes; every byte but the last has the high bit set and the last does not; one byte iff the value is below 0x80 |
| Encoding.Leb128Examples | crates/backend/src/encode.rs:462-472 | 0, 0x7f, 0x80 and 624485 encode as [0], [0x7f], [0x80, 0x01] and [0xe5, 0x8e, 0x26] |
| Encoding.Leb128RoundTrip | crates/backend/src/encode.rs:462-472 | the LEB128 reader gives back the number and leaves what follows |
| Encoding.LowGroup | crates/backend/src/encode.rs:466 | `val as u8` or-ed with 0x80 is the low seven bits plus the continuation bit |
| Encoding.OrSetsHighBit | crates/backend/src/encode.rs:466 | on a byte, or-ing in 0x80 adds 0x80 to its low seven bits |
| Encoding.Leb128Step | crates/backend/src/encode.rs:465-468 | one loop turn emits the low group with the continuation bit, and the rest of the encoding is that of `val >> 7` |
| Encoding.EncodeChecked | crates/backend/src/encode.rs:456-575 | the encoder run part by part, where the usize assertion fails on any length or usize over `u32::MAX` and a failure in any element, field or payload fails the whole value, succeeds iff the value is `Encodable`, and then gives exactly `Encode` |
| Encoding.EncodeAllChecked | crates/backend/src/encode.rs:500-531 | a sequence of values encoded one after another succeeds iff every value is `Encodable`, and then gives `EncodeAll` |
| Encoding.UsizeEncode | crates/backend/src/encode.rs:474-479 | a usize passes the assertion iff it is at most `u32::MAX`, and then it is the u32 encoding (one to five bytes) |
| Encoding.LengthPrefixedRoundTrip | crates/backend/src/encode.rs:481-486 | reading a length-prefixed byte string gives the length, then exactly the bytes, and leaves what follows |
| Encoding.RoundTrip | crates/backend/src/encode.rs:456-574 | decoding the encoding of any encodable value by its type gives the value back and leaves what follows |
| Encoding.RoundTripLitOrExpr | crates/backend/src/encode.rs:419-428 | a literal reads back as its string; an expression reads back as itself |
| Encoding.RoundTripVec | crates/backend/src/encode.rs:500-507 | a vector reads back as its length and its elements |
| Encoding.RoundTripOption | crates/backend/src/encode.rs:509-519 | an option reads back from its 0/1 tag and its value |
| Encoding.RoundTripEnum | crates/backend/src/encode.rs:547-571 | an enum reads back from its variant index and its payload, if that variant has one |
| Encoding.RoundTripN | crates/backend/src/encode.rs:503-505 | n encoded elements of one type read back as those elements |
| Encoding.RoundTripFields | crates/backend/src/encode.rs:527-531 | a struct's concatenated fields read back field by field |
| Encoding.EncodeInjective | crates/backend/src/encode.rs:456-574 | two values of one type with equal encodings are equal |
| Encoding.Encoder.constructor | crates/backend/src/encode.rs:431-433 | a new encoder has no chunks |
| Encoding.Encoder.Append | crates/backend/src/encode.rs:439-453 | the new chunk list is the old one with the bytes added to its last chunk when that is a byte chunk, and with a new byte chunk of them otherwise; the encoder's items grow by exactly those bytes, and byte chunks stay coalesced |
| Encoding.Encoder.Byte | crates/backend/src/encode.rs:439-445 | one byte is appended to the output: added to the last chunk when that is a byte chunk, as a new byte chunk otherwise |
| Encoding.Encoder.ExtendFromSlice | crates/backend/src/encode.rs:447-453 | the slice is appended to the output: added to the last chunk when that is a byte chunk, as a new byte chunk otherwise |
| Encoding.Encoder.PushExpr | crates/backend/src/encode.rs:422-424 | an expression becomes a chunk of its own at the end |
| Encoding.Encoder.EncodeU32 | crates/backend/src/encode.rs:462-472 | the loop emits exactly the LEB128 encoding of the value |
| Encoding.Encoder.EncodeBytes | crates/backend/src/encode.rs:481-498 | a byte slice or string is emitted as its length, then its bytes |
| Encoding.Encoder.EncodeValue | crates/backend/src/encode.rs:456-574 | any encodable value is emitted as exactly `Encode` of it |
| Encoding.Encoder.EncodeVec | crates/backend/src/encode.rs:500-507 | a vector is emitted as its length, then each element |
| Encoding.Encoder.EncodeSome | crates/backend/src/encode.rs:513-516 | `Some` is emitted as 1, then the value |
| Encoding.Encoder.EncodeEnum | crates/backend/src/encode.rs:547-571 | a variant is emitted as its index byte, then its payload if it has one |
| Encoding.Encoder.EncodeAllValues | crates/backend/src/encode.rs:503-505 | each value is emitted in order, with nothing in between |
| Encoding.Encoder.Finish | crates/backend/src/encode.rs:435-437 | `finish` hands back the chunk list |
| Encoding.EncodeToChunks | crates/backend/src/encode.rs:25-29 | the custom section's chunks flatten to exactly the value's encoding, with no two byte chunks adjacent |
| Encoding.Interner.constructor | crates/backend/src/encode.rs:59-71 | a new interner has no files and has not seen `package.json` |
| Encoding.Interner.CheckForPackageJson | crates/backend/src/encode.rs:127-136 | the flag becomes set when the file exists and is never cleared |
| Encoding.Interner.ResolveImportModule | crates/backend/src/encode.rs:89-121 | a memoised id gives its recorded identifier and changes nothing; a new local path is filed under the crate identifier plus the original id, and that name is returned; a relative path is refused with the fixed message; anything else is returned as raw; `package.json` is checked for every id not memoised |
| Encoding.ResolveTwice | crates/backend/src/encode.rs:84-88 | resolving the same local path twice gives the same name and files it once |

## Left out

- `crates/futures/src/task/singlethread.rs` is not part of this model; `TaskDispatch.Spawn` returns which task kind receives the future.
- `thread_hold`, `thread_release` and `spawn_local` (crates/futures/src/thread.rs and the crate root) are not part of this model. The spawned thread records them as events and runs the select loop directly.
- Real concurrency is not modelled. Wakes from other threads are atomic steps between the loop's two reads of the flag, given as the per-iteration `wakes` count. Memory orderings are not modelled. In `spawn_thread`, the handle owner's `abort` and drop calls happen between the thread's select polls, at most one per round; a call that races with a poll counts as falling before or after it. Calls on a handle after it is dropped cannot happen in Rust, and the model ignores them.
- Host calls become inputs:
  - the result of `Atomics.waitAsync`, which the model takes to be synchronous exactly when the value already differs;
  - `crossOriginIsolated`;
  - the user agent, where a missing `navigator` is the empty string;
  - `queueMicrotask` detection;
  - the future's poll results;
  - atomic loads and `__wbindgen_clock_ns` readings.
- The message texts are not modelled: the "spurious wakeup" log (only counted), the long-wait trace (only recorded), and the `anyhow` errors and their context in the wait transformation (`WaitError` and `RunError` carry the data).
- `JoinError`'s `Debug` impl and `JoinHandle`'s `Debug` impl are not modelled; they are formatting only.
- `into_panic` is not modelled: it is `try_into_panic` followed by a panic on `Err`.
- Helper workers:
  - the worker name format (`WBG_PKG`, the thread id) is not modelled; only the `ID` value is kept;
  - a failing `Worker::new_with_options` or `post_message` is not modelled (it throws);
  - the `setTimeout` lookup is not modelled (it unwraps).
- `WaitAsyncPolyfill.Polyfill.WaitAsync`: the helper's own `Atomics.wait` is not modelled. Its outcome is the `result` passed to `DeliverResult`.
- `MultithreadTask.Task.Run`: the arguments `available` and `safari` are the memoised values of `is_wait_async_available` and `is_safari`, fixed per thread. That is why it requires `available ==> !safari`, which `HostProbe.WaitAsyncUsable` proves.
- walrus's `dfs_pre_order_mut` is not part of this model; the walk is modelled as a recursive pre-order walk: each instruction, then its nested sequences, then its siblings. The order decides which of several bad waits is reported, and which earlier waits of the failing function are already replaced when the walk stops (`WaitXform.RewriteStopsAtFailure`). For `[Block([good wait]), bad wait]` the model replaces the good wait before failing; a walk that finishes a sequence's own instructions before its nested ones fails first and leaves it in place.
- walrus types and the types table are not modelled: function types are plain values, and a function type is not interned.
- The wait function's location ids are not modelled.
- `Encoding.Encoder.EncodeValue`: it requires `Encodable` instead of modelling the panic of `usize::encode` on values over `u32::MAX` and the enums with 256 or more variants, which do not build (the variant index is a `u8` literal). `Encoding.EncodeChecked` and `Encoding.UsizeEncode` model those cases as `None`.
- The AST-to-shared conversions `shared_program` and the rest (encode.rs 138-404), and the concrete struct and enum list of the shared API (encode.rs 576-627), are not modelled. The `Value` and `Schema` datatypes stand for every type those macros generate.
- `Interner`:
  - `intern` and `intern_str` (bump allocation) are not modelled; they are identity here;
  - `ShortHash(0)` is an input string;
  - `PathBuf::join` is the `Path` datatype;
  - environment variables and the file system are not modelled: the root and crate name are inputs, and whether `package.json` exists is a parameter;
  - the `Span`s are not modelled;
  - the `included_files` list of `encode` is not modelled.
- Strings are sequences of characters; UTF-8 is only the byte sequence carried by `VStr` and `Lit`.
