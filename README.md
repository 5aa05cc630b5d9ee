# child_wait_timeout in Dafny

This project models the crate `child_wait_timeout`. The crate adds `ChildWT::wait_timeout` to `std::process::Child`: wait for a child process to exit, but for at most a given `Duration`.

The model has three layers.

- **The dispatcher** (`src/platform/mod.rs`). It makes one pre-check with `try_wait`. It then cuts the timeout into chunks of at most `u32::MAX` milliseconds and hands each chunk to the selected backend. After the last chunk it collects the exit status.
- **The backend selection.** Four `#[cfg]` predicates choose one backend from the target and the cargo features.
- **The four backends.**
  - Windows: `WaitForSingleObject`.
  - pidfd: `pidfd_open` and `select`.
  - signal: `SIGCHLD` and `sigtimedwait`.
  - thread: a C helper that runs `waitid` in a second thread and waits on a condition variable with an absolute monotonic deadline.

Every OS primitive is a parameter of the model.

- **Windows** takes a function from handle and timeout to a wait code.
- **Signal** takes a function from the waited set and the `timespec` to the result, the `errno`, the `si_pid` and the `si_code`. The corrected signal backend's function also takes the instant of the call and gives the instant it returns.
- **pidfd** takes a function for the raw `pidfd_open`, and one from `nfds`, the read set and the `timeval` to `select`'s result.
- **The C helper** takes a `PthreadOs` value. It holds each pthread call's return code, the `clock_gettime` reading, `pthread_cond_timedwait` as a function of the deadline, and `waitid`.

The state the source changes in place is held in classes:

- **`Platform.Child`**, the child handle. It holds the cached status and an abstract millisecond clock, with the instant the child exits.
  - It records every backend call and its reply.
  - Its OS may be told to fail on chosen calls.
- **`UnixSignal.SignalMask`**, the process's blocked signals.
- **`UnixPidfd.Descriptors`**, the open descriptors and a log of the calls made on them.
- **`ThreadHelper.CallerThread`**, the calling thread's `errno` and a log of pthread object inits and destroys.
- **`ThreadHelper.ProcInfo`**, the `proc_info_t` whose `return_val` the waiter writes.

Each backend is also checked against the contract the dispatcher assumes of it (`Platform.IdealReply`). Give the backend OS calls that behave as documented for a child exiting at instant `e`. Then a call with chunk `c` at instant `now` succeeds iff `e <= now + c`, and otherwise reports the timeout error. The `RefinesIdealBackend` lemmas prove this for every chunk for the pidfd and thread backends. For the signal backend they prove it only when no other child exists and the awaited child never stops or continues: as written, a stop or continue notification reads as the exit, which is a finding. For Windows they prove it for every chunk below `u32::MAX`: that value is `INFINITE` to `WaitForSingleObject`, which is also a finding. Both are described under "## Findings".

For the dispatcher, the end-to-end theorem is proved over that ideal backend: the result is `Ok` iff the child exits within the timeout, and otherwise a `TimedOut` error after exactly the whole timeout has elapsed. It holds over any number of chunks. This theorem is `Platform.Child.WaitTimeout`'s `NoFaults` clauses.

The loop (`src/platform/mod.rs:175`) runs while strictly more than `u32::MAX` ms remain, so a timeout of exactly `u32::MAX` ms is one call, not a full chunk followed by a call with 0; `Platform.Chunks` encodes this guard.

## Model

| member | source | states |
|---|---|---|
| Errors.GenerateDefaultError | src/error.rs:3-8 | always a failure, of kind `Other` with the unspecified-error message; never `Ok`, so `?` on it always returns early |
| Errors.GenerateTimeoutError | src/error.rs:10-15 | always a failure, of kind `TimedOut` |
| Errors.ProducersSeparated | src/error.rs:3-15 | the dispatcher's `TimedOut` test accepts the timeout error and rejects the default error, and the two differ |
| Selection.EnabledImps | src/platform/mod.rs:7-36 | a backend module is compiled in exactly when its `cfg` predicate holds |
| Selection.DocumentedUnixImp | src/platform/mod.rs:57-59 | the documented unix priority (pidfd, then thread, then signal, thread by default) never picks the Windows backend |
| Selection.UnixSelectsDocumentedImp | src/platform/mod.rs:11-36 | on unix exactly one backend is compiled in for every feature combination, and it is the documented one; with no features it is the thread backend |
| Selection.WindowsSelectsWindowsImp | src/platform/mod.rs:7-9 | on Windows exactly the Windows backend is compiled in, whatever the features |
| Selection.HelperBuiltIffThreadImp | build.rs:2-12 | the build script compiles the C helper exactly when the thread backend is selected |
| Platform.IdealReply | src/platform/mod.rs:45-47 | the backend contract: success iff the child exits within the chunk, otherwise the timeout error |
| Platform.ChunksOf | src/platform/mod.rs:175-186 | the decomposition of a timeout into chunks of at most a given full size is never empty |
| Platform.Chunks | src/platform/mod.rs:175-186 | the source's decomposition, with full chunks of `u32::MAX`, is never empty |
| Platform.ChunksSum | src/platform/mod.rs:173-186 | the chunks add up to the whole timeout |
| Platform.ChunksShape | src/platform/mod.rs:175-186 | every chunk but the last is the full size and the last is at most that; a positive timeout ends with a non-zero chunk; a zero timeout is the single chunk 0 |
| Platform.ChunksCount | src/platform/mod.rs:175-186 | a positive timeout takes `ceil(t / full)` backend calls: `n` calls with `(n - 1) * full < t <= n * full` |
| Platform.ChunksUnfold | src/platform/mod.rs:175-184 | while more than `u32::MAX` remain, the next chunk is `u32::MAX` and the rest is the decomposition of what is left |
| Platform.Child.TryWait | src/platform/mod.rs:168 | the cached status, else the OS's error, else the status (cached from then on) if the child has exited by now, else none |
| Platform.Child.Wait | src/platform/mod.rs:178 | on an exited child: the cached status, else the OS's error, else the status, now cached |
| Platform.Child.WaitUntracedMs | src/platform/mod.rs:176 | one backend call: the injected fault if there is one for this call, else the ideal reply; time advances by at most the chunk, and by the whole chunk on an ideal timeout (an injected `TimedOut` fault advances no time); the call's instant, its chunk and its reply are recorded |
| Platform.Child.WaitTimeout | src/platform/mod.rs:166-189 | see below the table |
| Platform.Child.WaitInChunks | src/platform/mod.rs:172-188 | after a pre-check that found no status: the same guarantees as `WaitTimeout`, with at least one backend call; an error as the last reply is the result, and a success as the last reply gives what `wait`/`try_wait` answer on an exited child |
| Platform.Child.WaitFullChunks | src/platform/mod.rs:175-185 | see below the table |
| Platform.Child.WaitFullChunk | src/platform/mod.rs:176-183 | one pass of the loop body, decided by the reply of a `u32::MAX` call: a success returns what `wait` answers, a non-timeout error is returned as it is, and a timeout (after the whole chunk elapsed) and only a timeout goes on looping |
| Platform.Child.WaitLastChunk | src/platform/mod.rs:186-188 | one call with the remainder; an error reply is the result; a success gives what `try_wait` answers on the exited child; and over a backend that meets the ideal contract the `expect` cannot fail |
| Platform.ShortLivedChildIsCollected | tests/test.rs:9-19 | a child exiting after 1 s, waited on for 5 s, gives `Ok` with its status |
| Platform.HugeTimeoutIsCollected | tests/test.rs:21-31 | the same with a timeout of 4_294_967_295 s |
| Platform.LongLivedChildTimesOut | tests/test.rs:33-47 | a 3 s child waited on for 1 s gives `TimedOut` after exactly 1 s |
| Platform.SecondWaitSameStatus | tests/test.rs:49-64 | waiting twice gives the same status twice |
| Platform.ZeroTimeoutTimesOutAtOnce | src/platform/mod.rs:173-186 | a zero timeout on a running child is one backend call with 0, and times out with no time elapsed |
| Platform.ExitInSecondChunkIsCollected | src/platform/mod.rs:175-178 | a timeout of `2 * u32::MAX + 1` ms (two full chunks and one of 1 ms) on a child that exits 5 ms into the second full chunk gives `Ok` with its status |
| Platform.FailureAbortsLoop | src/platform/mod.rs:179-182 | a generic failure on the first of three chunks is returned at once after a single backend call |
| Platform.FailureBeatsExit | src/platform/mod.rs:186 | a generic failure of the only backend call is returned, even though the child exits within the timeout |
| Platform.PreCheckErrorIgnored | src/platform/mod.rs:168-170 | an error from the pre-check `try_wait` is not returned: the backend is called with the timeout, and a child that never exits times out |
| Windows.WaitUntracedMs | src/platform/windows.rs:11-25 | the timeout reaches `WaitForSingleObject` unchanged; `WAIT_OBJECT_0` iff `Ok`, `WAIT_TIMEOUT` iff `TimedOut`, every other code iff `Other`; the three cases are exclusive and exhaustive |
| Windows.RefinesIdealBackend | src/platform/windows.rs:11-25 | for every chunk below `INFINITE`, a documented `WaitForSingleObject` returns and the backend is the ideal backend |
| Windows.FullChunkIsInfinite | src/platform/mod.rs:175-176 | the full chunk `u32::MAX` is `INFINITE`, and a timeout of exactly `u32::MAX` ms is one such call; on a child not exited by the end of that chunk, where the ideal reply is the timeout error, a documented wait never returns it: it does not return for a child that never exits, and reports success for one that exits later |
| Windows.CappedChunksRefine | src/platform/mod.rs:173-186 | full chunks capped one below `INFINITE` still add up to the timeout, none is `INFINITE`, and on each of them, at any instant, the documented wait returns and gives the ideal reply |
| ThreadHelper.GetMaxTimeT | src/platform/wait_timeout_thread_untraced.c:50-62 | the `limits.h` constant selected for `time_t` is the largest value of that type, for either width of `long` |
| ThreadHelper.DeadlineAfter | src/platform/wait_timeout_thread_untraced.c:75-89 | the deadline is a normalised `timespec` that lies exactly `timeout_ms` after the clock reading |
| ThreadHelper.DivModShift | src/platform/wait_timeout_thread_untraced.c:80-81 | the carry of whole seconds out of the nanoseconds preserves the instant |
| ThreadHelper.MaxTimeTAtLeast | src/platform/wait_timeout_thread_untraced.c:50-62 | a `time_t` of at least 32 bits has a maximum of at least 2^31 - 1 |
| ThreadHelper.DeadlineSteps | src/platform/wait_timeout_thread_untraced.c:75-81 | on the helper's non-negative operands C's truncating `/` and `%` agree with the mathematical ones; the nanosecond sum fits a 32-bit `long`; `seconds` is at most 4_294_968; the carried seconds and the remaining nanoseconds are the deadline |
| ThreadHelper.WaitUntracedInternal4 | src/platform/wait_timeout_thread_untraced.c:65-95 | a clock failure returns -1 and leaves the `errno` the clock set; otherwise `errno` is unchanged; -1 iff the clock fails or the deadline's seconds exceed `time_t`; otherwise the timed wait's result for the deadline `timeout_ms` after now; the nanosecond sum fits a 32-bit `long` and `seconds` cannot overflow |
| ThreadHelper.ProcInfo.constructor | src/platform/wait_timeout_thread_untraced.c:141-143 | `return_val` starts at -1 for the given pid |
| ThreadHelper.WaitIdLeavesZombie | src/platform/wait_timeout_thread_untraced.c:29 | the `waitid` options include `WNOWAIT` and `WEXITED`, so the child is reported and not reaped |
| ThreadHelper.WaitForProcess | src/platform/wait_timeout_thread_untraced.c:24-48 | `return_val` is -1 iff `waitid` fails and 0 iff it succeeds |
| ThreadHelper.WaitUntracedInternal3 | src/platform/wait_timeout_thread_untraced.c:98-135 | see below the table |
| ThreadHelper.BracketedBalanced | src/platform/wait_timeout_thread_untraced.c:137-189 | in a properly nested init/destroy log every object is destroyed as often as it is initialised |
| ThreadHelper.Wrap | src/platform/wait_timeout_thread_untraced.c:137-189 | wrapping a nested log in one more object's init and destroy keeps it nested |
| ThreadHelper.HelperLogCases | src/platform/wait_timeout_thread_untraced.c:137-189 | the helper's log by which init fails first: nothing if the mutex fails; mutex only if the attribute fails; mutex and attribute if clock selection or the condition variable fails; otherwise all three, each destroyed in reverse order of initialisation |
| ThreadHelper.HelperLogNests | src/platform/wait_timeout_thread_untraced.c:137-189 | the helper's log is properly nested: the first object initialised is the last destroyed |
| ThreadHelper.HelperLogInitOnce | src/platform/wait_timeout_thread_untraced.c:137-189 | each pthread object is initialised exactly once if its init is reached and succeeds, and never otherwise |
| ThreadHelper.HelperLogDestroyOnce | src/platform/wait_timeout_thread_untraced.c:137-189 | each pthread object is destroyed exactly once if its init succeeded, and never if the init failed or was not reached |
| ThreadHelper.WaitUntracedInternal2 | src/platform/wait_timeout_thread_untraced.c:137-159 | a failed `setclock` or `cond_init` returns -1, logs nothing and leaves `errno` alone; otherwise the condition variable is initialised and destroyed around `_internal_3`, whose outcome and `errno` are those of the helper |
| ThreadHelper.WaitUntracedInternal1 | src/platform/wait_timeout_thread_untraced.c:161-175 | a failed `condattr_init` returns -1 and logs nothing; otherwise the attribute's init and destroy bracket `_internal_2`'s log; the result is 0 iff the helper succeeded, else -1; `errno` is `ETIMEDOUT` after a timeout, the clock's error after a clock failure, and unchanged otherwise |
| ThreadHelper.WaitTimeoutUntraced | src/platform/wait_timeout_thread_untraced.c:177-189 | see below the table |
| ThreadHelper.WaitTimeoutUntracedClearingErrno | src/platform/wait_timeout_thread_untraced.c:177-189 | corrected helper: the same log and result as the helper; after a -1 `errno` is `ETIMEDOUT` exactly when the timed wait timed out; it is the clock's error after a clock failure, and 0 otherwise |
| UnixThread.Classify | src/platform/unix_thread.rs:16-22 | a result other than -1 iff `Ok`; -1 with `ETIMEDOUT` iff the timeout error; -1 with any other `errno` iff the default error |
| UnixThread.HelperOutcome | src/platform/unix_thread.rs:12-23 | the intended outcome of a chunk: `Ok` iff the helper's waiter saw the exit, `TimedOut` iff the timed wait timed out, never "another child died" |
| UnixThread.WaitUntracedMs | src/platform/unix_thread.rs:12-23 | the backend as written: the intended outcome, except that a failure other than the timeout and the clock's reads as a timeout when the caller's `errno` was already `ETIMEDOUT`; `errno` becomes `ETIMEDOUT` on a timeout, the clock's error on a clock failure, and is unchanged otherwise; the thread's log grows by `HelperLog` |
| UnixThread.WaitUntracedMsClearingErrno | src/platform/unix_thread.rs:12-23 | over the corrected helper the backend reports exactly the intended outcome, whatever `errno` held before |
| UnixThread.Long64Limits | src/platform/wait_timeout_thread_untraced.c:50-62 | on a 64-bit `long` `time_t` platform the maximum is `LONG_MAX` = 2^63 - 1 |
| UnixThread.ScenarioOutcomes | src/platform/wait_timeout_thread_untraced.c:98-135 | a chunk whose timed wait times out counts as a timeout; a chunk whose waiter's `waitid` fails, the condition being signalled in time, neither times out nor succeeds |
| UnixThread.StaleErrnoMisreportsFailure | src/platform/unix_thread.rs:18-19 | two chunks on one thread: a timeout, then a failed `waitid` reported as a timeout too; the corrected helper reports it as the default error |
| UnixThread.ClockFailureIsNotStale | src/platform/wait_timeout_thread_untraced.c:71-73 | after an earlier timeout, a chunk whose clock fails with `EINVAL` and whose `waitid` fails is reported as the default error, since the clock sets `errno` |
| UnixThread.DocumentedClock | src/platform/wait_timeout_thread_untraced.c:71 | the documented monotonic reading is normalised and denotes `now` ms |
| UnixThread.DeadlineFits | src/platform/wait_timeout_thread_untraced.c:84-89 | while the clock is at least 4_294_968 s below the largest `time_t`, the overflow guard never rejects, and the deadline lies exactly `now + chunk` ms on |
| UnixThread.RefinesIdealBackend | src/platform/unix_thread.rs:12-23 | over documented OS calls the intended outcome of the thread backend is the ideal backend |
| UnixSignal.MsToTimespec | src/platform/unix_signal.rs:15-18 | `tv_nsec` is at most 999_000_000 and a whole number of ms; both fields fit 32 bits; the `timespec` denotes exactly `timeout_ms` |
| UnixSignal.MsToTimespecInjective | src/platform/unix_signal.rs:15-18 | distinct timeouts give distinct `timespec`s |
| UnixSignal.AnotherChildDiedError | src/platform/unix_signal.rs:46 | a failure of kind `Other` with the "another child died" message |
| UnixSignal.Classify | src/platform/unix_signal.rs:36-47 | -1 with `EAGAIN` iff `TimedOut`; -1 with another `errno` iff the default error; the child's pid iff `Ok`; another pid iff "another child died" |
| UnixSignal.WaitUntracedMs | src/platform/unix_signal.rs:11-48 | the mask gains `SIGCHLD` and loses nothing; the wait is on exactly `{SIGCHLD}` for exactly the timeout, and its return is classified |
| UnixSignal.RefinesIdealBackend | src/platform/unix_signal.rs:11-48 | over a documented `sigtimedwait`, with no other child and no stop or continue of the awaited child, the backend is the ideal backend |
| UnixSignal.SigtimedwaitWithStops | src/platform/unix_signal.rs:34 | the documented `sigtimedwait` for a child that also stops or continues returns within its timeout, and a stop or continue notification comes strictly after the call's instant |
| UnixSignal.StopReadsAsExit | src/platform/unix_signal.rs:43-44 | as written, a stop notification of the awaited child within the chunk is classified `Ok`, though the child has not exited by the chunk's end and the ideal reply is `TimedOut` |
| UnixSignal.ClassifyExit | src/platform/unix_signal.rs:36-47 | corrected classification: no answer (wait again) iff the awaited child stopped or continued; otherwise the original classification; `Ok` iff the awaited child exited, was killed or dumped core |
| UnixSignal.WaitUntracedMsExitOnly | src/platform/unix_signal.rs:11-48 | corrected backend: the mask gains `SIGCHLD`; the result is `ExitOnlyOutcome`, waiting again for the rest of the chunk after each stop or continue |
| UnixSignal.DocumentedWithStopsAdvances | src/platform/unix_signal.rs:34 | the documented `sigtimedwait` with stops and continues meets what the corrected backend's loop needs to end |
| UnixSignal.ExitOnlyRefines | src/platform/unix_signal.rs:11-48 | over the documented `sigtimedwait` with stops and continues, the corrected backend waiting from any instant up to the deadline answers `Ok` iff the child exits by the deadline, else `TimedOut` |
| UnixSignal.ExitOnlyRefinesIdealBackend | src/platform/unix_signal.rs:11-48 | hence one chunk of the corrected backend is the ideal backend call |
| UnixSignal.OtherChildAbortsWait | src/platform/unix_signal.rs:45-46 | another child's `SIGCHLD` gives the "another child died" error, which is not `TimedOut` and so stops the chunk loop |
| UnixPidfd.PidfdOpen | src/platform/unix_pidfd.rs:11-17 | `Err(Other)` iff the raw descriptor is negative, otherwise that descriptor |
| UnixPidfd.MsToTimeval | src/platform/unix_pidfd.rs:25-28 | `tv_usec` is at most 999_000 and a whole number of ms; the `timeval` denotes exactly `timeout_ms` |
| UnixPidfd.MsToTimevalInjective | src/platform/unix_pidfd.rs:25-28 | distinct timeouts give distinct `timeval`s |
| UnixPidfd.ClassifySelect | src/platform/unix_pidfd.rs:45-51 | -1 iff the default error, 0 iff `TimedOut`, any other result iff `Ok` |
| UnixPidfd.WaitUntracedMs | src/platform/unix_pidfd.rs:19-52 | see below the table |
| UnixPidfd.RefinesIdealBackend | src/platform/unix_pidfd.rs:19-52 | over a documented `select` the backend's classification is the ideal backend |

Rows whose third column says "see below the table":

- **`Platform.Child.WaitTimeout`.**
  - An already collected status, or an exited child, is answered with no backend call.
  - The calls made are a prefix of the decomposition, and never exceed the timeout.
  - Only timeouts let the loop go on.
  - `Ok` carries the status and caches it.
  - A pre-check that fails or finds no status is not returned: the backend is called.
  - Once the backend was called, its last reply decides. An error reply is the result as it is. A success gives what `wait`/`try_wait` answer on an exited child: the OS's error if it fails, else the status.
  - A `TimedOut` from the backend comes only after the whole decomposition.
  - With an ideal OS, the result is `Ok` iff the child exits within the timeout. Otherwise it is the timeout error, after exactly the timeout.
- **`Platform.Child.WaitFullChunks`.**
  - It calls with `u32::MAX` while more than `u32::MAX` remain. It returns on the first success, with what `wait` answers, or on the first non-timeout error, which it returns as it is.
  - Otherwise it leaves a remainder whose decomposition completes the calls made.
- **`ThreadHelper.WaitUntracedInternal3`.**
  - A `pthread_create` failure returns -1 and leaves `errno` alone.
  - A timed-wait `ETIMEDOUT` returns -1 with `errno` set to `ETIMEDOUT`.
  - Otherwise it returns the waiter's `return_val`: -1 iff `waitid` failed, else 0. This includes a failed clock, which leaves its own error in `errno`; otherwise `errno` is unchanged.
- **`ThreadHelper.WaitTimeoutUntraced`.**
  - The calling thread's log grows by exactly `HelperLog`. The lemmas above prove that log properly nested, with each object initialised and destroyed once iff its init succeeded.
  - It returns 0 iff everything is set up, the timed wait did not time out and `waitid` succeeded; the result is otherwise -1.
  - `errno` becomes `ETIMEDOUT` on a timeout and the clock's error on a clock failure. It is unchanged otherwise.
- **`UnixPidfd.WaitUntracedMs`.**
  - A failed open returns the default error and makes no other call.
  - Otherwise the log is exactly open, then a `select` with `nfds = pidfd + 1` on `{pidfd}` for exactly the timeout, then one close.
  - The set of open descriptors ends as it began.
  - The result is `select`'s classification.

Helpers with no contract of their own, and so no row, used by the members above:

- `Errors.IsTimedOut` is the `e.kind() == io::ErrorKind::TimedOut` guard of `src/platform/mod.rs:179`.
- `ThreadHelper.TimedWaitResult` is the value `_internal_4` returns (`src/platform/wait_timeout_thread_untraced.c:65-95`). The contract of `ThreadHelper.WaitUntracedInternal4` fixes the same value.
- `ThreadHelper.CDiv` and `ThreadHelper.CRem` are C's truncating `/` and `%` at lines 75-81 of that file.
- `ThreadHelper.CondLog`, `ThreadHelper.AttrLog` and `ThreadHelper.HelperLog` are the init/destroy logs of `_internal_2`, `_internal_1` and `wait_timeout_untraced` (lines 137-189).
- `UnixSignal.FirstAfter` and `UnixSignal.ExitOnlyOutcome` belong to the documented signal oracle with stops and to the corrected signal backend.

## Left out

- **OS primitives.** `WaitForSingleObject`, `pidfd_open`, `select`, `sigprocmask`, `sigtimedwait`, `waitid`, `clock_gettime`, the pthread calls and `Child::try_wait`/`Child::wait` are parameters or abstract state. Their semantics are foreign code. The `Documented...` functions state the documented behaviour only for the refinement lemmas.
- **Threads in the C helper.** The helper's second thread, the mutex and condition-variable signalling, and `pthread_cancel`/`pthread_join` are serialised: the waiter's write of `return_val` is taken to happen at the join. So the model does not capture three things.
  - The lost wake-up when the waiter finishes before the main thread starts its timed wait. On that path the helper waits until the deadline and then reports a timeout.
  - Spurious wake-ups.
  - That after a non-timeout return the join blocks until `waitid` returns.
- **Timeout not honoured after a -1 from `_internal_4`.** When `_internal_4` returns -1 (a clock failure or a `time_t` overflow) the helper does not cancel the waiter. It joins it, which blocks until the child exits, and then returns `return_val`. `ThreadHelper.WaitUntracedInternal3` states this outcome, but the model has no notion of blocking.
- **Real time and scheduling.** Time is an abstract millisecond counter. A child that already exited answers a backend call at the instant it exited (or at once). No latency is modelled.
- **`time_t` narrower than 32 bits.** It is excluded by `ThreadHelper.TimeTHoldsSeconds`, since the cast of `timeout_ms / 1000` to `time_t` at line 75 would already truncate there.
- **`child.id() as pid_t`.** The conversion of the `u32` process id to `pid_t` is not modelled; pids are integers. The conversion of the pidfd from the `c_long` system-call result to `RawFd` is not modelled either.
- **The `fd_set` limit.** The pidfd backend's read set is a set of integers. `FD_SETSIZE`, above which `FD_SET` is undefined behaviour, is not modelled.
- **The signal backend's asynchronous signals.** The process signal mask is modelled, but `sigprocmask`'s return value (ignored by the source) is not. Neither is the race in which a `SIGCHLD` delivered before it is blocked is lost.
- **The signal backend with other children.** `UnixSignal.RefinesIdealBackend` assumes the awaited child is the only one. `UnixSignal.OtherChildAbortsWait` covers another child's exit.
- UnixSignal.RefinesIdealBackend: holds only for a child that never stops or continues. A stop or continue notification makes the backend as written answer `Ok` early (see Findings). The dispatcher's abstract backend, `Platform.IdealReply`, never answers `Ok` before the exit. So the paths that follow an early `Ok`, the `expect` panic at `src/platform/mod.rs:188` and the blocking `wait` at line 178, are outside `Platform`.
- **Stop and continue notifications with coalescing.** `UnixSignal.SigtimedwaitWithStops` delivers every notification of the awaited child in turn. The coalescing of pending standard signals is not modelled. Nor is a stop after the exit, which cannot happen.
- **`errno` effects of the pthread calls.** In the model, `pthread_*` calls and `waitid` never write the caller's `errno`. Only `clock_gettime` and the helper's own timeout path do.
- **Error messages.** They are kept only as far as they tell errors apart: the unspecified error, the timeout error, the "another child died" error.
- **`Duration`.** Its `u128` millisecond count is an unbounded `nat`, and sub-millisecond truncation by `as_millis` is outside the model.
- **Other files.** `src/lib.rs` (re-exports and documentation) and `benches/wait_timeout_benchmark.rs` (a Criterion timing benchmark) are not part of this model. `tests/test.rs` spawns processes; its four tests appear as scenario methods on the abstract clock.
- **One chunk size for every backend.** `Platform.Child` keeps the source's full chunk `u32::MAX` for all backends. The capped decomposition that avoids `INFINITE` is stated for the Windows backend alone, in `Windows.CappedChunksRefine`.
- **The documented OS calls.** `ThreadHelper.Sane` takes `pthread_cond_timedwait` to return 0 or a positive error number, and a failed `clock_gettime` to set a positive `errno` other than `ETIMEDOUT`, as their documentation says.
- UnixThread.RefinesIdealBackend: proved for the corrected helper's outcome (`HelperOutcome`). The as-written backend equals it unless the caller's `errno` was already `ETIMEDOUT`; see Findings.

## Findings

| source | as written | input that shows it | evidently intended | confidence | as-written member | corrected member |
|---|---|---|---|---|---|---|
| src/platform/wait_timeout_thread_untraced.c:177-189 with src/platform/unix_thread.rs:18-19 | `errno` is written only on the timeout path (line 129) and by a failing `clock_gettime` (line 71). Every other -1 (a failed pthread init, a failed `pthread_create`, a failed `waitid` on the waiter thread) leaves the caller's `errno` as it was, and the Rust side classifies the -1 by that `errno` | two chunks on one thread: the first times out and sets `errno` to `ETIMEDOUT`. In the second, every init succeeds, the clock reads 0, the waiter's `waitid` fails (`ECHILD`, the child reaped elsewhere) and signals the condition in time, so the timed wait returns 0 and the helper returns -1. The second call returns `TimedOut`, so the dispatcher treats a failure as a timeout | a -1 reads as `TimedOut` only when the helper timed out, and as `Other` otherwise; this needs `errno` cleared on entry | not executed; medium | UnixThread.StaleErrnoMisreportsFailure | ThreadHelper.WaitTimeoutUntracedClearingErrno |
| src/platform/mod.rs:175-176 with src/platform/windows.rs:16 | every full chunk is `u32::MAX`, and so is the only chunk of a timeout of exactly `u32::MAX` ms. To `WaitForSingleObject` that value is `INFINITE`, so the call returns only when the child exits | on Windows, `wait_timeout` of `u32::MAX` ms or more on a child that never exits never returns; on one that exits later than the timeout it returns `Ok` after it | a call that waits for at most the chunk and reports `TimedOut` otherwise; capping the full chunk one below `u32::MAX` does this | not executed; high | Windows.FullChunkIsInfinite | Windows.CappedChunksRefine |
| src/platform/unix_signal.rs:43-44 with src/platform/mod.rs:186-188 | any `SIGCHLD` whose `si_pid` is the child's reads as its exit; `si_code` is never looked at | the child stops (`CLD_STOPPED`, say a `SIGSTOP` sent to it) within the chunk and has not exited by its end. The backend answers `Ok`. On the last chunk `try_wait` then finds no status and the `expect` panics; in a full chunk `wait` blocks until the child exits | `Ok` only for `CLD_EXITED`, `CLD_KILLED` or `CLD_DUMPED`; after a stop or continue, wait again for the rest of the chunk | not executed; medium | UnixSignal.StopReadsAsExit | UnixSignal.ExitOnlyRefinesIdealBackend |
