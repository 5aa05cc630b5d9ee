/** The thread backend (src/platform/unix_thread.rs): one call of the C helper
    `wait_timeout_untraced`, then a classification of its result by the calling
    thread's `errno`. */
module UnixThread {
  import opened Primitives
  import opened Errors
  import opened ThreadHelper
  import Platform

  /** Lines 16-22: a result other than -1 is success; after a -1, `errno`
      decides between the timeout error and the generic one. */
  function Classify(result: int, errno: int): (r: Result<()>)
    ensures r.Ok? <==> result != -1
    ensures r == GenerateTimeoutError() <==> result == -1 && errno == ETIMEDOUT
    ensures r == GenerateDefaultError() <==> result == -1 && errno != ETIMEDOUT
  {
    if result != -1 then
      Ok(())
    else if errno == ETIMEDOUT then
      GenerateTimeoutError()
    else
      GenerateDefaultError()
  }

  /** What one chunk of the thread backend should report, from what the OS
      calls of the helper return: success when the waiter saw the exit, the
      timeout error when the timed wait timed out, the generic error otherwise. */
  function HelperOutcome(pid: int, timeoutMs: u32, p: CPlatform, os: PthreadOs): (r: Result<()>)
    ensures r.Ok? <==> Succeeds(pid, timeoutMs, p, os)
    ensures r.Err? && r.error.kind == TimedOut <==> TimesOut(timeoutMs, p, os)
    ensures r.Err? ==> r.error.message != AnotherChildDied
  {
    if Succeeds(pid, timeoutMs, p, os) then Ok(())
    else if TimesOut(timeoutMs, p, os) then GenerateTimeoutError()
    else GenerateDefaultError()
  }

  /** A failure that leaves the caller's `errno` as an earlier call set it
      (any failure but the timeout and the clock's), when that was `ETIMEDOUT`. */
  predicate StaleTimeout(pid: int, timeoutMs: u32, p: CPlatform, os: PthreadOs, errnoBefore: int) {
    && !Succeeds(pid, timeoutMs, p, os) && !TimesOut(timeoutMs, p, os) && !ClockFails(os)
    && errnoBefore == ETIMEDOUT
  }

  /** `_wait_timeout_untraced_ms` (lines 12-23) as written. It reports what
      the helper's OS calls decided, except that a failure other than the
      timeout reads as a timeout when the caller's `errno` was already
      `ETIMEDOUT`. */
  method WaitUntracedMs(pid: int, timeoutMs: u32, p: CPlatform, os: PthreadOs,
                        caller: CallerThread) returns (r: Result<()>)
    requires Sane(p, os)
    modifies caller
    ensures r == (if StaleTimeout(pid, timeoutMs, p, os, old(caller.errno)) then GenerateTimeoutError()
                  else HelperOutcome(pid, timeoutMs, p, os))
    ensures caller.errno == (if TimesOut(timeoutMs, p, os) then ETIMEDOUT
                             else if ClockFails(os) then os.clockErrno
                             else old(caller.errno))
    ensures caller.events == old(caller.events) + HelperLog(os)
  {
    var result := WaitTimeoutUntraced(pid, timeoutMs, p, os, caller);
    r := Classify(result, caller.errno);
  }

  /** The backend over the helper that clears `errno` on entry: it reports
      exactly what the helper's OS calls decided, whatever `errno` held before. */
  method WaitUntracedMsClearingErrno(pid: int, timeoutMs: u32, p: CPlatform, os: PthreadOs,
                                     caller: CallerThread) returns (r: Result<()>)
    requires Sane(p, os)
    modifies caller
    ensures r == HelperOutcome(pid, timeoutMs, p, os)
    ensures caller.events == old(caller.events) + HelperLog(os)
  {
    var result := WaitTimeoutUntracedClearingErrno(pid, timeoutMs, p, os, caller);
    r := Classify(result, caller.errno);
  }

  /** A chunk whose timed wait times out, on a 64-bit Linux platform. */
  function TimingOutOs(): PthreadOs {
    PthreadOs(0, 0, 0, 0, 0, Some(Timespec(0, 0)), 0, (d: Timespec) => ETIMEDOUT, (q: int, o: bv32) => 0)
  }

  /** A chunk in which the waiter thread's `waitid` fails (with `ECHILD`, say,
      the child having been reaped elsewhere) and signals the condition in
      time; the failure reaches the caller as a -1 and sets the caller's
      `errno` to nothing. */
  function WaitidFailsOs(): PthreadOs {
    TimingOutOs().(condTimedwait := (d: Timespec) => 0, waitid := (q: int, o: bv32) => -1)
  }

  /** The limits of a 64-bit `long` `time_t`. */
  lemma Long64Limits()
    ensures GetMaxTimeT(CPlatform(Long, Long64)) == MaxOf(Long, Long64) == 0x7FFF_FFFF_FFFF_FFFF
    ensures MinOf(Long, Long64) == -0x8000_0000_0000_0000
    ensures TimeTHoldsSeconds(CPlatform(Long, Long64))
  {
    Pow2Width64();
  }

  lemma ScenarioOutcomes()
    ensures Sane(CPlatform(Long, Long64), TimingOutOs()) && Sane(CPlatform(Long, Long64), WaitidFailsOs())
    ensures TimesOut(1000, CPlatform(Long, Long64), TimingOutOs())
    ensures !TimesOut(1000, CPlatform(Long, Long64), WaitidFailsOs())
    ensures !Succeeds(42, 1000, CPlatform(Long, Long64), WaitidFailsOs())
  {
    Long64Limits();
    DeadlineFits(0, 1000, CPlatform(Long, Long64));
  }

  /** Two chunks on one thread: the first times out and leaves `errno` at
      `ETIMEDOUT`; in the second the waiter's `waitid` fails, and the backend as
      written reports a timeout where the corrected one reports the failure. */
  method StaleErrnoMisreportsFailure() returns (first: Result<()>, second: Result<()>, corrected: Result<()>)
    ensures first == GenerateTimeoutError()
    ensures second == GenerateTimeoutError()
    ensures corrected == GenerateDefaultError()
  {
    var p := CPlatform(Long, Long64);
    ScenarioOutcomes();
    var caller := new CallerThread(0);
    first := WaitUntracedMs(42, 1000, p, TimingOutOs(), caller);
    second := WaitUntracedMs(42, 1000, p, WaitidFailsOs(), caller);
    var other := new CallerThread(ETIMEDOUT);
    corrected := WaitUntracedMsClearingErrno(42, 1000, p, WaitidFailsOs(), other);
  }

  /** A chunk in which `clock_gettime` fails with `EINVAL` and `waitid` fails. */
  function ClockFailingOs(): PthreadOs {
    TimingOutOs().(clock := None, clockErrno := EINVAL, waitid := (q: int, o: bv32) => -1)
  }

  /** A failing clock sets `errno` itself, so even after an earlier timeout the
      backend as written reports the generic error. */
  method ClockFailureIsNotStale() returns (r: Result<()>)
    ensures r == GenerateDefaultError()
  {
    var caller := new CallerThread(ETIMEDOUT);
    r := WaitUntracedMs(42, 1000, CPlatform(Long, Long64), ClockFailingOs(), caller);
  }

  // ----- the helper over documented OS calls -----

  /** The helper's OS calls as documented, for a child that exits at instant
      `exitAt` (milliseconds), called at instant `now` of the monotonic clock:
      every setup call succeeds, the timed wait is woken by the waiter once the
      child has exited by the deadline, and `waitid` reports the exit. */
  function DocumentedOs(exitAt: Option<nat>, now: nat): PthreadOs {
    PthreadOs(0, 0, 0, 0, 0, Some(Timespec(now / 1000, (now % 1000) * 1_000_000)), 0,
              (d: Timespec) => if Nanos(d) >= 0 && Platform.ExitedBy(exitAt, Nanos(d) / 1_000_000) then 0 else ETIMEDOUT,
              (q: int, o: bv32) => 0)
  }

  /** The monotonic reading `DocumentedOs` gives stands for `now` milliseconds. */
  lemma DocumentedClock(now: nat)
    ensures Normalised(DocumentedOs(None, now).clock.value)
    ensures Nanos(Timespec(now / 1000, (now % 1000) * 1_000_000)) == now * 1_000_000
  {
    assert now == (now / 1000) * 1000 + now % 1000;
  }

  /** The deadline `_internal_4` computes stays within a `time_t` whose
      maximum is at least `now / 1000 + 4_294_968` seconds. */
  lemma DeadlineFits(now: nat, chunk: u32, p: CPlatform)
    requires now / 1000 + 4_294_968 <= MaxOf(p.timeT, p.long)
    ensures DeadlineAfter(Timespec(now / 1000, (now % 1000) * 1_000_000), chunk).tvSec <= GetMaxTimeT(p)
    ensures Nanos(DeadlineAfter(Timespec(now / 1000, (now % 1000) * 1_000_000), chunk)) == (now + chunk) * 1_000_000
  {
    DocumentedClock(now);
    var total := (now + chunk) * 1_000_000;
    assert total / 1_000_000_000 == (now + chunk) / 1000 by {
      assert total == ((now + chunk) / 1000) * 1_000_000_000 + ((now + chunk) % 1000) * 1_000_000;
    }
    assert (now + chunk) / 1000 <= now / 1000 + chunk / 1000 + 1 by {
      assert now + chunk == (now / 1000 + chunk / 1000) * 1000 + (now % 1000 + chunk % 1000);
    }
  }

  /** Over documented OS calls whose clock cannot overflow `time_t`, the thread
      backend (in its corrected form) meets the contract the dispatcher relies on. */
  lemma RefinesIdealBackend(pid: int, exitAt: Option<nat>, now: nat, chunk: u32, p: CPlatform)
    requires TimeTHoldsSeconds(p)
    requires now / 1000 + 4_294_968 <= MaxOf(p.timeT, p.long)
    ensures Sane(p, DocumentedOs(exitAt, now))
    ensures HelperOutcome(pid, chunk, p, DocumentedOs(exitAt, now)) == Platform.IdealReply(exitAt, now, chunk)
  {
    var os := DocumentedOs(exitAt, now);
    DocumentedClock(now);
    DeadlineFits(now, chunk, p);
    var d := DeadlineAfter(os.clock.value, chunk);
    assert Nanos(d) / 1_000_000 == now + chunk;
    assert TimedWaitResult(os.clock, chunk, p, os.condTimedwait) == os.condTimedwait(d);
  }
}
