/** The signal backend (src/platform/unix_signal.rs): block `SIGCHLD`, wait for
    it with `sigtimedwait`, and tell the awaited child's exit from another
    child's by the `si_pid` of the signal received. `sigtimedwait` is a
    parameter; the process's signal mask is the state the backend changes. */
module UnixSignal {
  import opened Primitives
  import opened Errors
  import Platform

  /** Linux's `SIGCHLD` and `EAGAIN`. */
  const SIGCHLD: int := 17
  const EAGAIN: int := 11

  /** The `si_code`s of a `SIGCHLD` (Linux): the child exited, was killed or
      dumped core, or it stopped or continued. */
  const CLD_EXITED: int := 1
  const CLD_KILLED: int := 2
  const CLD_DUMPED: int := 3
  const CLD_STOPPED: int := 5
  const CLD_CONTINUED: int := 6

  /** Lines 15-18: the timeout as a `timespec`. Both fields fit 32-bit
      `time_t` and `long`, and the `timespec` denotes exactly `timeoutMs`. */
  function MsToTimespec(timeoutMs: u32): (ts: Timespec)
    ensures 0 <= ts.tvSec <= 4_294_967 && 0 <= ts.tvNsec <= 999_000_000
    ensures ts.tvNsec % 1_000_000 == 0
    ensures TimespecToMs(ts) == timeoutMs
  {
    Timespec(timeoutMs / 1000, (timeoutMs % 1000) * 1_000_000)
  }

  /** The length of a `timespec`, in whole milliseconds. */
  function TimespecToMs(ts: Timespec): int {
    ts.tvSec * 1000 + ts.tvNsec / 1_000_000
  }

  /** Distinct timeouts give distinct `timespec`s. */
  lemma MsToTimespecInjective(a: u32, b: u32)
    requires MsToTimespec(a) == MsToTimespec(b)
    ensures a == b
  {
    assert TimespecToMs(MsToTimespec(a)) == a;
  }

  /** What `sigtimedwait` gives back: its result, the `errno` it leaves, and
      the `si_pid` and `si_code` of the `siginfo_t` it fills in. */
  datatype SigWaitReturn = SigWaitReturn(result: int, errno: int, siPid: int, siCode: int)

  /** The error for a `SIGCHLD` from some other child (line 46). */
  function AnotherChildDiedError(): (r: Result<()>)
    ensures r.Err? && r.error.kind == Other && r.error.message == AnotherChildDied
  {
    Err(IoError(Other, AnotherChildDied))
  }

  /** Lines 36-47: -1 with `EAGAIN` is the timeout, -1 with any other `errno`
      the generic failure; a signal from the awaited child is success and one
      from any other child the "another child died" error. */
  function Classify(w: SigWaitReturn, pid: int): (r: Result<()>)
    ensures r.Ok? <==> w.result != -1 && w.siPid == pid
    ensures r == GenerateTimeoutError() <==> w.result == -1 && w.errno == EAGAIN
    ensures r == GenerateDefaultError() <==> w.result == -1 && w.errno != EAGAIN
    ensures r == AnotherChildDiedError() <==> w.result != -1 && w.siPid != pid
  {
    if w.result == -1 then
      if w.errno == EAGAIN then GenerateTimeoutError() else GenerateDefaultError()
    else if w.siPid == pid then
      Ok(())
    else
      AnotherChildDiedError()
  }

  /** The process's set of blocked signals. */
  class SignalMask {
    var blocked: set<int>

    constructor (blocked: set<int>)
      ensures this.blocked == blocked
    {
      this.blocked := blocked;
    }
  }

  /** `_wait_timeout_untraced_ms` (lines 11-48). The set it builds holds
      `SIGCHLD` alone; `SIG_BLOCK` adds it to the mask, which is never restored,
      so every signal blocked before stays blocked; `sigtimedwait` waits on
      that set for exactly the timeout. */
  method WaitUntracedMs(pid: int, timeoutMs: u32, mask: SignalMask,
                        sigtimedwait: (set<int>, Timespec) -> SigWaitReturn) returns (r: Result<()>)
    modifies mask
    ensures mask.blocked == old(mask.blocked) + {SIGCHLD}
    ensures r == Classify(sigtimedwait({SIGCHLD}, MsToTimespec(timeoutMs)), pid)
  {
    var ts := MsToTimespec(timeoutMs);
    var sigset: set<int> := {};          // sigemptyset
    sigset := sigset + {SIGCHLD};        // sigaddset
    assert sigset == {SIGCHLD};
    mask.blocked := mask.blocked + sigset;
    var w := sigtimedwait(sigset, ts);
    r := Classify(w, pid);
  }

  /** `sigtimedwait` as documented, when the only child of the process is the
      awaited one, which exits at instant `exitAt` with the call made at
      instant `now` (milliseconds): it returns `SIGCHLD` with the child's pid
      once the child has exited by the end of the timeout, and fails with
      `EAGAIN` otherwise. */
  function DocumentedSigtimedwait(pid: int, exitAt: Option<nat>, now: nat): (set<int>, Timespec) -> SigWaitReturn {
    (signals: set<int>, ts: Timespec) =>
      if SIGCHLD in signals && TimespecToMs(ts) >= 0 && Platform.ExitedBy(exitAt, now + TimespecToMs(ts))
      then SigWaitReturn(SIGCHLD, 0, pid, CLD_EXITED)
      else SigWaitReturn(-1, EAGAIN, 0, 0)
  }

  /** Over a documented `sigtimedwait`, with no other child and no stop or
      continue of the awaited one, the backend meets the contract the
      dispatcher relies on. */
  lemma RefinesIdealBackend(pid: int, exitAt: Option<nat>, now: nat, chunk: u32)
    ensures Classify(DocumentedSigtimedwait(pid, exitAt, now)({SIGCHLD}, MsToTimespec(chunk)), pid)
            == Platform.IdealReply(exitAt, now, chunk)
  {
    assert TimespecToMs(MsToTimespec(chunk)) == chunk;
  }

  /** `sigtimedwait` when some other child `other` exits first: its `SIGCHLD`
      ends the wait. */
  function OtherChildSigtimedwait(other: int): (set<int>, Timespec) -> SigWaitReturn {
    (signals: set<int>, ts: Timespec) => SigWaitReturn(SIGCHLD, 0, other, CLD_EXITED)
  }

  /** Another child's exit is reported as an error of kind `Other` rather than
      as a timeout, so the dispatcher's chunk loop stops on it. */
  lemma OtherChildAbortsWait(pid: int, other: int, chunk: u32)
    requires other != pid
    ensures Classify(OtherChildSigtimedwait(other)({SIGCHLD}, MsToTimespec(chunk)), pid) == AnotherChildDiedError()
    ensures !IsTimedOut(AnotherChildDiedError().error)
  {
  }

  // ----- the awaited child's stop and continue notifications -----

  /** The first of `notes` later than `at`; on instants in increasing order,
      the earliest. */
  function FirstAfter(notes: seq<nat>, at: nat): (r: Option<nat>)
    ensures r.Some? ==> r.value in notes && r.value > at
    ensures r.None? ==> forall n :: n in notes ==> n <= at
  {
    if notes == [] then None
    else if notes[0] > at then Some(notes[0])
    else
      assert notes == [notes[0]] + notes[1..];
      FirstAfter(notes[1..], at)
  }

  /** `sigtimedwait` as documented for a child that exits at `exitAt` and stops
      or continues at the instants `notes`, the parent ignoring no `SIGCHLD`
      and setting no `SA_NOCLDSTOP`. Called at instant `at`, it gives the
      `SIGCHLD` of the first stop or continue within the timeout, else the
      exit's within the timeout, else `EAGAIN`; paired with the instant it
      returns, which is within the timeout and, for a stop or continue,
      later than `at`. */
  function SigtimedwaitWithStops(pid: int, exitAt: Option<nat>, notes: seq<nat>,
                                 at: nat, signals: set<int>, ts: Timespec): (w: (SigWaitReturn, nat))
    ensures TimespecToMs(ts) >= 0 ==> at <= w.1 <= at + TimespecToMs(ts)
    ensures w.0.result != -1 ==> at < w.1 || w.0.siCode == CLD_EXITED
  {
    var ms := TimespecToMs(ts);
    var next := FirstAfter(notes, at);
    if SIGCHLD !in signals || ms < 0 then (SigWaitReturn(-1, EAGAIN, 0, 0), at)
    else if next.Some? && next.value <= at + ms then (SigWaitReturn(SIGCHLD, 0, pid, CLD_STOPPED), next.value)
    else if Platform.ExitedBy(exitAt, at + ms) then (SigWaitReturn(SIGCHLD, 0, pid, CLD_EXITED), Max(at, exitAt.value))
    else (SigWaitReturn(-1, EAGAIN, 0, 0), at + ms)
  }

  /** That `sigtimedwait`, as the oracle the corrected backend calls. */
  function DocumentedWithStops(pid: int, exitAt: Option<nat>, notes: seq<nat>): (nat, set<int>, Timespec) -> (SigWaitReturn, nat) {
    (at: nat, signals: set<int>, ts: Timespec) => SigtimedwaitWithStops(pid, exitAt, notes, at, signals, ts)
  }

  /** As written, a `SIGCHLD` for the awaited child's stop counts as its
      exit: the backend answers `Ok` although the child has not exited by
      the end of the chunk and the contract wants the timeout error. */
  lemma StopReadsAsExit(pid: int, exitAt: Option<nat>, notes: seq<nat>, now: nat, chunk: u32)
    requires |notes| > 0 && now < notes[0] <= now + chunk
    requires !Platform.ExitedBy(exitAt, now + chunk)
    ensures Classify(DocumentedWithStops(pid, exitAt, notes)(now, {SIGCHLD}, MsToTimespec(chunk)).0, pid) == Ok(())
    ensures Platform.IdealReply(exitAt, now, chunk) == GenerateTimeoutError()
  {
    assert TimespecToMs(MsToTimespec(chunk)) == chunk;
    assert FirstAfter(notes, now) == Some(notes[0]);
  }

  /** A signal of the awaited child that is not its end: it stopped or continued. */
  predicate StopOrContinue(w: SigWaitReturn, pid: int) {
    w.result != -1 && w.siPid == pid && w.siCode !in {CLD_EXITED, CLD_KILLED, CLD_DUMPED}
  }

  /** The corrected classification: a stop or continue of the awaited child
      is no answer (`None`: wait again); every other return is classified as
      before. */
  function ClassifyExit(w: SigWaitReturn, pid: int): (r: Option<Result<()>>)
    ensures r.None? <==> StopOrContinue(w, pid)
    ensures r.Some? ==> r.value == Classify(w, pid)
    ensures r == Some(Ok(())) <==> w.result != -1 && w.siPid == pid && w.siCode in {CLD_EXITED, CLD_KILLED, CLD_DUMPED}
  {
    if StopOrContinue(w, pid) then None else Some(Classify(w, pid))
  }

  /** A `sigtimedwait` paired with the clock reading after it: it returns
      within its timeout, and a stop or continue of the awaited child takes
      time, so waiting again ends. */
  ghost predicate Advances(pid: int, sigtimedwait: (nat, set<int>, Timespec) -> (SigWaitReturn, nat)) {
    forall at: nat, ms: u32 ::
      var w := sigtimedwait(at, {SIGCHLD}, MsToTimespec(ms));
      at <= w.1 <= at + ms && (StopOrContinue(w.0, pid) ==> at < w.1)
  }

  /** What the corrected backend answers when it waits, from instant `at`,
      until `deadline`. */
  ghost function ExitOnlyOutcome(pid: int, at: nat, deadline: nat,
                                 sigtimedwait: (nat, set<int>, Timespec) -> (SigWaitReturn, nat)): Result<()>
    requires at <= deadline && deadline - at <= U32_MAX && Advances(pid, sigtimedwait)
    decreases deadline - at
  {
    var w := sigtimedwait(at, {SIGCHLD}, MsToTimespec(deadline - at));
    assert at <= w.1 <= deadline && (StopOrContinue(w.0, pid) ==> at < w.1);
    match ClassifyExit(w.0, pid)
    case Some(r) => r
    case None => ExitOnlyOutcome(pid, w.1, deadline, sigtimedwait)
  }

  /** The corrected backend: block `SIGCHLD` as before, but wait again, for
      the rest of the chunk, after a stop or continue of the awaited child. */
  method WaitUntracedMsExitOnly(pid: int, timeoutMs: u32, now: nat, mask: SignalMask,
                                sigtimedwait: (nat, set<int>, Timespec) -> (SigWaitReturn, nat)) returns (r: Result<()>)
    requires Advances(pid, sigtimedwait)
    modifies mask
    ensures mask.blocked == old(mask.blocked) + {SIGCHLD}
    ensures r == ExitOnlyOutcome(pid, now, now + timeoutMs, sigtimedwait)
  {
    mask.blocked := mask.blocked + {SIGCHLD};
    var deadline := now + timeoutMs;
    var at := now;
    while true
      invariant now <= at <= deadline
      invariant ExitOnlyOutcome(pid, at, deadline, sigtimedwait) == ExitOnlyOutcome(pid, now, deadline, sigtimedwait)
      decreases deadline - at
    {
      var ms: u32 := deadline - at;
      var w := sigtimedwait(at, {SIGCHLD}, MsToTimespec(ms));
      assert at <= w.1 <= at + ms && (StopOrContinue(w.0, pid) ==> at < w.1);
      var c := ClassifyExit(w.0, pid);
      if c.Some? {
        return c.value;
      }
      at := w.1;
    }
  }

  /** The documented `sigtimedwait` with stops and continues advances. */
  lemma DocumentedWithStopsAdvances(pid: int, exitAt: Option<nat>, notes: seq<nat>)
    ensures Advances(pid, DocumentedWithStops(pid, exitAt, notes))
  {
    forall at: nat, ms: u32
      ensures var w := DocumentedWithStops(pid, exitAt, notes)(at, {SIGCHLD}, MsToTimespec(ms));
              at <= w.1 <= at + ms && (StopOrContinue(w.0, pid) ==> at < w.1)
    {
      assert TimespecToMs(MsToTimespec(ms)) == ms;
    }
  }

  /** Over a documented `sigtimedwait` that also reports the awaited child's
      stops and continues, the corrected backend meets the contract the
      dispatcher relies on, from any instant of the chunk on. */
  lemma {:induction false} ExitOnlyRefines(pid: int, exitAt: Option<nat>, notes: seq<nat>, at: nat, deadline: nat)
    requires at <= deadline && deadline - at <= U32_MAX
    ensures Advances(pid, DocumentedWithStops(pid, exitAt, notes))
    ensures ExitOnlyOutcome(pid, at, deadline, DocumentedWithStops(pid, exitAt, notes))
            == (if Platform.ExitedBy(exitAt, deadline) then Ok(()) else GenerateTimeoutError())
    decreases deadline - at
  {
    var d := DocumentedWithStops(pid, exitAt, notes);
    DocumentedWithStopsAdvances(pid, exitAt, notes);
    assert TimespecToMs(MsToTimespec(deadline - at)) == deadline - at;
    var w := d(at, {SIGCHLD}, MsToTimespec(deadline - at));
    if StopOrContinue(w.0, pid) {
      ExitOnlyRefines(pid, exitAt, notes, w.1, deadline);
    }
  }

  /** Hence a chunk of the corrected backend is the ideal backend call. */
  lemma ExitOnlyRefinesIdealBackend(pid: int, exitAt: Option<nat>, notes: seq<nat>, now: nat, chunk: u32)
    ensures Advances(pid, DocumentedWithStops(pid, exitAt, notes))
    ensures ExitOnlyOutcome(pid, now, now + chunk, DocumentedWithStops(pid, exitAt, notes))
            == Platform.IdealReply(exitAt, now, chunk)
  {
    ExitOnlyRefines(pid, exitAt, notes, now, now + chunk);
  }
}
