/** The pidfd backend (src/platform/unix_pidfd.rs): open a pidfd for the child,
    `select` on it for readability with the timeout, close it, and classify
    `select`'s result. The `pidfd_open` system call and `select` are
    parameters; the process's open descriptors and the log of the calls the
    backend makes on them are the state it changes. */
module UnixPidfd {
  import opened Primitives
  import opened Errors
  import Platform

  type RawFd = int

  /** `pidfd_open` (lines 11-17): a negative descriptor from the system call is
      the generic error, any other is the result. */
  function PidfdOpen(raw: int): (r: Result<RawFd>)
    ensures r.Err? <==> raw < 0
    ensures r.Err? ==> r.error == GenerateDefaultError().error
    ensures r.Ok? ==> r.value == raw
  {
    if raw < 0 then Err(GenerateDefaultError().error) else Ok(raw)
  }

  /** Lines 25-28: the timeout as a `timeval`, denoting exactly `timeoutMs`. */
  function MsToTimeval(timeoutMs: u32): (tv: Timeval)
    ensures 0 <= tv.tvSec <= 4_294_967 && 0 <= tv.tvUsec <= 999_000
    ensures tv.tvUsec % 1000 == 0
    ensures TimevalToMs(tv) == timeoutMs
  {
    Timeval(timeoutMs / 1000, (timeoutMs % 1000) * 1000)
  }

  /** The length of a `timeval`, in whole milliseconds. */
  function TimevalToMs(tv: Timeval): int {
    tv.tvSec * 1000 + tv.tvUsec / 1000
  }

  /** Distinct timeouts give distinct `timeval`s. */
  lemma MsToTimevalInjective(a: u32, b: u32)
    requires MsToTimeval(a) == MsToTimeval(b)
    ensures a == b
  {
    assert TimevalToMs(MsToTimeval(a)) == a;
  }

  /** Lines 45-51: -1 is the generic failure, 0 (no descriptor ready) the
      timeout, any other count success. */
  function ClassifySelect(result: int): (r: Result<()>)
    ensures r.Ok? <==> result != -1 && result != 0
    ensures r == GenerateTimeoutError() <==> result == 0
    ensures r == GenerateDefaultError() <==> result == -1
  {
    if result == -1 then GenerateDefaultError()
    else if result == 0 then GenerateTimeoutError()
    else Ok(())
  }

  /** A call the backend makes on a descriptor. */
  datatype FdCall =
    | Opened(fd: RawFd)
    | Selected(nfds: int, readSet: set<RawFd>, timeout: Timeval)
    | Closed(fd: RawFd)

  /** The process's open descriptors and the calls made on them. */
  class Descriptors {
    var open: set<RawFd>
    var calls: seq<FdCall>

    constructor (open: set<RawFd>)
      ensures this.open == open && calls == []
    {
      this.open := open;
      calls := [];
    }
  }

  /** `_wait_timeout_untraced_ms` (lines 19-52). When `pidfd_open` fails the
      error goes back at once and nothing else is called. Otherwise the
      descriptor is watched alone for readability for exactly the timeout and
      then closed, so the set of open descriptors is what it was. */
  method WaitUntracedMs(pid: int, timeoutMs: u32, fds: Descriptors,
                        pidfdOpen: (int, int) -> int,
                        select: (int, set<RawFd>, Timeval) -> int) returns (r: Result<()>)
    requires pidfdOpen(pid, 0) < 0 || pidfdOpen(pid, 0) !in fds.open
    modifies fds
    ensures fds.open == old(fds.open)
    ensures var raw := pidfdOpen(pid, 0);
            && (raw < 0 ==> r == GenerateDefaultError() && fds.calls == old(fds.calls))
            && (raw >= 0 ==>
                  && fds.calls == old(fds.calls) + [Opened(raw), Selected(raw + 1, {raw}, MsToTimeval(timeoutMs)), Closed(raw)]
                  && r == ClassifySelect(select(raw + 1, {raw}, MsToTimeval(timeoutMs))))
  {
    var opening := PidfdOpen(pidfdOpen(pid, 0));
    if opening.Err? {
      return Err(opening.error);
    }
    var pidfd := opening.value;
    fds.open := fds.open + {pidfd};
    fds.calls := fds.calls + [Opened(pidfd)];
    var tv := MsToTimeval(timeoutMs);
    var fdSet: set<RawFd> := {};         // zeroed
    fdSet := fdSet + {pidfd};            // FD_SET
    assert fdSet == {pidfd};
    var result := select(pidfd + 1, fdSet, tv);
    fds.calls := fds.calls + [Selected(pidfd + 1, fdSet, tv)];
    fds.open := fds.open - {pidfd};
    fds.calls := fds.calls + [Closed(pidfd)];
    r := ClassifySelect(result);
  }

  /** `select` as documented, on a pidfd of a child that exits at instant
      `exitAt`, called at instant `now` (milliseconds): the descriptor becomes
      readable once the child has exited, and `select` reports it if that
      happens by the end of the timeout and returns 0 otherwise. */
  function DocumentedSelect(exitAt: Option<nat>, now: nat): (int, set<RawFd>, Timeval) -> int {
    (nfds: int, readSet: set<RawFd>, tv: Timeval) =>
      if readSet != {} && TimevalToMs(tv) >= 0 && Platform.ExitedBy(exitAt, now + TimevalToMs(tv))
      then 1 else 0
  }

  /** Over a documented `select`, the classification meets the contract the
      dispatcher relies on. */
  lemma RefinesIdealBackend(fd: RawFd, exitAt: Option<nat>, now: nat, chunk: u32)
    ensures ClassifySelect(DocumentedSelect(exitAt, now)(fd + 1, {fd}, MsToTimeval(chunk)))
            == Platform.IdealReply(exitAt, now, chunk)
  {
    assert TimevalToMs(MsToTimeval(chunk)) == chunk;
  }
}
