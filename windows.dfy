/** The Windows backend (src/platform/windows.rs): one `WaitForSingleObject`
    on the child's process handle, then a three-way classification of the code
    it returns. `WaitForSingleObject` itself is a parameter. */
module Windows {
  import opened Primitives
  import opened Errors
  import Platform

  /** Return codes of `WaitForSingleObject` (winbase.h, winerror.h). */
  const WAIT_OBJECT_0: u32 := 0
  const WAIT_TIMEOUT: u32 := 0x102

  /** The `dwMilliseconds` value that means "no time-out" (winbase.h). */
  const INFINITE: u32 := 0xFFFF_FFFF

  /** A process `HANDLE`, opaque to the model. */
  type Handle = int

  /** `_wait_timeout_untraced_ms`: the timeout reaches the wait unchanged; a
      signalled handle is success, `WAIT_TIMEOUT` the timeout error, and every
      other code (abandoned, failed, anything else) the generic error. */
  function WaitUntracedMs(handle: Handle, timeoutMs: u32, waitForSingleObject: (Handle, u32) -> u32): (r: Result<()>)
    ensures r.Ok? <==> waitForSingleObject(handle, timeoutMs) == WAIT_OBJECT_0
    ensures r.Err? && r.error.kind == TimedOut <==> waitForSingleObject(handle, timeoutMs) == WAIT_TIMEOUT
    ensures r.Err? && r.error.kind == Other <==>
              waitForSingleObject(handle, timeoutMs) !in {WAIT_OBJECT_0, WAIT_TIMEOUT}
    ensures r.Err? ==> r.error.message != AnotherChildDied
  {
    var result := waitForSingleObject(handle, timeoutMs);
    if result == WAIT_TIMEOUT then
      GenerateTimeoutError()
    else if result == WAIT_OBJECT_0 then
      Ok(())
    else
      GenerateDefaultError()
  }

  /** `WaitForSingleObject` as its documentation describes it for a process whose
      handle becomes signalled at instant `exitAt`, called at instant `now`.
      With `INFINITE` the call returns only once the handle is signalled, so
      the one code it can return is `WAIT_OBJECT_0`; whether it returns at
      all is `DocumentedReturns`. */
  function DocumentedWait(exitAt: Option<nat>, now: nat): (Handle, u32) -> u32 {
    (h: Handle, ms: u32) =>
      if ms == INFINITE then WAIT_OBJECT_0
      else if Platform.ExitedBy(exitAt, now + ms) then WAIT_OBJECT_0
      else WAIT_TIMEOUT
  }

  /** A documented wait returns, unless it is `INFINITE` on a process that never exits. */
  predicate DocumentedReturns(exitAt: Option<nat>, ms: u32) {
    ms != INFINITE || exitAt.Some?
  }

  /** For every chunk below `INFINITE`, a `WaitForSingleObject` that behaves as
      documented returns, and the backend meets the contract the dispatcher
      relies on. */
  lemma RefinesIdealBackend(handle: Handle, exitAt: Option<nat>, now: nat, chunk: u32)
    requires chunk < INFINITE
    ensures DocumentedReturns(exitAt, chunk)
    ensures WaitUntracedMs(handle, chunk, DocumentedWait(exitAt, now)) == Platform.IdealReply(exitAt, now, chunk)
  {
  }

  /** The dispatcher's full chunk `u32::MAX` is `INFINITE`, and a timeout of
      exactly `u32::MAX` ms is a single such call. With it a documented wait on
      a child that has not exited by the end of the chunk never gives the
      reply the dispatcher relies on: for a child that never exits it does not
      return, and for one that exits later it reports success. */
  lemma FullChunkIsInfinite(handle: Handle, exitAt: Option<nat>, now: nat)
    ensures Platform.Chunks(U32_MAX) == [INFINITE]
    ensures exitAt.None? ==> !DocumentedReturns(exitAt, U32_MAX)
    ensures !Platform.ExitedBy(exitAt, now + U32_MAX) ==>
              Platform.IdealReply(exitAt, now, U32_MAX) == GenerateTimeoutError()
              && (DocumentedReturns(exitAt, U32_MAX) ==>
                    WaitUntracedMs(handle, U32_MAX, DocumentedWait(exitAt, now)) == Ok(()))
  {
  }

  /** The decomposition with full chunks capped one below `INFINITE`. */
  function CappedChunks(t: nat): seq<u32> {
    Platform.ChunksOf(t, INFINITE - 1)
  }

  /** The capped chunks still add up to the timeout, none of them is
      `INFINITE`, and for each of them, made at any instant, the documented
      wait returns and the backend meets the dispatcher's contract. */
  lemma CappedChunksRefine(t: nat, handle: Handle, exitAt: Option<nat>)
    ensures Platform.Sum(CappedChunks(t)) == t
    ensures forall c :: c in CappedChunks(t) ==> c < INFINITE && DocumentedReturns(exitAt, c)
    ensures forall c, at: nat :: c in CappedChunks(t) ==>
              WaitUntracedMs(handle, c, DocumentedWait(exitAt, at)) == Platform.IdealReply(exitAt, at, c)
  {
    var cs := CappedChunks(t);
    Platform.ChunksSum(t, INFINITE - 1);
    Platform.ChunksShape(t, INFINITE - 1);
    assert forall c :: c in cs ==> c < INFINITE;
    forall c, at: nat | c in cs
      ensures WaitUntracedMs(handle, c, DocumentedWait(exitAt, at)) == Platform.IdealReply(exitAt, at, c)
    {
      RefinesIdealBackend(handle, exitAt, at, c);
    }
  }
}
