/** The public operation `ChildWT::wait_timeout` (src/platform/mod.rs:166-189)
    and the contract it expects of the selected backend.

    The OS is abstract: a child exits at a fixed instant `exitAt` of an abstract
    millisecond clock `now` (or never), and the OS primitives may be told to
    fail. An ideal backend call with chunk `c` made at `now` reports success
    iff the child has exited by `now + c`, and otherwise lets `c` ms pass and
    reports a timeout. */
module Platform {
  import opened Primitives
  import opened Errors

  /** The platform's exit status, passed through uninterpreted. */
  type ExitStatus = int

  /** A child that exits at `exitAt` (or never) has exited by instant `t`. */
  predicate ExitedBy(exitAt: Option<nat>, t: nat) {
    exitAt.Some? && exitAt.value <= t
  }

  /** The contract of one backend call `_wait_timeout_untraced_ms(child, chunk)`
      made at instant `now`: success iff the child exits within the chunk,
      otherwise the timeout error. */
  function IdealReply(exitAt: Option<nat>, now: nat, chunk: u32): (r: Result<()>)
    ensures r.Ok? <==> ExitedBy(exitAt, now + chunk)
    ensures r.Err? ==> r == GenerateTimeoutError()
  {
    if ExitedBy(exitAt, now + chunk) then Ok(()) else GenerateTimeoutError()
  }

  // ----- decomposition of a wide timeout into backend chunks -----

  /** The chunks a loop like the one at mod.rs:175-186 hands to the backend
      when every call times out: `full` while more than `full` ms remain, then
      the rest. */
  function ChunksOf(t: nat, full: u32): (cs: seq<u32>)
    requires full > 0
    ensures |cs| >= 1
    decreases t
  {
    if t > full then [full] + ChunksOf(t - full, full) else [t]
  }

  /** The chunks of the source's loop, whose full chunk is `u32::MAX`. */
  function Chunks(t: nat): (cs: seq<u32>)
    ensures |cs| >= 1
  {
    ChunksOf(t, U32_MAX)
  }

  function Sum(cs: seq<u32>): nat {
    if cs == [] then 0 else cs[0] + Sum(cs[1..])
  }

  /** The chunks add up to the whole timeout. */
  lemma {:induction false} ChunksSum(t: nat, full: u32)
    requires full > 0
    ensures Sum(ChunksOf(t, full)) == t
    decreases t
  {
    if t > full {
      var rest := ChunksOf(t - full, full);
      assert ChunksOf(t, full)[1..] == rest;
      ChunksSum(t - full, full);
    }
  }

  /** Every chunk but the last is `full`; for a positive timeout the last lies
      in `(0, full]` (no trailing empty chunk), and a zero timeout is one call
      with 0. */
  lemma {:induction false} ChunksShape(t: nat, full: u32)
    requires full > 0
    ensures forall i :: 0 <= i < |ChunksOf(t, full)| - 1 ==> ChunksOf(t, full)[i] == full
    ensures 0 <= ChunksOf(t, full)[|ChunksOf(t, full)| - 1] <= full
    ensures t > 0 ==> 0 < ChunksOf(t, full)[|ChunksOf(t, full)| - 1]
    ensures t == 0 ==> ChunksOf(t, full) == [0]
    decreases t
  {
    if t > full {
      var rest := ChunksOf(t - full, full);
      ChunksShape(t - full, full);
      assert ChunksOf(t, full) == [full] + rest;
      forall i | 0 <= i < |ChunksOf(t, full)| - 1
        ensures ChunksOf(t, full)[i] == full
      {
        if i > 0 {
          assert ChunksOf(t, full)[i] == rest[i - 1];
        }
      }
    }
  }

  /** A positive timeout takes `ceil(t / full)` backend calls: `n` calls
      with `(n - 1) * full < t <= n * full`. */
  lemma {:induction false} ChunksCount(t: nat, full: u32)
    requires t > 0 && full > 0
    ensures (|ChunksOf(t, full)| - 1) * full < t <= |ChunksOf(t, full)| * full
    decreases t
  {
    if t > full {
      var n := |ChunksOf(t - full, full)|;
      ChunksCount(t - full, full);
      assert |ChunksOf(t, full)| == n + 1;
      assert (n + 1) * full == n * full + full;
    }
  }

  /** Once more than `u32::MAX` ms remain, the next chunk is `u32::MAX`. */
  lemma ChunksUnfold(t: nat)
    requires t > U32_MAX
    ensures Chunks(t) == [U32_MAX as u32] + Chunks(t - U32_MAX)
  {
  }

  // ----- the child and the environment the dispatcher runs against -----

  /** A `std::process::Child` together with the abstract OS around it.
      `collected` is the exit status the handle has cached once `try_wait` or
      `wait` observed it; `starts`, `chunks` and `replies` record every backend
      call: the instant it was made, the chunk passed and the reply. */
  class Child {
    const exitAt: Option<nat>
    const status: ExitStatus
    /** Backend calls (numbered from 0) on which the OS primitive fails with the given error. */
    const faults: map<nat, IoError>
    /** An error the OS reports to `try_wait` and `wait` while no status is cached. */
    const waitFault: Option<IoError>
    var now: nat
    var collected: Option<ExitStatus>
    var starts: seq<nat>
    var chunks: seq<u32>
    var replies: seq<Result<()>>

    ghost predicate Valid()
      reads this
    {
      && |starts| == |chunks| == |replies|
      && (forall i :: 0 <= i < |replies| ==> replies[i] == Reply(i, starts[i], chunks[i]))
      && (collected.Some? ==> ExitedBy(exitAt, now) && collected.value == status)
    }

    /** Every backend call behaves ideally and `try_wait`/`wait` never fail. */
    ghost predicate NoFaults()
      reads this
    {
      faults == map[] && waitFault.None?
    }

    /** What a backend call numbered `k`, made at `at` with `chunk`, reports. */
    ghost function Reply(k: nat, at: nat, chunk: u32): Result<()>
      reads this
    {
      if k in faults then Err(faults[k]) else IdealReply(exitAt, at, chunk)
    }

    /** What `wait` and `try_wait` give on an exited child whose status is not
        cached yet: the OS's error, else the status. */
    ghost function Collection(): Result<ExitStatus>
      reads this
    {
      if waitFault.Some? then Err(waitFault.value) else Ok(status)
    }

    constructor (exitAt: Option<nat>, status: ExitStatus, faults: map<nat, IoError>,
                 waitFault: Option<IoError>, now: nat)
      ensures Valid()
      ensures this.exitAt == exitAt && this.status == status && this.faults == faults
      ensures this.waitFault == waitFault && this.now == now
      ensures collected == None && starts == [] && chunks == [] && replies == []
    {
      this.exitAt := exitAt;
      this.status := status;
      this.faults := faults;
      this.waitFault := waitFault;
      this.now := now;
      collected := None;
      starts := [];
      chunks := [];
      replies := [];
    }

    /** `Child::try_wait`: the cached status, else the OS's error, else the
        status if the child has exited (caching it), else `None`. */
    method TryWait() returns (r: Result<Option<ExitStatus>>)
      requires Valid()
      modifies this`collected
      ensures Valid()
      ensures old(collected).Some? ==> r == Ok(old(collected)) && collected == old(collected)
      ensures old(collected).None? && waitFault.Some? ==> r == Err(waitFault.value) && collected == None
      ensures old(collected).None? && waitFault.None? ==>
                if ExitedBy(exitAt, now) then r == Ok(Some(status)) && collected == Some(status)
                else r == Ok(None) && collected == None
    {
      if collected.Some? {
        r := Ok(collected);
      } else if waitFault.Some? {
        r := Err(waitFault.value);
      } else if ExitedBy(exitAt, now) {
        collected := Some(status);
        r := Ok(Some(status));
      } else {
        r := Ok(None);
      }
    }

    /** `Child::wait` on a child known to have exited: it returns at once. */
    method Wait() returns (r: Result<ExitStatus>)
      requires Valid() && ExitedBy(exitAt, now)
      modifies this`collected
      ensures Valid()
      ensures old(collected).Some? ==> r == Ok(old(collected).value) && collected == old(collected)
      ensures old(collected).None? && waitFault.Some? ==> r == Err(waitFault.value) && collected == None
      ensures old(collected).None? && waitFault.None? ==> r == Ok(status) && collected == Some(status)
    {
      if collected.Some? {
        r := Ok(collected.value);
      } else if waitFault.Some? {
        r := Err(waitFault.value);
      } else {
        collected := Some(status);
        r := Ok(status);
      }
    }

    /** One call of the selected backend `imp::_wait_timeout_untraced_ms(self, chunk)`. */
    method WaitUntracedMs(chunk: u32) returns (r: Result<()>)
      requires Valid()
      modifies this`now, this`starts, this`chunks, this`replies
      ensures Valid()
      ensures r == Reply(|old(chunks)|, old(now), chunk)
      ensures starts == old(starts) + [old(now)] && chunks == old(chunks) + [chunk] && replies == old(replies) + [r]
      ensures old(now) <= now <= old(now) + chunk
      ensures r.Ok? ==> ExitedBy(exitAt, now)
      ensures |old(chunks)| !in faults && r.Err? ==> now == old(now) + chunk
      ensures |old(chunks)| in faults ==> now == old(now)
    {
      var k := |chunks|;
      starts := starts + [now];
      if k in faults {
        r := Err(faults[k]);
      } else if ExitedBy(exitAt, now + chunk) {
        now := Max(now, exitAt.value);
        r := Ok(());
      } else {
        now := now + chunk;
        r := GenerateTimeoutError();
      }
      chunks := chunks + [chunk];
      replies := replies + [r];
    }

    /** `ChildWT::wait_timeout` (mod.rs:166-189). */
    method WaitTimeout(timeoutMs: nat) returns (r: Result<ExitStatus>)
      requires Valid()
      modifies this
      ensures Valid()
      // the record of backend calls only grows, by a prefix of the decomposition
      ensures old(chunks) <= chunks && |old(replies)| <= |replies|
      ensures replies[..|old(replies)|] == old(replies)
      ensures chunks[|old(chunks)|..] <= Chunks(timeoutMs)
      // it never waits longer than the timeout
      ensures old(now) <= now <= old(now) + timeoutMs
      // pre-check (mod.rs:168-170): an exited child is answered without any backend call
      ensures old(collected).Some? ==> r == Ok(old(collected).value) && chunks == old(chunks) && now == old(now)
      ensures waitFault.None? && ExitedBy(exitAt, old(now)) ==>
                r == Ok(status) && chunks == old(chunks) && now == old(now)
      // otherwise, a pre-check that fails or finds no status leads to the backend
      ensures old(collected).None? && !(waitFault.None? && ExitedBy(exitAt, old(now))) ==>
                |chunks| > |old(chunks)|
      // once the backend was called, its last reply decides: an error is returned
      // as it is, a success is collected by `wait` or `try_wait`
      ensures |replies| > |old(replies)| && replies[|replies| - 1].Err? ==>
                r == Err(replies[|replies| - 1].error)
      ensures |replies| > |old(replies)| && replies[|replies| - 1].Ok? ==> r == Collection()
      // only a timeout lets the loop go on (mod.rs:179-182)
      ensures forall i :: |old(replies)| <= i < |replies| - 1 ==> replies[i].Err? && IsTimedOut(replies[i].error)
      // a success is the child's status, and is cached for the next call
      ensures r.Ok? ==> r.value == status && collected == Some(status)
      // an error is the last backend reply or the OS's error to try_wait/wait
      ensures r.Err? ==> Some(r.error) == waitFault
                         || (|replies| > |old(replies)| && replies[|replies| - 1] == Err(r.error))
      // a timeout comes only after every chunk of the decomposition was tried
      ensures r.Err? && IsTimedOut(r.error) && Some(r.error) != waitFault ==>
                chunks[|old(chunks)|..] == Chunks(timeoutMs)
      // with an ideal OS: success iff the child exits within the timeout, else TimedOut after the full timeout
      ensures NoFaults() ==> (r.Ok? <==> old(collected).Some? || ExitedBy(exitAt, old(now) + timeoutMs))
      ensures NoFaults() && r.Err? ==>
                r == Err(IoError(TimedOut, OperationTimedOut)) && now == old(now) + timeoutMs
    {
      var pre := TryWait();
      if pre.Ok? && pre.value.Some? {
        return Ok(pre.value.value);
      }
      r := WaitInChunks(timeoutMs);
    }

    /** The part of `wait_timeout` after a pre-check that found no status
        (mod.rs:172-188): the chunk loop, then the last call and the collection. */
    method WaitInChunks(timeoutMs: nat) returns (r: Result<ExitStatus>)
      requires Valid() && collected == None
      requires NoFaults() ==> !ExitedBy(exitAt, now)
      modifies this
      ensures Valid()
      ensures |old(chunks)| < |chunks| && chunks[..|old(chunks)|] == old(chunks)
      ensures replies[..|old(replies)|] == old(replies)
      ensures chunks[|old(chunks)|..] <= Chunks(timeoutMs)
      ensures old(now) <= now <= old(now) + timeoutMs
      ensures forall i :: |old(replies)| <= i < |replies| - 1 ==> replies[i].Err? && IsTimedOut(replies[i].error)
      ensures r.Ok? ==> r.value == status && collected == Some(status)
      ensures r.Err? ==> Some(r.error) == waitFault || replies[|replies| - 1] == Err(r.error)
      ensures replies[|replies| - 1].Err? ==> r == Err(replies[|replies| - 1].error)
      ensures replies[|replies| - 1].Ok? ==> r == Collection()
      ensures r.Err? && IsTimedOut(r.error) && Some(r.error) != waitFault ==>
                chunks[|old(chunks)|..] == Chunks(timeoutMs)
      ensures NoFaults() ==> (r.Ok? <==> ExitedBy(exitAt, old(now) + timeoutMs))
      ensures NoFaults() && r.Err? ==>
                r == Err(IoError(TimedOut, OperationTimedOut)) && now == old(now) + timeoutMs
    {
      ghost var start := |chunks|;
      var early, remaining := WaitFullChunks(timeoutMs);
      if early.Some? {
        return early.value;
      }
      ghost var issued := chunks[start..];
      ghost var mid := chunks;
      ghost var midReplies := replies;
      r := WaitLastChunk(remaining);
      assert chunks[start..] == issued + [remaining];
      assert chunks[..start] == mid[..start];
      assert replies[..start] == midReplies[..start];
    }

    /** The loop of mod.rs:175-185: full `u32::MAX` chunks while more than
        `u32::MAX` ms remain. `early` is the result when the loop returns
        from inside; otherwise `remaining` is what is left for the last call. */
    method WaitFullChunks(timeoutMs: nat) returns (early: Option<Result<ExitStatus>>, remaining: u32)
      requires Valid() && collected == None
      requires NoFaults() ==> !ExitedBy(exitAt, now)
      modifies this
      ensures Valid()
      ensures |old(chunks)| <= |chunks| && chunks[..|old(chunks)|] == old(chunks)
      ensures replies[..|old(replies)|] == old(replies)
      ensures old(now) <= now <= old(now) + timeoutMs
      ensures early.None? ==>
                && collected == None
                && chunks[|old(chunks)|..] + Chunks(remaining) == Chunks(timeoutMs)
                && now <= old(now) + (timeoutMs - remaining)
                && (forall i :: |old(replies)| <= i < |replies| ==> replies[i].Err? && IsTimedOut(replies[i].error))
                && (NoFaults() ==> now == old(now) + (timeoutMs - remaining) && !ExitedBy(exitAt, now))
      ensures early.Some? ==>
                && |old(chunks)| < |chunks|
                && chunks[|old(chunks)|..] <= Chunks(timeoutMs)
                && (forall i :: |old(replies)| <= i < |replies| - 1 ==> replies[i].Err? && IsTimedOut(replies[i].error))
                && (early.value.Ok? ==> early.value.value == status && collected == Some(status))
                && (early.value.Err? ==> Some(early.value.error) == waitFault
                                         || (replies[|replies| - 1] == Err(early.value.error) && !IsTimedOut(early.value.error)))
                && (replies[|replies| - 1].Ok? ==> early.value == Collection())
                && (replies[|replies| - 1].Err? ==>
                      early.value == Err(replies[|replies| - 1].error) && !IsTimedOut(replies[|replies| - 1].error))
                && (NoFaults() ==> early.value.Ok?)
    {
      early := None;
      ghost var start := |chunks|;
      var left: nat := timeoutMs;
      while left > U32_MAX
        invariant Valid() && collected == None
        invariant start <= |chunks| && chunks[..start] == old(chunks) && replies[..start] == old(replies)
        invariant chunks[start..] + Chunks(left) == Chunks(timeoutMs)
        invariant left <= timeoutMs
        invariant old(now) <= now <= old(now) + (timeoutMs - left)
        invariant forall i :: start <= i < |replies| ==> replies[i].Err? && IsTimedOut(replies[i].error)
        invariant NoFaults() ==> now == old(now) + (timeoutMs - left) && !ExitedBy(exitAt, now)
      {
        ChunksUnfold(left);
        ghost var issued := chunks[start..];
        ghost var before := chunks;
        ghost var beforeReplies := replies;
        var step := WaitFullChunk();
        assert chunks[start..] == issued + [U32_MAX];
        assert chunks[..start] == before[..start];
        assert replies[..start] == beforeReplies[..start];
        if step.Some? {
          assert chunks[start..] <= Chunks(timeoutMs);
          return step, 0;
        }
        assert (issued + [U32_MAX]) + Chunks(left - U32_MAX) == issued + Chunks(left);
        left := left - U32_MAX;
      }
      remaining := left;
    }

    /** One pass of the loop body of mod.rs:176-183: a full `u32::MAX` chunk,
        then `wait` on success, the error on a failure other than a timeout,
        and `None` (go on looping) on a timeout. */
    method WaitFullChunk() returns (early: Option<Result<ExitStatus>>)
      requires Valid() && collected == None
      requires NoFaults() ==> !ExitedBy(exitAt, now)
      modifies this
      ensures Valid()
      ensures chunks == old(chunks) + [U32_MAX] && replies == old(replies) + [replies[|replies| - 1]]
      ensures old(now) <= now <= old(now) + U32_MAX
      ensures early.None? ==>
                && collected == None
                && replies[|replies| - 1].Err? && IsTimedOut(replies[|replies| - 1].error)
                && (NoFaults() ==> now == old(now) + U32_MAX && !ExitedBy(exitAt, now))
      ensures early.Some? && early.value.Ok? ==> early.value.value == status && collected == Some(status)
      ensures early.Some? && early.value.Err? ==>
                Some(early.value.error) == waitFault
                || (replies[|replies| - 1] == Err(early.value.error) && !IsTimedOut(early.value.error))
      ensures early.Some? && NoFaults() ==> early.value.Ok?
      // the reply decides: a success is collected, another error returned, a timeout loops
      ensures replies[|replies| - 1].Ok? ==> early == Some(Collection())
      ensures replies[|replies| - 1].Err? && !IsTimedOut(replies[|replies| - 1].error) ==>
                early == Some(Err(replies[|replies| - 1].error))
      ensures replies[|replies| - 1].Err? && IsTimedOut(replies[|replies| - 1].error) ==> early.None?
    {
      var b := WaitUntracedMs(U32_MAX);
      match b
      case Ok(_) =>
        // the backend saw the exit, so `wait` returns at once
        var w := Wait();
        return Some(w);
      case Err(e) =>
        if !IsTimedOut(e) {
          return Some(Err(e));
        }
        return None;
    }

    /** The last backend call with the remainder and the collection of the
        status (mod.rs:186-188). */
    method WaitLastChunk(chunk: u32) returns (r: Result<ExitStatus>)
      requires Valid() && collected == None
      modifies this
      ensures Valid()
      ensures chunks == old(chunks) + [chunk] && |replies| == |old(replies)| + 1
      ensures replies[..|old(replies)|] == old(replies)
      ensures replies[|old(replies)|] == Reply(|old(replies)|, old(now), chunk)
      ensures old(now) <= now <= old(now) + chunk
      ensures r.Ok? ==> r.value == status && collected == Some(status)
      ensures r.Err? ==> Some(r.error) == waitFault || replies[|replies| - 1] == Err(r.error)
      ensures replies[|replies| - 1].Err? ==> r == Err(replies[|replies| - 1].error)
      ensures replies[|replies| - 1].Ok? ==> r == Collection()
      ensures NoFaults() ==> (r.Ok? <==> ExitedBy(exitAt, old(now) + chunk))
      ensures NoFaults() && r.Err? ==> r == Err(IoError(TimedOut, OperationTimedOut)) && now == old(now) + chunk
    {
      var b := WaitUntracedMs(chunk);
      if b.Err? {
        return Err(b.error);
      }
      var st := TryWait();
      if st.Err? {
        return Err(st.error);
      }
      // `expect`: a backend success means the status is there to collect
      assert st.value.Some?;
      r := Ok(st.value.value);
    }
  }

  // ----- the scenarios of tests/test.rs, on an ideal OS (times in ms) -----

  /** A child that exits after 1 s, waited on for 5 s, is collected. */
  method ShortLivedChildIsCollected() returns (r: Result<ExitStatus>)
    ensures r == Ok(0)
  {
    var child := new Child(Some(1000), 0, map[], None, 0);
    r := child.WaitTimeout(5000);
  }

  /** The same with a timeout of `4_294_967_295` s, which spans about 1000 chunks. */
  method HugeTimeoutIsCollected() returns (r: Result<ExitStatus>)
    ensures r == Ok(0)
  {
    var child := new Child(Some(1000), 0, map[], None, 0);
    r := child.WaitTimeout(4_294_967_295 * 1000);
  }

  /** A child that runs for 3 s, waited on for 1 s, times out after exactly 1 s. */
  method LongLivedChildTimesOut() returns (r: Result<ExitStatus>, elapsed: nat)
    ensures r.Err? && r.error.kind == TimedOut && elapsed == 1000
  {
    var child := new Child(Some(3000), 0, map[], None, 0);
    r := child.WaitTimeout(1000);
    elapsed := child.now;
  }

  /** Waiting twice on the same child yields the same status twice. */
  method SecondWaitSameStatus(status: ExitStatus) returns (r1: Result<ExitStatus>, r2: Result<ExitStatus>)
    ensures r1.Ok? && r2.Ok? && r1.value == r2.value == status
  {
    var child := new Child(Some(1000), status, map[], None, 0);
    r1 := child.WaitTimeout(5000);
    r2 := child.WaitTimeout(5000);
  }

  /** A zero timeout on a running child makes one backend call, with 0, and times out at once. */
  method ZeroTimeoutTimesOutAtOnce() returns (r: Result<ExitStatus>, calls: seq<u32>, elapsed: nat)
    ensures r.Err? && r.error.kind == TimedOut && calls == [0] && elapsed == 0
  {
    var child := new Child(Some(1), 0, map[], None, 0);
    r := child.WaitTimeout(0);
    calls, elapsed := child.chunks, child.now;
  }

  /** A timeout of `2 * u32::MAX + 1` ms is cut into two full chunks and a last
      one of 1 ms; a child that exits 5 ms into the second full chunk is
      collected. */
  method ExitInSecondChunkIsCollected() returns (r: Result<ExitStatus>)
    ensures r == Ok(7)
  {
    var child := new Child(Some(U32_MAX + 5), 7, map[], None, 0);
    r := child.WaitTimeout(2 * U32_MAX + 1);
  }

  /** A generic OS failure on the first of three chunks is returned at once:
      no further backend call is made. */
  method FailureAbortsLoop() returns (r: Result<ExitStatus>, calls: seq<u32>)
    ensures r == Err(IoError(Other, Unspecified)) && calls == [U32_MAX]
  {
    var child := new Child(None, 0, map[0 := IoError(Other, Unspecified)], None, 0);
    r := child.WaitTimeout(3 * U32_MAX);
    calls := child.chunks;
    assert |child.replies| > 0 && child.replies[0] == Err(IoError(Other, Unspecified));
    assert |child.replies| == 1;
  }

  /** A generic failure on the only call is returned even though the child
      exits within the timeout. */
  method FailureBeatsExit() returns (r: Result<ExitStatus>)
    ensures r == Err(IoError(Other, Unspecified))
  {
    var child := new Child(Some(5), 0, map[0 := IoError(Other, Unspecified)], None, 0);
    r := child.WaitTimeout(10);
    assert child.replies[0] == Err(IoError(Other, Unspecified));
  }

  /** An error of the pre-check `try_wait` is not returned: the backend is
      called anyway, and a child that never exits times out. */
  method PreCheckErrorIgnored() returns (r: Result<ExitStatus>, calls: seq<u32>)
    ensures r == Err(IoError(TimedOut, OperationTimedOut)) && calls == [10]
  {
    var child := new Child(None, 0, map[], Some(IoError(Other, Unspecified)), 0);
    r := child.WaitTimeout(10);
    calls := child.chunks;
  }
}
