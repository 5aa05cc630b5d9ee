/** The C helper of the thread backend (src/platform/wait_timeout_thread_untraced.c).

    What is kept: the absolute-deadline arithmetic of
    `wait_timeout_untraced_internal_4` with `get_max_time_t`, the mapping of
    outcomes in `wait_timeout_untraced_internal_3` and `wait_for_process`, the
    caller's `errno`, and the pairing of every pthread object's init with its
    destroy in `_internal_2`, `_internal_1` and `wait_timeout_untraced`.

    What is an oracle: each pthread call's return code, `clock_gettime` (its
    reading, or the `errno` it sets when it fails),
    `pthread_cond_timedwait` (a function of the absolute deadline it is given)
    and `waitid`. The threads themselves are serialised: the waiter's write of
    `return_val` is taken to happen when `pthread_join` returns, and a cancelled
    waiter writes nothing. */
module ThreadHelper {
  import opened Primitives

  /** Linux's `ETIMEDOUT` and `EINVAL`. */
  const ETIMEDOUT: int := 110
  const EINVAL: int := 22

  /** `waitid` option bits (Linux): `WEXITED` and `WNOWAIT`. */
  const WEXITED: bv32 := 0x0000_0004
  const WNOWAIT: bv32 := 0x0100_0000

  /** The options `wait_for_process` passes to `waitid`. */
  const WAITID_OPTIONS: bv32 := WNOWAIT | WEXITED

  // ----- C integer types and get_max_time_t -----

  /** The integer types `time_t` may be, as `get_max_time_t` enumerates them. */
  datatype CIntType =
    | SignedChar | UnsignedChar | Short | UnsignedShort | Int | UnsignedInt
    | Long | UnsignedLong | LongLong | UnsignedLongLong

  /** The width of `long`: 32 bits (ILP32, LLP64) or 64 bits (LP64). */
  datatype LongWidth = Long32 | Long64

  /** What the C helper needs to know of the platform. */
  datatype CPlatform = CPlatform(timeT: CIntType, long: LongWidth)

  function Pow2(n: nat): (p: nat)
    ensures p >= 1
  {
    if n == 0 then 1 else 2 * Pow2(n - 1)
  }

  lemma {:induction false} Pow2Add(a: nat, b: nat)
    ensures Pow2(a + b) == Pow2(a) * Pow2(b)
    decreases a
  {
    if a > 0 {
      Pow2Add(a - 1, b);
    }
  }

  /** The powers of two that bound the C integer types, one width at a time. */
  lemma Pow2Width8()
    ensures Pow2(7) == 0x80 && Pow2(8) == 0x100
  {
  }

  lemma Pow2Width16()
    ensures Pow2(15) == 0x8000 && Pow2(16) == 0x1_0000
  {
    Pow2Width8();
    Pow2Add(8, 8);
    Pow2Add(8, 7);
  }

  lemma Pow2Width32()
    ensures Pow2(31) == 0x8000_0000 && Pow2(32) == 0x1_0000_0000
  {
    Pow2Width16();
    Pow2Add(16, 16);
    Pow2Add(16, 15);
  }

  lemma Pow2Width64()
    ensures Pow2(63) == 0x8000_0000_0000_0000 && Pow2(64) == 0x1_0000_0000_0000_0000
  {
    Pow2Width32();
    Pow2Add(32, 32);
    Pow2Add(32, 31);
  }

  function Bits(t: CIntType, w: LongWidth): nat {
    match t
    case SignedChar | UnsignedChar => 8
    case Short | UnsignedShort => 16
    case Int | UnsignedInt => 32
    case Long | UnsignedLong => if w == Long32 then 32 else 64
    case LongLong | UnsignedLongLong => 64
  }

  predicate Signed(t: CIntType) {
    t in {SignedChar, Short, Int, Long, LongLong}
  }

  /** The largest and the smallest value of a C integer type, from its width. */
  function MaxOf(t: CIntType, w: LongWidth): int {
    if Signed(t) then Pow2(Bits(t, w) - 1) - 1 else Pow2(Bits(t, w)) - 1
  }

  function MinOf(t: CIntType, w: LongWidth): int {
    if Signed(t) then -(Pow2(Bits(t, w) - 1) as int) else 0
  }

  /** `get_max_time_t`: the `limits.h` constant `_Generic` selects is the
      largest value of `time_t`. */
  function GetMaxTimeT(p: CPlatform): (m: int)
    ensures m == MaxOf(p.timeT, p.long)
  {
    match p.timeT
    case SignedChar => Pow2Width8(); 0x7F                                 // SCHAR_MAX
    case UnsignedChar => Pow2Width8(); 0xFF                               // UCHAR_MAX
    case Short => Pow2Width16(); 0x7FFF                                   // SHRT_MAX
    case UnsignedShort => Pow2Width16(); 0xFFFF                           // USHRT_MAX
    case Int => Pow2Width32(); 0x7FFF_FFFF                                // INT_MAX
    case UnsignedInt => Pow2Width32(); 0xFFFF_FFFF                        // UINT_MAX
    case Long =>                                                          // LONG_MAX
      if p.long == Long32 then Pow2Width32(); 0x7FFF_FFFF else Pow2Width64(); 0x7FFF_FFFF_FFFF_FFFF
    case UnsignedLong =>                                                  // ULONG_MAX
      if p.long == Long32 then Pow2Width32(); 0xFFFF_FFFF else Pow2Width64(); 0xFFFF_FFFF_FFFF_FFFF
    case LongLong => Pow2Width64(); 0x7FFF_FFFF_FFFF_FFFF                 // LLONG_MAX
    case UnsignedLongLong => Pow2Width64(); 0xFFFF_FFFF_FFFF_FFFF         // ULLONG_MAX
  }

  /** The helper's comments say `seconds` cannot overflow: that takes a
      `time_t` of at least 32 bits (every `time_t` in use; with a narrower one
      the cast at line 75 would already truncate). */
  predicate TimeTHoldsSeconds(p: CPlatform) {
    Bits(p.timeT, p.long) >= 32
  }

  // ----- C arithmetic -----

  /** C's `/` and `%` on integers truncate toward zero. */
  function CDiv(a: int, b: int): int
    requires b > 0
  {
    if a >= 0 then a / b else -((-a) / b)
  }

  function CRem(a: int, b: int): int
    requires b > 0
  {
    a - b * CDiv(a, b)
  }

  // ----- the absolute deadline of wait_timeout_untraced_internal_4 -----

  /** A `timespec` as `clock_gettime` fills it in and `pthread_cond_timedwait` expects it. */
  predicate Normalised(ts: Timespec) {
    0 <= ts.tvNsec < 1_000_000_000
  }

  /** The instant a `timespec` denotes, in nanoseconds. */
  function Nanos(ts: Timespec): int {
    ts.tvSec * 1_000_000_000 + ts.tvNsec
  }

  /** The instant `timeoutMs` after `now`, as a normalised `timespec`. */
  function DeadlineAfter(now: Timespec, timeoutMs: u32): (d: Timespec)
    ensures Normalised(d)
    ensures Nanos(d) == Nanos(now) + timeoutMs * 1_000_000
  {
    var total := Nanos(now) + timeoutMs * 1_000_000;
    Timespec(total / 1_000_000_000, total % 1_000_000_000)
  }

  /** The shift that the carry of `_internal_4` relies on. */
  lemma DivModShift(k: int, x: int)
    requires 0 <= x
    ensures (k * 1_000_000_000 + x) / 1_000_000_000 == k + x / 1_000_000_000
    ensures (k * 1_000_000_000 + x) % 1_000_000_000 == x % 1_000_000_000
  {
  }

  /** What `wait_timeout_untraced_internal_4` returns: -1 when the clock fails or
      when the deadline's seconds exceed `time_t`, otherwise the timed wait's
      result for the deadline `timeoutMs` after now. */
  function TimedWaitResult(clock: Option<Timespec>, timeoutMs: u32, p: CPlatform,
                           condTimedwait: Timespec -> int): int
  {
    if clock.None? then -1
    else if DeadlineAfter(clock.value, timeoutMs).tvSec > GetMaxTimeT(p) then -1
    else condTimedwait(DeadlineAfter(clock.value, timeoutMs))
  }

  /** A `time_t` of at least 32 bits holds every `seconds` value `_internal_4` computes. */
  lemma MaxTimeTAtLeast(p: CPlatform)
    requires TimeTHoldsSeconds(p)
    ensures GetMaxTimeT(p) >= 0x7FFF_FFFF
  {
    Pow2Add(Bits(p.timeT, p.long) - 32, 31);
    Pow2Width32();
  }

  /** The steps of `_internal_4` (lines 75-81) on non-negative operands: the
      nanosecond sum fits a 32-bit `long`, and the carried seconds and the
      remaining nanoseconds make up the deadline. */
  lemma DeadlineSteps(now: Timespec, timeoutMs: u32)
    requires Normalised(now)
    ensures CDiv(timeoutMs, 1000) == timeoutMs / 1000 && CRem(timeoutMs, 1000) == timeoutMs % 1000
    ensures var n := now.tvNsec + (timeoutMs % 1000) * 1_000_000;
            && 0 <= n <= 0x7FFF_FFFF
            && CDiv(n, 1_000_000_000) == n / 1_000_000_000 && CRem(n, 1_000_000_000) == n % 1_000_000_000
            && timeoutMs / 1000 + n / 1_000_000_000 <= 4_294_968
            && DeadlineAfter(now, timeoutMs)
               == Timespec(now.tvSec + (timeoutMs / 1000 + n / 1_000_000_000), n % 1_000_000_000)
  {
    var n := now.tvNsec + (timeoutMs % 1000) * 1_000_000;
    DivModShift(now.tvSec + timeoutMs / 1000, n);
    assert Nanos(now) + timeoutMs * 1_000_000 == (now.tvSec + timeoutMs / 1000) * 1_000_000_000 + n;
  }

  /** `wait_timeout_untraced_internal_4` (lines 65-95), its arithmetic step
      by step. A failing `clock_gettime` sets the calling thread's `errno`. */
  method WaitUntracedInternal4(timeoutMs: u32, p: CPlatform, os: PthreadOs,
                               caller: CallerThread) returns (ret: int)
    requires Sane(p, os)
    modifies caller`errno
    ensures os.clock.None? ==> ret == -1 && caller.errno == os.clockErrno
    ensures os.clock.Some? ==> caller.errno == old(caller.errno)
    ensures os.clock.Some? && DeadlineAfter(os.clock.value, timeoutMs).tvSec <= GetMaxTimeT(p) ==>
              ret == os.condTimedwait(DeadlineAfter(os.clock.value, timeoutMs))
    ensures ret == -1 <==> os.clock.None? || DeadlineAfter(os.clock.value, timeoutMs).tvSec > GetMaxTimeT(p)
  {
    if os.clock.None? {
      caller.errno := os.clockErrno;
      return -1;
    }
    var ts := os.clock.value;
    var maxTimeT := GetMaxTimeT(p);
    MaxTimeTAtLeast(p);
    DeadlineSteps(ts, timeoutMs);
    var seconds: int := CDiv(timeoutMs, 1000);
    // a 32-bit long already holds the sum: it stays below 1e9 + 999e6
    var nanoSeconds: CLong32 := ts.tvNsec + CRem(timeoutMs, 1000) * 1_000_000;
    seconds := seconds + CDiv(nanoSeconds, 1_000_000_000);
    nanoSeconds := CRem(nanoSeconds, 1_000_000_000);
    // `get_max_time_t() - seconds` itself stays within time_t
    assert seconds <= 4_294_968 < maxTimeT;
    if maxTimeT - seconds < ts.tvSec {
      return -1;
    }
    ts := ts.(tvSec := ts.tvSec + seconds);
    ts := ts.(tvNsec := nanoSeconds);
    ret := os.condTimedwait(ts);
  }

  // ----- wait_for_process and the outcome of _internal_3 -----

  /** `proc_info_t` without its condition variable and mutex. */
  class ProcInfo {
    const pid: int
    var returnVal: int

    /** `_internal_2` fills in the pid and starts `return_val` at -1 (lines 142-143). */
    constructor (pid: int)
      ensures this.pid == pid && returnVal == -1
    {
      this.pid := pid;
      returnVal := -1;
    }
  }

  /** `waitid` is asked to report an exit without reaping the child, which
      stays a zombie for `Child::try_wait` to collect. */
  lemma WaitIdLeavesZombie()
    ensures WAITID_OPTIONS & WNOWAIT == WNOWAIT
    ensures WAITID_OPTIONS & WEXITED == WEXITED
  {
  }

  /** `wait_for_process` (lines 24-48) up to its notification of the caller. */
  method WaitForProcess(info: ProcInfo, waitid: (int, bv32) -> int)
    modifies info
    ensures info.returnVal == -1 <==> waitid(info.pid, WAITID_OPTIONS) == -1
    ensures info.returnVal == 0 <==> waitid(info.pid, WAITID_OPTIONS) != -1
  {
    if waitid(info.pid, WAITID_OPTIONS) == -1 {
      info.returnVal := -1;
    } else {
      info.returnVal := 0;
    }
  }

  /** The return codes of the OS calls the helper makes, for one invocation. */
  datatype PthreadOs = PthreadOs(
    mutexInit: int, condattrInit: int, condattrSetclock: int, condInit: int,
    threadCreate: int, clock: Option<Timespec>, clockErrno: int,
    condTimedwait: Timespec -> int, waitid: (int, bv32) -> int)

  /** The calling thread as the helper sees it: its `errno`, and the log of the
      pthread objects it initialises and destroys. */
  class CallerThread {
    var errno: int
    var events: seq<SyncEvent>

    constructor (errno: int)
      ensures this.errno == errno && events == []
    {
      this.errno := errno;
      events := [];
    }
  }

  datatype SyncObject = Mutex | CondAttr | Cond
  datatype SyncEvent = Init(obj: SyncObject) | Destroy(obj: SyncObject)

  /** The preconditions the C code's overflow comments rest on, and what the
      OS calls return as documented: `pthread_cond_timedwait` returns 0 or a
      positive error number, and a failing `clock_gettime` sets an `errno`
      such as `EINVAL`, never `ETIMEDOUT`. */
  ghost predicate Sane(p: CPlatform, os: PthreadOs) {
    && TimeTHoldsSeconds(p)
    && (os.clock.Some? ==> Normalised(os.clock.value))
    && (os.clock.Some? ==> MinOf(p.timeT, p.long) <= os.clock.value.tvSec <= MaxOf(p.timeT, p.long))
    && (os.clock.None? ==> os.clockErrno > 0 && os.clockErrno != ETIMEDOUT)
    && (forall d :: os.condTimedwait(d) >= 0)
  }

  /** `wait_timeout_untraced_internal_3` (lines 98-135). */
  method WaitUntracedInternal3(info: ProcInfo, timeoutMs: u32, p: CPlatform, os: PthreadOs,
                               caller: CallerThread) returns (result: int)
    requires Sane(p, os)
    modifies info, caller`errno
    ensures var ret := TimedWaitResult(os.clock, timeoutMs, p, os.condTimedwait);
            && (os.threadCreate != 0 ==> result == -1 && caller.errno == old(caller.errno))
            && (os.threadCreate == 0 && ret == ETIMEDOUT ==> result == -1 && caller.errno == ETIMEDOUT)
            && (os.threadCreate == 0 && ret != ETIMEDOUT ==>
                  result == (if os.waitid(info.pid, WAITID_OPTIONS) == -1 then -1 else 0)
                  && caller.errno == (if os.clock.None? then os.clockErrno else old(caller.errno)))
  {
    if os.threadCreate != 0 {
      return -1;
    }
    // pthread_mutex_lock
    var ret := WaitUntracedInternal4(timeoutMs, p, os, caller);
    // pthread_mutex_unlock; on ETIMEDOUT pthread_cancel
    if ret != ETIMEDOUT {
      // pthread_join: the waiter has run to completion and written return_val
      WaitForProcess(info, os.waitid);
    }
    if ret == ETIMEDOUT {
      caller.errno := ETIMEDOUT;
      return -1;
    }
    result := info.returnVal;
  }

  /** A log of pthread object lifetimes that nests properly: the first object
      initialised is the last destroyed, with a nesting log in between. */
  ghost predicate Bracketed(ev: seq<SyncEvent>)
    decreases |ev|
  {
    ev == [] || (|ev| >= 2 && ev[0].Init? && ev[|ev| - 1] == Destroy(ev[0].obj) && Bracketed(ev[1..|ev| - 1]))
  }

  /** In a nesting log every object is destroyed as often as it is initialised. */
  lemma {:induction false} BracketedBalanced(ev: seq<SyncEvent>, o: SyncObject)
    requires Bracketed(ev)
    ensures multiset(ev)[Init(o)] == multiset(ev)[Destroy(o)]
    decreases |ev|
  {
    if ev != [] {
      var inner := ev[1..|ev| - 1];
      assert ev == [ev[0]] + inner + [ev[|ev| - 1]];
      BracketedBalanced(inner, o);
    }
  }

  /** Wrapping a nesting log in the init and destroy of one more object keeps it nesting. */
  lemma Wrap(o: SyncObject, inner: seq<SyncEvent>)
    requires Bracketed(inner)
    ensures Bracketed([Init(o)] + inner + [Destroy(o)])
  {
    var ev := [Init(o)] + inner + [Destroy(o)];
    assert ev[1..|ev| - 1] == inner;
  }

  /** Whether every pthread object initialises and its condattr takes the monotonic clock. */
  predicate SetUpOk(os: PthreadOs) {
    os.mutexInit == 0 && os.condattrInit == 0 && os.condattrSetclock == 0 && os.condInit == 0
  }

  /** The log `_internal_2` adds: the condition variable's init and destroy,
      unless the clock selection or the init fails. */
  function CondLog(os: PthreadOs): seq<SyncEvent> {
    if os.condattrSetclock != 0 || os.condInit != 0 then [] else [Init(Cond), Destroy(Cond)]
  }

  /** The log `_internal_1` adds: the attribute's init and destroy around `CondLog`. */
  function AttrLog(os: PthreadOs): seq<SyncEvent> {
    if os.condattrInit != 0 then [] else [Init(CondAttr)] + CondLog(os) + [Destroy(CondAttr)]
  }

  /** The log `wait_timeout_untraced` adds: the mutex's init and destroy around `AttrLog`. */
  function HelperLog(os: PthreadOs): seq<SyncEvent> {
    if os.mutexInit != 0 then [] else [Init(Mutex)] + AttrLog(os) + [Destroy(Mutex)]
  }

  /** Whether the init of `o` is reached and succeeds. */
  predicate Initialised(os: PthreadOs, o: SyncObject) {
    match o
    case Mutex => os.mutexInit == 0
    case CondAttr => os.mutexInit == 0 && os.condattrInit == 0
    case Cond => SetUpOk(os)
  }

  /** The helper's log, case by case: nothing when the mutex fails to
      initialise, and otherwise the objects up to the first failing one, each
      initialised and destroyed, innermost first. */
  lemma HelperLogCases(os: PthreadOs)
    ensures os.mutexInit != 0 ==> HelperLog(os) == []
    ensures os.mutexInit == 0 && os.condattrInit != 0 ==> HelperLog(os) == [Init(Mutex), Destroy(Mutex)]
    ensures os.mutexInit == 0 && os.condattrInit == 0 && (os.condattrSetclock != 0 || os.condInit != 0) ==>
              HelperLog(os) == [Init(Mutex), Init(CondAttr), Destroy(CondAttr), Destroy(Mutex)]
    ensures SetUpOk(os) ==>
              HelperLog(os) == [Init(Mutex), Init(CondAttr), Init(Cond), Destroy(Cond), Destroy(CondAttr), Destroy(Mutex)]
  {
  }

  /** The helper's log nests. */
  lemma HelperLogNests(os: PthreadOs)
    ensures Bracketed(HelperLog(os))
  {
    if CondLog(os) != [] {
      Wrap(Cond, []);
    }
    if AttrLog(os) != [] {
      Wrap(CondAttr, CondLog(os));
    }
    if HelperLog(os) != [] {
      Wrap(Mutex, AttrLog(os));
    }
  }

  /** Every pthread object is initialised exactly once when its init succeeds,
      and never when it fails. */
  lemma HelperLogInitOnce(os: PthreadOs, o: SyncObject)
    ensures multiset(HelperLog(os))[Init(o)] == (if Initialised(os, o) then 1 else 0)
  {
    HelperLogCases(os);
  }

  /** Every pthread object is destroyed exactly once when its init succeeded,
      and never when it failed. */
  lemma HelperLogDestroyOnce(os: PthreadOs, o: SyncObject)
    ensures multiset(HelperLog(os))[Destroy(o)] == (if Initialised(os, o) then 1 else 0)
  {
    HelperLogNests(os);
    BracketedBalanced(HelperLog(os), o);
    HelperLogInitOnce(os, o);
  }

  /** `wait_timeout_untraced_internal_2` (lines 137-159): the condition variable. */
  method WaitUntracedInternal2(pid: int, timeoutMs: u32, p: CPlatform, os: PthreadOs,
                               caller: CallerThread) returns (result: int)
    requires Sane(p, os)
    modifies caller
    ensures caller.events == old(caller.events) + CondLog(os)
    ensures (os.condattrSetclock != 0 || os.condInit != 0) ==>
              result == -1 && caller.errno == old(caller.errno)
    ensures var ret := TimedWaitResult(os.clock, timeoutMs, p, os.condTimedwait);
            os.condattrSetclock == 0 && os.condInit == 0 ==>
              && (os.threadCreate != 0 ==> result == -1 && caller.errno == old(caller.errno))
              && (os.threadCreate == 0 && ret == ETIMEDOUT ==> result == -1 && caller.errno == ETIMEDOUT)
              && (os.threadCreate == 0 && ret != ETIMEDOUT ==>
                    result == (if os.waitid(pid, WAITID_OPTIONS) == -1 then -1 else 0)
                    && caller.errno == (if os.clock.None? then os.clockErrno else old(caller.errno)))
  {
    var info := new ProcInfo(pid);
    if os.condattrSetclock != 0 {
      return -1;
    }
    if os.condInit != 0 {
      return -1;
    }
    caller.events := caller.events + [Init(Cond)];
    result := WaitUntracedInternal3(info, timeoutMs, p, os, caller);
    caller.events := caller.events + [Destroy(Cond)];
  }

  /** The helper times out: everything is set up and the timed wait reports `ETIMEDOUT`. */
  predicate TimesOut(timeoutMs: u32, p: CPlatform, os: PthreadOs) {
    SetUpOk(os) && os.threadCreate == 0
    && TimedWaitResult(os.clock, timeoutMs, p, os.condTimedwait) == ETIMEDOUT
  }

  /** The helper reads the monotonic clock, and that fails. */
  predicate ClockFails(os: PthreadOs) {
    SetUpOk(os) && os.threadCreate == 0 && os.clock.None?
  }

  /** The helper succeeds: everything is set up, the timed wait does not time
      out and `waitid` saw the child exit. */
  predicate Succeeds(pid: int, timeoutMs: u32, p: CPlatform, os: PthreadOs) {
    SetUpOk(os) && os.threadCreate == 0
    && TimedWaitResult(os.clock, timeoutMs, p, os.condTimedwait) != ETIMEDOUT
    && os.waitid(pid, WAITID_OPTIONS) != -1
  }

  /** `wait_timeout_untraced_internal_1` (lines 161-175): the condition attribute. */
  method WaitUntracedInternal1(pid: int, timeoutMs: u32, p: CPlatform, os: PthreadOs,
                               caller: CallerThread) returns (result: int)
    requires Sane(p, os) && os.mutexInit == 0
    modifies caller
    ensures caller.events == old(caller.events) + AttrLog(os)
    ensures result == 0 <==> Succeeds(pid, timeoutMs, p, os)
    ensures result != 0 ==> result == -1
    ensures TimesOut(timeoutMs, p, os) ==> caller.errno == ETIMEDOUT
    ensures ClockFails(os) ==> caller.errno == os.clockErrno
    ensures !TimesOut(timeoutMs, p, os) && !ClockFails(os) ==> caller.errno == old(caller.errno)
  {
    if os.condattrInit != 0 {
      return -1;
    }
    caller.events := caller.events + [Init(CondAttr)];
    result := WaitUntracedInternal2(pid, timeoutMs, p, os, caller);
    caller.events := caller.events + [Destroy(CondAttr)];
  }

  /** `wait_timeout_untraced` (lines 177-189), the entry point the thread
      backend calls: -1 on any failure or on timeout (then with `errno` set to
      `ETIMEDOUT`), 0 once the waiter saw the child exit. Besides the timeout
      only a failing clock writes `errno`. The pthread objects it initialises
      and destroys are `HelperLog`. */
  method WaitTimeoutUntraced(pid: int, timeoutMs: u32, p: CPlatform, os: PthreadOs,
                             caller: CallerThread) returns (result: int)
    requires Sane(p, os)
    modifies caller
    ensures caller.events == old(caller.events) + HelperLog(os)
    ensures result == 0 <==> Succeeds(pid, timeoutMs, p, os)
    ensures result != 0 ==> result == -1
    ensures TimesOut(timeoutMs, p, os) ==> caller.errno == ETIMEDOUT
    ensures ClockFails(os) ==> caller.errno == os.clockErrno
    ensures !TimesOut(timeoutMs, p, os) && !ClockFails(os) ==> caller.errno == old(caller.errno)
  {
    if os.mutexInit != 0 {
      return -1;
    }
    caller.events := caller.events + [Init(Mutex)];
    result := WaitUntracedInternal1(pid, timeoutMs, p, os, caller);
    caller.events := caller.events + [Destroy(Mutex)];
  }

  /** `wait_timeout_untraced` with `errno` cleared on entry. Of the helper's
      failures only the timeout and a failing clock write `errno`; pthread
      calls report failure through their return code and `waitid` fails on
      the waiter's thread, so without the clearing those failures leave the
      caller's earlier `errno` in place. With it, `errno` reads `ETIMEDOUT`
      after a -1 exactly when the helper timed out. */
  method WaitTimeoutUntracedClearingErrno(pid: int, timeoutMs: u32, p: CPlatform, os: PthreadOs,
                                          caller: CallerThread) returns (result: int)
    requires Sane(p, os)
    modifies caller
    ensures caller.events == old(caller.events) + HelperLog(os)
    ensures result == 0 <==> Succeeds(pid, timeoutMs, p, os)
    ensures result != 0 ==> result == -1
    ensures result == -1 && caller.errno == ETIMEDOUT <==> TimesOut(timeoutMs, p, os)
    ensures ClockFails(os) ==> caller.errno == os.clockErrno
    ensures !TimesOut(timeoutMs, p, os) && !ClockFails(os) ==> caller.errno == 0
  {
    caller.errno := 0;
    result := WaitTimeoutUntraced(pid, timeoutMs, p, os, caller);
  }
}
