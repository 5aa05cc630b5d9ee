/** Compile-time choice of the backend module `imp` (src/platform/mod.rs:7-36):
    each of the four `#[cfg(...)]` attributes is a boolean predicate over the
    target family and the enabled cargo features, and the module whose
    predicate holds is compiled in. */
module Selection {

  /** The target-family cfg flags `windows` and `unix`. */
  datatype Target = Target(windows: bool, unix: bool)

  /** The crate's cargo features. */
  datatype Features = Features(pidfd: bool, thread: bool, signal: bool)

  /** The four backend modules. */
  datatype Imp = WindowsImp | PidfdImp | ThreadImp | SignalImp

  /** `#[cfg(windows)]` on windows.rs. */
  predicate CfgWindows(t: Target, f: Features) {
    t.windows
  }

  /** `#[cfg(all(unix, feature = "pidfd"))]` on unix_pidfd.rs. */
  predicate CfgPidfd(t: Target, f: Features) {
    t.unix && f.pidfd
  }

  /** The cfg on unix_thread.rs: `thread` without `pidfd`, or no feature at all. */
  predicate CfgThread(t: Target, f: Features) {
    t.unix && ((f.thread && !f.pidfd) || (!f.signal && !f.thread && !f.pidfd))
  }

  /** The cfg on unix_signal.rs: `signal` alone. */
  predicate CfgSignal(t: Target, f: Features) {
    t.unix && f.signal && !f.thread && !f.pidfd
  }

  /** The modules named `imp` that a build compiles in. */
  function EnabledImps(t: Target, f: Features): (s: set<Imp>)
    ensures WindowsImp in s <==> CfgWindows(t, f)
    ensures PidfdImp in s <==> CfgPidfd(t, f)
    ensures ThreadImp in s <==> CfgThread(t, f)
    ensures SignalImp in s <==> CfgSignal(t, f)
  {
    (if CfgWindows(t, f) then {WindowsImp} else {})
    + (if CfgPidfd(t, f) then {PidfdImp} else {})
    + (if CfgThread(t, f) then {ThreadImp} else {})
    + (if CfgSignal(t, f) then {SignalImp} else {})
  }

  /** The policy the documentation states (mod.rs:57-59, 81): pidfd, then
      thread, then signal, and thread when no feature is selected. */
  function DocumentedUnixImp(f: Features): (imp: Imp)
    ensures imp != WindowsImp
  {
    if f.pidfd then PidfdImp
    else if f.thread then ThreadImp
    else if f.signal then SignalImp
    else ThreadImp
  }

  /** On unix exactly one of the three unix predicates holds for every feature
      combination (they are pairwise exclusive and jointly exhaustive), and the
      module it selects is the documented one. */
  lemma UnixSelectsDocumentedImp(t: Target, f: Features)
    requires t.unix && !t.windows
    ensures EnabledImps(t, f) == {DocumentedUnixImp(f)}
    ensures f == Features(false, false, false) ==> EnabledImps(t, f) == {ThreadImp}
  {
    var s := EnabledImps(t, f);
    var d := DocumentedUnixImp(f);
    forall imp: Imp
      ensures imp in s <==> imp == d
    {
    }
  }

  /** On windows only windows.rs is compiled in, whatever the features. */
  lemma WindowsSelectsWindowsImp(t: Target, f: Features)
    requires t.windows && !t.unix
    ensures EnabledImps(t, f) == {WindowsImp}
  {
    var s := EnabledImps(t, f);
    forall imp: Imp
      ensures imp in s <==> imp == WindowsImp
    {
    }
  }

  /** The guard under which build.rs:2-12 compiles the C helper. */
  predicate BuildCompilesHelper(t: Target, f: Features) {
    t.unix && ((f.thread && !f.pidfd) || (!f.signal && !f.thread && !f.pidfd))
  }

  /** The C helper is compiled exactly when the thread backend, its only user, is selected. */
  lemma HelperBuiltIffThreadImp(t: Target, f: Features)
    ensures BuildCompilesHelper(t, f) <==> ThreadImp in EnabledImps(t, f)
  {
  }
}
