/** The clock is stepped by the network path only on evidence: over every interleaving with the
    monitor thread, each makestep has its reasons earlier in the log. */
module MakestepSafety {
  import opened ChronyControl
  import opened NetworkState
  import opened NetworkThreads

  /** i is the last start in log. */
  predicate LastStart(log: seq<Obs>, i: nat) {
    i < |log| && log[i].Start? && forall j :: i < j < |log| ==> !log[j].Start?
  }

  predicate IsEvidence(o: Obs) { o.Command? && Evidence(o.call) }

  /** The observation at m stands in the run started at i, which found the sentinel after the kernel
      clock had been seen synchronised; its evidence e was gathered in that run. */
  predicate JustifiedBy(log: seq<Obs>, m: nat, i: nat, e: nat)
    requires m < |log|
  {
    i < e < m && LastStart(log[..m], i) && log[i] == Start(true) && IsEvidence(log[e]) && KernelSynced in log[..i]
  }

  predicate Justified(log: seq<Obs>, m: nat)
    requires m < |log|
  {
    exists i: nat, e: nat | i < m && e < m :: JustifiedBy(log, m, i, e)
  }

  predicate AllJustified(log: seq<Obs>) {
    forall m: nat | m < |log| :: IsMakestep(log[m]) ==> Justified(log, m)
  }

  lemma JustifiedExtends(log: seq<Obs>, more: seq<Obs>, m: nat)
    requires m < |log| && Justified(log, m)
    ensures Justified(log + more, m)
  {
    var i: nat, e: nat :| i < m && e < m && JustifiedBy(log, m, i, e);
    assert (log + more)[..m] == log[..m];
    assert (log + more)[..i] == log[..i];
    assert JustifiedBy(log + more, m, i, e);
  }

  lemma AllJustifiedAppend(log: seq<Obs>, o: Obs)
    requires AllJustified(log) && !IsMakestep(o)
    ensures AllJustified(log + [o])
  {
    forall m: nat | m < |log + [o]| && IsMakestep((log + [o])[m]) ensures Justified(log + [o], m) {
      JustifiedExtends(log, [o], m);
    }
  }

  /** The run in progress has a start, and that start found the sentinel only after the kernel clock
      had been seen synchronised. */
  predicate RunHasStart(n: Net) {
    n.proc.POnline? ==>
      exists i: nat | i < |n.log| ::
        LastStart(n.log, i) && n.log[i] == Start(n.proc.firstSyncDone) &&
        (n.proc.firstSyncDone ==> KernelSynced in n.log[..i])
  }

  predicate SentinelMeansSynced(n: Net) {
    (n.sentinel ==> KernelSynced in n.log) && (n.monitor == MPolling <==> KernelSynced !in n.log)
  }

  predicate Safe(n: Net) {
    AllJustified(n.log) && RunHasStart(n) && SentinelMeansSynced(n)
  }

  lemma LastStartExtends(log: seq<Obs>, more: seq<Obs>, i: nat)
    requires LastStart(log, i) && forall o :: o in more ==> !o.Start?
    ensures LastStart(log + more, i) && (log + more)[i] == log[i] && (log + more)[..i] == log[..i]
  {
    forall j | i < j < |log + more| ensures !(log + more)[j].Start? {
      if j >= |log| {
        assert (log + more)[j] in more;
      }
    }
  }

  lemma RunGoesOn(n: Net, a: Action) returns (more: seq<Obs>)
    requires Enabled(n, a) && !a.StartOnline? && Next(n, a).proc.POnline?
    ensures Next(n, a).proc == n.proc && Next(n, a).log == n.log + more && forall o :: o in more ==> !o.Start?
  {
    more := Next(n, a).log[|n.log|..];
  }

  lemma RunHasStartStep(n: Net, a: Action)
    requires RunHasStart(n) && SentinelMeansSynced(n) && Enabled(n, a)
    ensures RunHasStart(Next(n, a))
  {
    var m := Next(n, a);
    if a.StartOnline? {
      var i := |n.log|;
      assert LastStart(m.log, i) && m.log[i] == Start(n.sentinel) && m.log[..i] == n.log;
    } else if m.proc.POnline? {
      var more := RunGoesOn(n, a);
      var i: nat :| i < |n.log| && LastStart(n.log, i) && n.log[i] == Start(n.proc.firstSyncDone) &&
                    (n.proc.firstSyncDone ==> KernelSynced in n.log[..i]);
      LastStartExtends(n.log, more, i);
    }
  }

  lemma SentinelStep(n: Net, a: Action)
    requires SentinelMeansSynced(n) && Enabled(n, a)
    ensures SentinelMeansSynced(Next(n, a))
  {
    var m := Next(n, a);
    var more := m.log[|n.log|..];
    assert m.log == n.log + more;
    assert KernelSynced in more <==> a.MonitorObserves?;
  }

  /** The commands of a finished run: its makestep comes right after its evidence. */
  lemma FinishJustified(n: Net, r: Replies)
    requires Safe(n) && n.proc.POnline?
    ensures AllJustified(n.log + Commands(OnlineCalls(n.proc.firstSyncDone, r)))
  {
    var done := n.proc.firstSyncDone;
    var calls := OnlineCalls(done, r);
    var log := n.log + Commands(calls);
    var i: nat :| i < |n.log| && LastStart(n.log, i) && n.log[i] == Start(done) &&
                  (done ==> KernelSynced in n.log[..i]);
    forall m: nat | m < |log| && IsMakestep(log[m]) ensures Justified(log, m) {
      if m < |n.log| {
        JustifiedExtends(n.log, Commands(calls), m);
      } else {
        var c := m - |n.log|;
        assert log[m] == Command(calls[c]);
        MakestepFollowsEvidence(done, r, c);
        assert log[m - 1] == Command(calls[c - 1]);
        assert log[..m] == n.log + Commands(calls)[..c];
        LastStartExtends(n.log, Commands(calls)[..c], i);
        assert log[..i] == n.log[..i];
        assert JustifiedBy(log, m, i, m - 1);
      }
    }
  }

  lemma SafeStep(n: Net, a: Action)
    requires Safe(n) && Enabled(n, a)
    ensures Safe(Next(n, a))
  {
    var m := Next(n, a);
    RunHasStartStep(n, a);
    SentinelStep(n, a);
    if a.FinishOnline? {
      FinishJustified(n, a.replies);
    } else if m.log != n.log {
      AllJustifiedAppend(n.log, m.log[|n.log|]);
      assert m.log == n.log + [m.log[|n.log|]];
    }
  }

  lemma {:induction false} SafeRun(policy: Policy, n: Net, run: seq<Action>)
    requires Safe(n) && ValidRun(policy, n, run)
    ensures Safe(Exec(policy, n, run))
    decreases |run|
  {
    if run != [] {
      SafeStep(n, run[0]);
      SafeRun(policy, Next(n, run[0]), run[1..]);
    }
  }

  /** Makestep safety: in every interleaving, each makestep of the network path belongs to a run that
      began after the monitor had seen the kernel clock synchronised, and follows, in that run, a
      successful wait for synchronisation or an offset of magnitude above 1.0. */
  lemma EveryMakestepJustified(policy: Policy, run: seq<Action>)
    requires ValidRun(policy, BOOT, run)
    ensures AllJustified(Exec(policy, BOOT, run).log)
  {
    SafeRun(policy, BOOT, run);
  }

  /** In particular every makestep comes after the first synchronisation. */
  lemma NoMakestepBeforeSync(policy: Policy, run: seq<Action>, m: nat)
    requires ValidRun(policy, BOOT, run) && m < |Exec(policy, BOOT, run).log|
    requires IsMakestep(Exec(policy, BOOT, run).log[m])
    ensures KernelSynced in Exec(policy, BOOT, run).log[..m]
  {
    EveryMakestepJustified(policy, run);
    var log := Exec(policy, BOOT, run).log;
    var i: nat, e: nat :| i < m && e < m && JustifiedBy(log, m, i, e);
    assert log[..i] == log[..m][..i];
  }

  lemma {:induction false} StartsWithSentinel(policy: Policy, n: Net, run: seq<Action>)
    requires ValidRun(policy, n, run) && n.sentinel
    ensures var log := Exec(policy, n, run).log;
            n.log <= log && forall i | |n.log| <= i < |log| :: log[i].Start? ==> log[i].firstSyncDone
    decreases |run|
  {
    if run != [] {
      var m := Next(n, run[0]);
      assert n.log <= m.log && forall i | |n.log| <= i < |m.log| :: m.log[i].Start? ==> m.log[i].firstSyncDone;
      StartsWithSentinel(policy, m, run[1..]);
    }
  }

  /** The guard opens: once the monitor has seen the clock synchronised and left the sentinel, every
      later start of processInternetOnline finds it. */
  lemma StartsAfterSentinel(policy: Policy, before: seq<Action>, after: seq<Action>)
    requires ValidRun(policy, BOOT, before) && MonitorCreates(true) in before
    requires ValidRun(policy, Exec(policy, BOOT, before), after)
    ensures var n := Exec(policy, BOOT, before);
            var log := Exec(policy, n, after).log;
            n.log <= log && forall i | |n.log| <= i < |log| :: log[i].Start? ==> log[i].firstSyncDone
  {
    SentinelStays(policy, BOOT, before);
    StartsWithSentinel(policy, Exec(policy, BOOT, before), after);
  }

  /** The monitor has left the sentinel and a Subscribe is about to start. */
  const SYNCED := BOOT.(sentinel := true, monitor := MDone, retry := RReady, log := [KernelSynced])

  lemma SyncedReached(rest: seq<Action>) returns (run: seq<Action>)
    requires ValidRun(DuringSubscription, SYNCED, rest)
    ensures ValidRun(DuringSubscription, BOOT, run)
    ensures Exec(DuringSubscription, BOOT, run) == Exec(DuringSubscription, SYNCED, rest)
  {
    var n1 := Next(BOOT, MonitorObserves);
    var n2 := Next(n1, MonitorCreates(true));
    assert Next(n2, CheckStop) == SYNCED;
    run := Prepend(DuringSubscription, n2, CheckStop, rest);
    run := Prepend(DuringSubscription, n1, MonitorCreates(true), run);
    run := Prepend(DuringSubscription, BOOT, MonitorObserves, run);
  }

  /** A Subscribe succeeds and a first edge finds the processing thread waiting, which takes it up. */
  lemma EdgeTakenUp(n: Net) returns (run: seq<Action>, m: Net)
    requires n == SYNCED.(log := n.log)
    ensures ValidRun(DuringSubscription, n, run) && Exec(DuringSubscription, n, run) == m
    ensures m.proc == POnline(true)
  {
    assert Lower(FULLY_CONNECTED) == FULLY_CONNECTED;
    var up := Deliver(map["status" := FULLY_CONNECTED], ProcWaiter);
    var n1 := Next(n, ProcSection);
    var n2 := Next(n1, StartSubscribe(true));
    var n3 := Next(n2, up);
    var n4 := Next(n3, ProcSection);
    m := Next(n4, StartOnline);
    run := Prepend(DuringSubscription, n4, StartOnline, []);
    run := Prepend(DuringSubscription, n3, ProcSection, run);
    run := Prepend(DuringSubscription, n2, up, run);
    run := Prepend(DuringSubscription, n1, StartSubscribe(true), run);
    run := Prepend(DuringSubscription, n, ProcSection, run);
    run := Prepend(DuringSubscription, n1, ProcSpurious, run);
    run := Prepend(DuringSubscription, n, ProcSection, run);
  }

  /** Synchronised and connected, the network path does step the clock: from the start of the daemon,
      after any number of failed attempts to subscribe, for all replies that call for it. */
  lemma SyncedEdgeSteps(r: Replies, attempts: nat) returns (run: seq<Action>)
    requires if r.selectableRet == 0 && r.selectable != 0
             then r.offsetRet == 0 && (r.offset > 1.0 || r.offset < -1.0)
             else r.waitRet == 0
    ensures ValidRun(DuringSubscription, BOOT, run)
    ensures var log := Exec(DuringSubscription, BOOT, run).log; exists m: nat | m < |log| :: IsMakestep(log[m])
  {
    var failures := AttemptsFail(DuringSubscription, SYNCED, attempts);
    var taken, online := EdgeTakenUp(Exec(DuringSubscription, SYNCED, failures));
    Join(DuringSubscription, SYNCED, failures, taken);
    var last := Prepend(DuringSubscription, online, FinishOnline(r), []);
    Join(DuringSubscription, SYNCED, failures + taken, last);
    run := SyncedReached(failures + taken + last);
    var calls := OnlineCalls(true, r);
    var log := Next(online, FinishOnline(r)).log;
    assert log[|log| - 1] == Command(calls[|calls| - 1]);
    assert IsMakestep(log[|log| - 1]);
  }

  /** The threads with a sentinel left behind by an earlier instance of the daemon. */
  const STALE_BOOT := BOOT.(sentinel := true)

  /** The same threads after a first Subscribe and a first edge, the latch just cleared. */
  const STALE_CLEARED := STALE_BOOT.(
    retry := RSubscribing(true), proc := PCleared, flags := Flags(false, false, FULLY_CONNECTED),
    delivered := [FULLY_CONNECTED], log := [SubscribeStart(true), Edge, Clear])

  lemma StaleClearedReached(rest: seq<Action>) returns (run: seq<Action>)
    requires ValidRun(DuringSubscription, STALE_CLEARED, rest)
    ensures ValidRun(DuringSubscription, STALE_BOOT, run)
    ensures Exec(DuringSubscription, STALE_BOOT, run) == Exec(DuringSubscription, STALE_CLEARED, rest)
  {
    assert Lower(FULLY_CONNECTED) == FULLY_CONNECTED;
    var up := Deliver(map["status" := FULLY_CONNECTED], NoWaiter);
    var n1 := STALE_BOOT.(retry := RReady);
    var n2 := n1.(retry := RSubscribing(true), log := [SubscribeStart(true)]);
    var n3 := n2.(flags := Flags(true, false, FULLY_CONNECTED), delivered := [FULLY_CONNECTED],
                  log := [SubscribeStart(true), Edge]);
    assert Next(n1, StartSubscribe(true)) == n2;
    assert Next(n2, up) == n3;
    assert Next(n3, ProcSection) == STALE_CLEARED;
    run := Prepend(DuringSubscription, n3, ProcSection, rest);
    run := Prepend(DuringSubscription, n2, up, run);
    run := Prepend(DuringSubscription, n1, StartSubscribe(true), run);
    run := Prepend(DuringSubscription, STALE_BOOT, CheckStop, run);
  }

  /** With a stale sentinel a first edge makes the network path step the clock before the monitor has
      seen the kernel clock synchronised, for all replies that lead a synchronised run to a step. */
  lemma StaleSentinelDefeatsGuard(r: Replies) returns (run: seq<Action>)
    requires if r.selectableRet == 0 && r.selectable != 0
             then r.offsetRet == 0 && (r.offset > 1.0 || r.offset < -1.0)
             else r.waitRet == 0
    ensures ValidRun(DuringSubscription, STALE_BOOT, run)
    ensures var log := Exec(DuringSubscription, STALE_BOOT, run).log;
            KernelSynced !in log && exists m: nat | m < |log| :: IsMakestep(log[m])
  {
    var online := Next(STALE_CLEARED, StartOnline);
    run := Prepend(DuringSubscription, online, FinishOnline(r), []);
    run := Prepend(DuringSubscription, STALE_CLEARED, StartOnline, run);
    run := StaleClearedReached(run);
    var calls := OnlineCalls(true, r);
    var log := Next(online, FinishOnline(r)).log;
    assert log[|log| - 1] == Command(calls[|calls| - 1]);
    assert IsMakestep(log[|log| - 1]);
  }

  predicate StepsAfterSync(log: seq<Obs>) {
    forall m: nat | m < |log| :: IsMakestep(log[m]) ==> KernelSynced in log[..m]
  }

  /** The guard works in every run exactly if no sentinel exists when the threads start. */
  lemma GuardHoldsExactly(sentinel: bool)
    ensures (forall run | ValidRun(DuringSubscription, BOOT.(sentinel := sentinel), run) ::
               StepsAfterSync(Exec(DuringSubscription, BOOT.(sentinel := sentinel), run).log)) <==> !sentinel
  {
    if sentinel {
      var r := Replies(0, 0, 0, 0, 0, 1, 0, 0, SUCCESS, 0, 0.0, 0);
      var run := StaleSentinelDefeatsGuard(r);
      assert STALE_BOOT == BOOT.(sentinel := sentinel);
      assert !StepsAfterSync(Exec(DuringSubscription, STALE_BOOT, run).log);
    } else {
      assert BOOT == BOOT.(sentinel := sentinel);
      forall run | ValidRun(DuringSubscription, BOOT, run)
        ensures StepsAfterSync(Exec(DuringSubscription, BOOT, run).log)
      {
        var log := Exec(DuringSubscription, BOOT, run).log;
        forall m: nat | m < |log| && IsMakestep(log[m]) ensures KernelSynced in log[..m] {
          NoMakestepBeforeSync(DuringSubscription, run, m);
        }
      }
    }
  }
}
