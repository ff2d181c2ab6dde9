/** The threads around the network-up latch as atomic steps: the Thunder callback, the processing
    thread, the subscription retry thread, the destructor and the monitor of the kernel clock.
    Waits wake spuriously, and notify_one picks any thread that waits. */
module NetworkThreads {
  import opened ChronyControl
  import opened NetworkState

  /** PAtLock is about to take the mutex; PBlocked waits un-notified; PCleared has cleared the latch
      and released the mutex; POnline runs processInternetOnline. */
  datatype Proc = PAtLock | PBlocked | PCleared | POnline(firstSyncDone: bool) | PExited

  /** RAtCheck and RAtSleep are about to take the mutex; RReady has passed the check of the stop flag;
      RBlocked waits un-notified; RTimedOut has reached its deadline. */
  datatype Retry =
    | RAtCheck
    | RReady
    | RSubscribing(succeeds: bool)
    | RAtSleep
    | RBlocked
    | RTimedOut
    | RSubscribed
    | RExited

  datatype Stopper = NotStopping | Flagged | Notified

  datatype Monitor = MPolling | MObserved | MDone

  datatype Obs =
    | Edge
    | Clear
    | Start(firstSyncDone: bool)
    | Command(call: Call)
    | SubscribeStart(succeeds: bool)
    | KernelSynced

  datatype Net = Net(
    flags: Flags, proc: Proc, retry: Retry, stopper: Stopper, monitor: Monitor,
    sentinel: bool, delivered: seq<string>, log: seq<Obs>)

  datatype Waiter = ProcWaiter | RetryWaiter | NoWaiter

  datatype Action =
    | Deliver(params: map<string, string>, pick: Waiter)
    | ProcSection
    | ProcSpurious
    | StartOnline
    | FinishOnline(replies: Replies)
    | CheckStop
    | StartSubscribe(succeeds: bool)
    | SubscribeReturns
    | SleepSection
    | RetrySpurious
    | RetryTimeout
    | AfterTimeout
    | FlagStop
    | NotifyAll
    | MonitorObserves
    | MonitorCreates(created: bool)

  /** notify_one wakes one waiting thread if there is any. */
  predicate CanPick(n: Net, pick: Waiter) {
    match pick
    case ProcWaiter => n.proc == PBlocked
    case RetryWaiter => n.retry == RBlocked
    case NoWaiter => n.proc != PBlocked && n.retry != RBlocked
  }

  predicate Enabled(n: Net, a: Action) {
    match a
    case Deliver(params, pick) => CanPick(n, pick)
    case ProcSection => n.proc == PAtLock
    case ProcSpurious => n.proc == PBlocked
    case StartOnline => n.proc == PCleared
    case FinishOnline(_) => n.proc.POnline?
    case CheckStop => n.retry == RAtCheck
    case StartSubscribe(_) => n.retry == RReady
    case SubscribeReturns => n.retry.RSubscribing?
    case SleepSection => n.retry == RAtSleep
    case RetrySpurious => n.retry == RBlocked
    case RetryTimeout => n.retry == RBlocked
    case AfterTimeout => n.retry == RTimedOut
    case FlagStop => n.stopper == NotStopping
    case NotifyAll => n.stopper == Flagged
    case MonitorObserves => n.monitor == MPolling
    case MonitorCreates(_) => n.monitor == MObserved
  }

  predicate OfProc(a: Action) {
    a.ProcSection? || a.ProcSpurious? || a.StartOnline? || a.FinishOnline?
  }

  predicate OfRetry(a: Action) {
    || a.CheckStop? || a.StartSubscribe? || a.SubscribeReturns? || a.SleepSection?
    || a.RetrySpurious? || a.RetryTimeout? || a.AfterTimeout?
  }

  function Commands(calls: seq<Call>): seq<Obs> {
    seq(|calls|, i requires 0 <= i < |calls| => Command(calls[i]))
  }

  function Delivered(n: Net, params: map<string, string>, pick: Waiter): Net {
    var status := Lower(StatusOf(params));
    var m := n.(flags := AfterStatus(n.flags, status), delivered := n.delivered + [StatusOf(params)]);
    if !Rises(n.flags.lastStatus, status) then m
    else
      m.(log := n.log + [Edge],
         proc := if pick == ProcWaiter then PAtLock else n.proc,
         retry := if pick == RetryWaiter then RAtSleep else n.retry)
  }

  function ProcSectionRun(n: Net): Net {
    var m := n.(flags := AfterSection(n.flags));
    match VerdictOf(n.flags)
    case MustWait => m.(proc := PBlocked)
    case MustStop => m.(proc := PExited)
    case MustRun => m.(proc := PCleared, log := n.log + [Clear])
  }

  function AfterRetrySection(f: Flags, timedOut: bool): Retry {
    match RetryVerdictOf(f, timedOut)
    case MustSleep => RBlocked
    case MustLeave => RExited
    case MustRetry => RAtCheck
  }

  function Next(n: Net, a: Action): Net
    requires Enabled(n, a)
  {
    match a
    case Deliver(params, pick) => Delivered(n, params, pick)
    case ProcSection => ProcSectionRun(n)
    case ProcSpurious => n.(proc := PAtLock)
    case StartOnline => n.(proc := POnline(n.sentinel), log := n.log + [Start(n.sentinel)])
    case FinishOnline(r) => n.(proc := PAtLock, log := n.log + Commands(OnlineCalls(n.proc.firstSyncDone, r)))
    case CheckStop => n.(retry := if n.flags.stopProcessing then RExited else RReady)
    case StartSubscribe(succeeds) => n.(retry := RSubscribing(succeeds), log := n.log + [SubscribeStart(succeeds)])
    case SubscribeReturns => n.(retry := if n.retry.succeeds then RSubscribed else RAtSleep)
    case SleepSection => n.(retry := AfterRetrySection(n.flags, false))
    case RetrySpurious => n.(retry := RAtSleep)
    case RetryTimeout => n.(retry := RTimedOut)
    case AfterTimeout => n.(retry := AfterRetrySection(n.flags, true))
    case FlagStop => n.(stopper := Flagged, flags := n.flags.(stopProcessing := true))
    case NotifyAll =>
      n.(stopper := Notified,
         proc := if n.proc == PBlocked then PAtLock else n.proc,
         retry := if n.retry == RBlocked then RAtSleep else n.retry)
    case MonitorObserves => n.(monitor := MObserved, log := n.log + [KernelSynced])
    case MonitorCreates(created) => n.(monitor := MDone, sentinel := n.sentinel || created)
  }

  /** The threads have just been started and /tmp/clock-event does not exist. */
  const BOOT := Net(Flags(false, false, ""), PAtLock, RAtCheck, NotStopping, MPolling, false, [], [])

  // ---- When callbacks come ----

  /** AnyTime puts no condition on callbacks. RetryAwake lets them come unless the retry thread sleeps.
      DuringSubscription lets them come during or after a Subscribe that returns ERROR_NONE. */
  datatype Policy = AnyTime | RetryAwake | DuringSubscription

  predicate Permits(policy: Policy, n: Net) {
    match policy
    case AnyTime => true
    case RetryAwake => n.retry != RBlocked
    case DuringSubscription => n.retry == RSubscribing(true) || n.retry == RSubscribed
  }

  predicate ValidRun(policy: Policy, n: Net, run: seq<Action>)
    decreases |run|
  {
    run == [] ||
    (Enabled(n, run[0]) && (run[0].Deliver? ==> Permits(policy, n)) && ValidRun(policy, Next(n, run[0]), run[1..]))
  }

  function Exec(policy: Policy, n: Net, run: seq<Action>): Net
    requires ValidRun(policy, n, run)
    decreases |run|
  {
    if run == [] then n else Exec(policy, Next(n, run[0]), run[1..])
  }

  /** A run with one more step in front. */
  lemma Prepend(policy: Policy, n: Net, a: Action, rest: seq<Action>) returns (run: seq<Action>)
    requires Enabled(n, a) && (a.Deliver? ==> Permits(policy, n)) && ValidRun(policy, Next(n, a), rest)
    ensures ValidRun(policy, n, run) && Exec(policy, n, run) == Exec(policy, Next(n, a), rest)
  {
    run := [a] + rest;
    assert run[1..] == rest;
  }

  /** A run cut in two. */
  lemma {:induction false} Cut(policy: Policy, n: Net, run: seq<Action>, k: nat)
    requires ValidRun(policy, n, run) && k <= |run|
    ensures ValidRun(policy, n, run[..k]) && ValidRun(policy, Exec(policy, n, run[..k]), run[k..])
    ensures Exec(policy, n, run) == Exec(policy, Exec(policy, n, run[..k]), run[k..])
    decreases |run|
  {
    if k == 0 {
      assert run[..0] == [] && run[0..] == run;
    } else {
      Cut(policy, Next(n, run[0]), run[1..], k - 1);
      assert run[..k][1..] == run[1..][..k - 1];
      assert run[k..] == run[1..][k - 1..];
    }
  }

  /** Two runs in a row. */
  lemma {:induction false} Join(policy: Policy, n: Net, before: seq<Action>, after: seq<Action>)
    requires ValidRun(policy, n, before) && ValidRun(policy, Exec(policy, n, before), after)
    ensures ValidRun(policy, n, before + after)
    ensures Exec(policy, n, before + after) == Exec(policy, Exec(policy, n, before), after)
    decreases |before|
  {
    if before == [] {
      assert before + after == after;
    } else {
      assert (before + after)[1..] == before[1..] + after;
      Join(policy, Next(n, before[0]), before[1..], after);
    }
  }

  /** A failed Subscribe, and a sleep that is woken without cause and then reaches its deadline: the
      thread is ready to try again. */
  lemma AttemptFails(policy: Policy, n: Net) returns (run: seq<Action>)
    requires n.retry == RReady && !n.flags.stopProcessing
    ensures ValidRun(policy, n, run) && Exec(policy, n, run) == n.(log := n.log + [SubscribeStart(false)])
  {
    var n1 := Next(n, StartSubscribe(false));
    var n2 := n1.(retry := RAtSleep);
    var n3 := n1.(retry := RBlocked);
    var n4 := n1.(retry := RTimedOut);
    var n5 := n1.(retry := RAtCheck);
    run := Prepend(policy, n5, CheckStop, []);
    run := Prepend(policy, n4, AfterTimeout, run);
    run := Prepend(policy, n3, RetryTimeout, run);
    run := Prepend(policy, n2, SleepSection, run);
    run := Prepend(policy, n3, RetrySpurious, run);
    run := Prepend(policy, n2, SleepSection, run);
    run := Prepend(policy, n1, SubscribeReturns, run);
    run := Prepend(policy, n, StartSubscribe(false), run);
  }

  /** Any number of attempts can fail, and the next still be made. */
  lemma {:induction false} AttemptsFail(policy: Policy, n: Net, k: nat) returns (run: seq<Action>)
    requires n.retry == RReady && !n.flags.stopProcessing
    ensures ValidRun(policy, n, run)
    ensures Exec(policy, n, run) == n.(log := n.log + seq(k, _ => SubscribeStart(false)))
    decreases k
  {
    run := [];
    if k > 0 {
      var first := AttemptFails(policy, n);
      var m := Exec(policy, n, first);
      var rest := AttemptsFail(policy, m, k - 1);
      Join(policy, n, first, rest);
      run := first + rest;
      assert [SubscribeStart(false)] + seq(k - 1, _ => SubscribeStart(false)) == seq(k, _ => SubscribeStart(false));
      assert m.log + seq(k - 1, _ => SubscribeStart(false)) == n.log + seq(k, _ => SubscribeStart(false));
    }
  }

  // ---- What a run does, told by its steps ----

  /** The statuses of the deliveries of a run. */
  function Deliveries(run: seq<Action>): seq<string> {
    if run == [] then []
    else (if run[0].Deliver? then [StatusOf(run[0].params)] else []) + Deliveries(run[1..])
  }

  /** The command results of a run: for each processInternetOnline the calls of its case. */
  function CallsMade(policy: Policy, n: Net, run: seq<Action>): seq<Call>
    requires ValidRun(policy, n, run)
    decreases |run|
  {
    if run == [] then []
    else
      (if run[0].FinishOnline? then OnlineCalls(n.proc.firstSyncDone, run[0].replies) else [])
      + CallsMade(policy, Next(n, run[0]), run[1..])
  }

  /** The commands in a log. */
  function LoggedCalls(log: seq<Obs>): seq<Call> {
    if log == [] then []
    else LoggedCalls(log[..|log| - 1]) + if log[|log| - 1].Command? then [log[|log| - 1].call] else []
  }

  lemma {:induction false} LoggedConcat(log: seq<Obs>, more: seq<Obs>)
    ensures LoggedCalls(log + more) == LoggedCalls(log) + LoggedCalls(more)
  {
    if more == [] {
      assert log + more == log;
    } else {
      var init := more[..|more| - 1];
      assert (log + more)[..|log + more| - 1] == log + init;
      LoggedConcat(log, init);
    }
  }

  lemma {:induction false} LoggedCommands(calls: seq<Call>)
    ensures LoggedCalls(Commands(calls)) == calls
  {
    if calls != [] {
      var init := calls[..|calls| - 1];
      assert Commands(calls)[..|calls| - 1] == Commands(init);
      LoggedCommands(init);
    }
  }

  lemma LoggedStep(n: Net, a: Action)
    requires Enabled(n, a)
    ensures LoggedCalls(Next(n, a).log) == LoggedCalls(n.log) +
            if a.FinishOnline? then OnlineCalls(n.proc.firstSyncDone, a.replies) else []
  {
    var m := Next(n, a);
    if a.FinishOnline? {
      var calls := OnlineCalls(n.proc.firstSyncDone, a.replies);
      LoggedConcat(n.log, Commands(calls));
      LoggedCommands(calls);
    } else if m.log != n.log {
      assert m.log[..|n.log|] == n.log;
    }
  }

  lemma DeliveredStep(n: Net, a: Action)
    requires Enabled(n, a)
    ensures Next(n, a).delivered == n.delivered + if a.Deliver? then [StatusOf(a.params)] else []
  {
  }

  /** Every delivery is taken note of, in order. */
  lemma {:induction false} DeliveriesAccounted(policy: Policy, n: Net, run: seq<Action>)
    requires ValidRun(policy, n, run)
    ensures Exec(policy, n, run).delivered == n.delivered + Deliveries(run)
    decreases |run|
  {
    if run != [] {
      DeliveredStep(n, run[0]);
      DeliveriesAccounted(policy, Next(n, run[0]), run[1..]);
    }
  }

  /** Every processInternetOnline issues its calls, in order. */
  lemma {:induction false} CommandsAccounted(policy: Policy, n: Net, run: seq<Action>)
    requires ValidRun(policy, n, run)
    ensures LoggedCalls(Exec(policy, n, run).log) == LoggedCalls(n.log) + CallsMade(policy, n, run)
    decreases |run|
  {
    if run != [] {
      LoggedStep(n, run[0]);
      CommandsAccounted(policy, Next(n, run[0]), run[1..]);
    }
  }

  /** Once the sentinel exists it stays. */
  lemma {:induction false} SentinelStays(policy: Policy, n: Net, run: seq<Action>)
    requires ValidRun(policy, n, run)
    ensures n.sentinel || MonitorCreates(true) in run <==> Exec(policy, n, run).sentinel
    decreases |run|
  {
    if run != [] {
      SentinelStays(policy, Next(n, run[0]), run[1..]);
      assert run == [run[0]] + run[1..];
    }
  }

  // ---- Counting observations ----

  function Count(log: seq<Obs>, p: Obs -> bool): nat {
    if log == [] then 0 else Count(log[..|log| - 1], p) + if p(log[|log| - 1]) then 1 else 0
  }

  lemma CountAppend(log: seq<Obs>, o: Obs, p: Obs -> bool)
    ensures Count(log + [o], p) == Count(log, p) + if p(o) then 1 else 0
  {
    assert (log + [o])[..|log|] == log;
  }

  lemma {:induction false} CountConcat(log: seq<Obs>, more: seq<Obs>, p: Obs -> bool)
    ensures Count(log + more, p) == Count(log, p) + Count(more, p)
  {
    if more == [] {
      assert log + more == log;
    } else {
      var init := more[..|more| - 1];
      assert (log + more)[..|log + more| - 1] == log + init;
      CountConcat(log, init, p);
    }
  }

  predicate IsEdge(o: Obs) { o == Edge }
  predicate IsClear(o: Obs) { o == Clear }
  predicate IsStart(o: Obs) { o.Start? }
  predicate IsSubscribe(o: Obs) { o.SubscribeStart? }
  predicate IsMakestep(o: Obs) { o.Command? && o.call.Makestep? }

  function Edges(log: seq<Obs>): nat { Count(log, IsEdge) }
  function Clears(log: seq<Obs>): nat { Count(log, IsClear) }
  function Starts(log: seq<Obs>): nat { Count(log, IsStart) }
  function Subscribes(log: seq<Obs>): nat { Count(log, IsSubscribe) }
  function Makesteps(log: seq<Obs>): nat { Count(log, IsMakestep) }
}
