/** No rising edge is lost, edges are coalesced but never invented, and shutdown is clean: the
    claims about the latch over every interleaving of the network threads. */
module NetworkLatch {
  import opened ChronyControl
  import opened NetworkState
  import opened NetworkThreads

  // ---- The latch ----

  /** An edge has arrived after the last clear. */
  predicate EdgeSinceClear(log: seq<Obs>) {
    exists i | 0 <= i < |log| :: log[i] == Edge && Clear !in log[i..]
  }

  lemma EdgeSinceClearStep(log: seq<Obs>, o: Obs)
    ensures EdgeSinceClear(log + [o]) <==> o == Edge || (o != Clear && EdgeSinceClear(log))
  {
    var more := log + [o];
    forall i | 0 <= i < |log| ensures more[i] == log[i] && more[i..] == log[i..] + [o] {
    }
    assert more[|log|..] == [o];
    if EdgeSinceClear(log) && o != Clear {
      var i :| 0 <= i < |log| && log[i] == Edge && Clear !in log[i..];
      assert more[i] == Edge && Clear !in more[i..];
    }
    if o == Edge {
      assert more[|log|] == Edge && Clear !in more[|log|..];
    }
    if EdgeSinceClear(more) {
      var i :| 0 <= i < |more| && more[i] == Edge && Clear !in more[i..];
      if i < |log| {
        assert log[i] == Edge && Clear !in log[i..];
      }
    }
  }

  lemma {:induction false} EdgeSinceClearCommands(log: seq<Obs>, calls: seq<Call>)
    ensures EdgeSinceClear(log + Commands(calls)) <==> EdgeSinceClear(log)
  {
    if calls == [] {
      assert log + Commands(calls) == log;
    } else {
      var init, last := calls[..|calls| - 1], calls[|calls| - 1];
      assert log + Commands(calls) == log + Commands(init) + [Command(last)];
      EdgeSinceClearCommands(log, init);
      EdgeSinceClearStep(log + Commands(init), Command(last));
    }
  }

  /** The latch is set exactly when an edge has arrived after it was last cleared. */
  predicate LatchIsEdge(n: Net) {
    n.flags.internetUpPending <==> EdgeSinceClear(n.log)
  }

  lemma LatchIsEdgeStep(n: Net, a: Action)
    requires LatchIsEdge(n) && Enabled(n, a)
    ensures LatchIsEdge(Next(n, a))
  {
    var m := Next(n, a);
    if a.FinishOnline? {
      EdgeSinceClearCommands(n.log, OnlineCalls(n.proc.firstSyncDone, a.replies));
    } else if m.log != n.log {
      EdgeSinceClearStep(n.log, m.log[|m.log| - 1]);
    }
  }

  /** A clear is followed by a start, except the one whose start is still to come. */
  predicate StartedAfter(log: seq<Obs>, i: int) {
    exists k | i < k < |log| && 0 <= k :: log[k].Start?
  }

  predicate ClearsStarted(log: seq<Obs>) {
    forall i | 0 <= i < |log| :: log[i] == Clear ==> StartedAfter(log, i)
  }

  lemma StartedAfterExtends(log: seq<Obs>, more: seq<Obs>, i: int)
    requires StartedAfter(log, i)
    ensures StartedAfter(log + more, i)
  {
    var k :| i < k < |log| && 0 <= k && log[k].Start?;
    assert (log + more)[k].Start?;
  }

  lemma ClearsStartedExtends(log: seq<Obs>, more: seq<Obs>)
    requires ClearsStarted(log) && Clear !in more
    ensures ClearsStarted(log + more)
  {
    forall i | 0 <= i < |log + more| && (log + more)[i] == Clear ensures StartedAfter(log + more, i) {
      if i < |log| {
        StartedAfterExtends(log, more, i);
      }
    }
  }

  lemma ClearsStartedByStart(log: seq<Obs>, o: Obs)
    requires o.Start?
    ensures ClearsStarted(log + [o])
  {
    assert (log + [o])[|log|].Start?;
  }

  predicate ClearsFollowed(n: Net) {
    n.proc != PCleared ==> ClearsStarted(n.log)
  }

  lemma ClearsFollowedStep(n: Net, a: Action)
    requires ClearsFollowed(n) && Enabled(n, a)
    ensures ClearsFollowed(Next(n, a))
  {
    var m := Next(n, a);
    if m.proc != PCleared {
      if a.StartOnline? {
        ClearsStartedByStart(n.log, Start(n.sentinel));
      } else if n.proc != PCleared && m.log != n.log {
        var more := m.log[|n.log|..];
        assert m.log == n.log + more;
        ClearsStartedExtends(n.log, more);
      }
    }
  }

  /** The processing thread never waits un-notified on a set latch, unless it is being stopped. */
  predicate NotForgotten(n: Net) {
    n.proc == PBlocked && !n.flags.stopProcessing ==> !n.flags.internetUpPending
  }

  lemma NotForgottenStep(policy: Policy, n: Net, a: Action)
    requires policy != AnyTime && NotForgotten(n)
    requires Enabled(n, a) && (a.Deliver? ==> Permits(policy, n))
    ensures NotForgotten(Next(n, a))
  {
  }

  /** Invariants of every run, whatever the callbacks do. */
  predicate Latched(n: Net) {
    LatchIsEdge(n) && ClearsFollowed(n)
  }

  lemma {:induction false} LatchedRun(policy: Policy, n: Net, run: seq<Action>)
    requires Latched(n) && ValidRun(policy, n, run)
    requires policy != AnyTime ==> NotForgotten(n)
    ensures Latched(Exec(policy, n, run))
    ensures policy != AnyTime ==> NotForgotten(Exec(policy, n, run))
    decreases |run|
  {
    if run != [] {
      LatchIsEdgeStep(n, run[0]);
      ClearsFollowedStep(n, run[0]);
      if policy != AnyTime {
        NotForgottenStep(policy, n, run[0]);
      }
      LatchedRun(policy, Next(n, run[0]), run[1..]);
    }
  }

  /** In every interleaving the latch is set exactly when an edge arrived after the last clear. */
  lemma LatchMeansEdge(policy: Policy, run: seq<Action>)
    requires ValidRun(policy, BOOT, run)
    ensures var n := Exec(policy, BOOT, run); n.flags.internetUpPending <==> EdgeSinceClear(n.log)
  {
    LatchedRun(policy, BOOT, run);
  }

  /** No rising edge is lost, when callbacks come only while the retry thread is awake: once the
      processing thread waits un-notified, every edge was followed by a later start of
      processInternetOnline. */
  lemma NoEdgeLost(policy: Policy, run: seq<Action>)
    requires policy != AnyTime && ValidRun(policy, BOOT, run)
    ensures var n := Exec(policy, BOOT, run);
            n.proc == PBlocked && !n.flags.stopProcessing ==>
              && !n.flags.internetUpPending
              && forall i :: 0 <= i < |n.log| && n.log[i] == Edge ==> StartedAfter(n.log, i)
  {
    LatchedRun(policy, BOOT, run);
    var n := Exec(policy, BOOT, run);
    if n.proc == PBlocked && !n.flags.stopProcessing {
      forall i | 0 <= i < |n.log| && n.log[i] == Edge ensures StartedAfter(n.log, i) {
        assert Clear in n.log[i..];
        var c :| 0 <= c < |n.log[i..]| && n.log[i..][c] == Clear;
        assert n.log[i + c] == Clear;
        assert StartedAfter(n.log, i + c);
      }
    }
  }

  /** Exactly when one delivery can be forgotten: the processing thread waits, the status rises, and
      the retry thread sleeps on the same condition variable. */
  lemma LossExactly(n: Net, params: map<string, string>)
    requires n.proc == PBlocked && !n.flags.stopProcessing && !n.flags.internetUpPending
    ensures (exists pick :: CanPick(n, pick) && !NotForgotten(Next(n, Deliver(params, pick)))) <==>
            n.retry == RBlocked && Rises(n.flags.lastStatus, Lower(StatusOf(params)))
  {
    if n.retry == RBlocked && Rises(n.flags.lastStatus, Lower(StatusOf(params))) {
      assert CanPick(n, RetryWaiter) && !NotForgotten(Next(n, Deliver(params, RetryWaiter)));
    }
  }

  /** A delivery whose notification goes to the retry thread although the processing thread waits. */
  predicate Stolen(n: Net, a: Action) {
    n.proc == PBlocked && a.Deliver? && a.pick == RetryWaiter && Rises(n.flags.lastStatus, Lower(StatusOf(a.params)))
  }

  /** The step wakes the processing thread. */
  predicate WakesProc(n: Net, a: Action) {
    n.proc == PBlocked &&
    (a == ProcSpurious || a == NotifyAll ||
     (a.Deliver? && a.pick == ProcWaiter && Rises(n.flags.lastStatus, Lower(StatusOf(a.params)))))
  }

  predicate WakesAt(run: seq<Action>, j: nat)
    requires j < |run|
  {
    ValidRun(AnyTime, BOOT, run[..j]) && WakesProc(Exec(AnyTime, BOOT, run[..j]), run[j])
  }

  /** The i-th step is such a delivery, and no later step wakes the processing thread. */
  predicate StolenAt(run: seq<Action>, i: nat)
    requires i < |run|
  {
    && ValidRun(AnyTime, BOOT, run[..i]) && Stolen(Exec(AnyTime, BOOT, run[..i]), run[i])
    && forall j: nat | i < j < |run| :: !WakesAt(run, j)
  }

  predicate EdgeStolen(run: seq<Action>) {
    exists i: nat | i < |run| :: StolenAt(run, i)
  }

  /** The run without its last step. */
  lemma Front(run: seq<Action>) returns (front: seq<Action>, a: Action)
    requires ValidRun(AnyTime, BOOT, run) && run != []
    ensures run == front + [a] && ValidRun(AnyTime, BOOT, front) && Enabled(Exec(AnyTime, BOOT, front), a)
    ensures Exec(AnyTime, BOOT, run) == Next(Exec(AnyTime, BOOT, front), a)
  {
    var n := |run| - 1;
    front, a := run[..n], run[n];
    Cut(AnyTime, BOOT, run, n);
    assert run[n..] == [a] && run[n..][1..] == [];
  }

  lemma EdgeStolenStep(front: seq<Action>, a: Action)
    requires ValidRun(AnyTime, BOOT, front)
    ensures EdgeStolen(front + [a]) <==>
            var n := Exec(AnyTime, BOOT, front);
            (EdgeStolen(front) && !WakesProc(n, a)) || Stolen(n, a)
  {
    var run, k := front + [a], |front|;
    assert run[..k] == front;
    forall j: nat | j < k ensures WakesAt(run, j) == WakesAt(front, j) { assert run[..j] == front[..j]; }
    assert WakesAt(run, k) == WakesProc(Exec(AnyTime, BOOT, front), a);
    forall i: nat | i < k ensures StolenAt(run, i) <==> StolenAt(front, i) && !WakesAt(run, k) {
      assert run[..i] == front[..i];
      if StolenAt(run, i) {
        forall j: nat | i < j < k ensures !WakesAt(front, j) { assert !WakesAt(run, j); }
      }
    }
    assert StolenAt(run, k) <==> Stolen(Exec(AnyTime, BOOT, front), a);
    if EdgeStolen(front) && !WakesProc(Exec(AnyTime, BOOT, front), a) {
      var i: nat :| i < k && StolenAt(front, i);
      assert StolenAt(run, i);
    }
  }

  lemma ForgottenStep(n: Net, a: Action)
    requires Enabled(n, a)
    ensures var m := Next(n, a);
            (m.proc == PBlocked && m.flags.internetUpPending) <==>
            (n.proc == PBlocked && n.flags.internetUpPending && !WakesProc(n, a)) || Stolen(n, a)
  {
  }

  /** Over every run, whenever callbacks come: the processing thread waits un-notified on a set latch
      exactly if some rising delivery, which found it waiting, notified the retry thread instead, and
      nothing has woken it since. */
  lemma {:induction false} ForgottenExactly(run: seq<Action>)
    requires ValidRun(AnyTime, BOOT, run)
    ensures var n := Exec(AnyTime, BOOT, run); n.proc == PBlocked && n.flags.internetUpPending <==> EdgeStolen(run)
    decreases |run|
  {
    if run != [] {
      var front, a := Front(run);
      ForgottenExactly(front);
      EdgeStolenStep(front, a);
      ForgottenStep(Exec(AnyTime, BOOT, front), a);
    }
  }

  /** Callbacks during or after a successful Subscribe find the retry thread awake. */
  lemma {:induction false} SubscriptionKeepsRetryAwake(n: Net, run: seq<Action>)
    requires ValidRun(DuringSubscription, n, run)
    ensures ValidRun(RetryAwake, n, run) && Exec(RetryAwake, n, run) == Exec(DuringSubscription, n, run)
    decreases |run|
  {
    if run != [] {
      SubscriptionKeepsRetryAwake(Next(n, run[0]), run[1..]);
    }
  }

  /** Both threads wait, after a first Subscribe that failed. */
  const BOTH_WAIT := Net(Flags(false, false, ""), PBlocked, RBlocked, NotStopping, MPolling, false, [],
                         [SubscribeStart(false)])

  lemma {:induction false} NoneCounted(log: seq<Obs>, p: Obs -> bool)
    requires forall o :: o in log ==> !p(o)
    ensures Count(log, p) == 0
  {
    if log != [] {
      assert log[|log| - 1] in log;
      NoneCounted(log[..|log| - 1], p);
    }
  }

  lemma BothCanWait(rest: seq<Action>) returns (run: seq<Action>)
    requires ValidRun(AnyTime, BOTH_WAIT, rest)
    ensures ValidRun(AnyTime, BOOT, run) && Exec(AnyTime, BOOT, run) == Exec(AnyTime, BOTH_WAIT, rest)
  {
    var n4 := BOTH_WAIT.(retry := RAtSleep);
    var n3 := BOTH_WAIT.(retry := RSubscribing(false));
    var n2 := BOTH_WAIT.(retry := RReady, log := []);
    var n1 := BOTH_WAIT.(retry := RAtCheck, log := []);
    assert Next(n2, StartSubscribe(false)) == n3;
    run := Prepend(AnyTime, n4, SleepSection, rest);
    run := Prepend(AnyTime, n3, SubscribeReturns, run);
    run := Prepend(AnyTime, n2, StartSubscribe(false), run);
    run := Prepend(AnyTime, n1, CheckStop, run);
    run := Prepend(AnyTime, BOOT, ProcSection, run);
  }

  /** Without the assumption the claim is false: a callback that comes while the retry thread sleeps
      can wake that thread instead, and the processing thread waits on a set latch. */
  lemma EdgeCanBeForgotten() returns (run: seq<Action>)
    ensures ValidRun(AnyTime, BOOT, run)
    ensures var n := Exec(AnyTime, BOOT, run);
            n.proc == PBlocked && n.flags.internetUpPending && Edge in n.log && Starts(n.log) == 0
  {
    assert Lower(FULLY_CONNECTED) == FULLY_CONNECTED;
    var last := Deliver(map["status" := FULLY_CONNECTED], RetryWaiter);
    var suffix := Prepend(AnyTime, BOTH_WAIT, last, []);
    run := BothCanWait(suffix);
    var log := Next(BOTH_WAIT, last).log;
    assert log == [SubscribeStart(false), Edge];
    NoneCounted(log, IsStart);
  }

  /** Own steps of the processing thread until it clears a set latch. */
  function StepsToClear(p: Proc): nat {
    match p
    case PAtLock => 1
    case POnline(_) => 2
    case PCleared => 3
    case _ => 0
  }

  function ProcSteps(run: seq<Action>): nat {
    if run == [] then 0 else (if OfProc(run[0]) then 1 else 0) + ProcSteps(run[1..])
  }

  /** What a step adds to the log. */
  function Added(n: Net, a: Action): seq<Obs>
    requires Enabled(n, a)
  {
    match a
    case Deliver(params, _) => if Rises(n.flags.lastStatus, Lower(StatusOf(params))) then [Edge] else []
    case ProcSection => if VerdictOf(n.flags) == MustRun then [Clear] else []
    case StartOnline => [Start(n.sentinel)]
    case FinishOnline(r) => Commands(OnlineCalls(n.proc.firstSyncDone, r))
    case StartSubscribe(succeeds) => [SubscribeStart(succeeds)]
    case MonitorObserves => [KernelSynced]
    case _ => []
  }

  lemma LogIsAdded(n: Net, a: Action)
    requires Enabled(n, a)
    ensures Next(n, a).log == n.log + Added(n, a)
  {
  }

  lemma CountOne(o: Obs, p: Obs -> bool)
    ensures Count([o], p) == if p(o) then 1 else 0
    ensures Count([], p) == 0
  {
    CountAppend([], o, p);
    assert [] + [o] == [o];
  }

  lemma CommandsCount(firstSyncDone: bool, r: Replies)
    ensures var log := Commands(OnlineCalls(firstSyncDone, r));
            Edges(log) == 0 && Clears(log) == 0 && Starts(log) == 0 && Subscribes(log) == 0 && Makesteps(log) <= 1
  {
    var calls := OnlineCalls(firstSyncDone, r);
    NoneCounted(Commands(calls), IsEdge);
    NoneCounted(Commands(calls), IsClear);
    NoneCounted(Commands(calls), IsStart);
    NoneCounted(Commands(calls), IsSubscribe);
    var init := Commands(calls)[..|calls| - 1];
    forall o | o in init ensures !IsMakestep(o) {
      var i :| 0 <= i < |init| && init[i] == o;
      assert o == Command(calls[i]);
      if calls[i].Makestep? {
        MakestepFollowsEvidence(firstSyncDone, r, i);
      }
    }
    NoneCounted(init, IsMakestep);
  }

  lemma AddedCounts(n: Net, a: Action)
    requires Enabled(n, a)
    ensures var more := Added(n, a);
            && Edges(more) == (if a.Deliver? && Rises(n.flags.lastStatus, Lower(StatusOf(a.params))) then 1 else 0)
            && Clears(more) == (if a.ProcSection? && VerdictOf(n.flags) == MustRun then 1 else 0)
            && Starts(more) == (if a.StartOnline? then 1 else 0)
            && Subscribes(more) == (if a.StartSubscribe? then 1 else 0)
            && Makesteps(more) <= (if a.FinishOnline? then 1 else 0)
  {
    if a.FinishOnline? {
      CommandsCount(n.proc.firstSyncDone, a.replies);
    } else if Added(n, a) != [] {
      var o := Added(n, a)[0];
      assert Added(n, a) == [o];
      CountOne(o, IsEdge);
      CountOne(o, IsClear);
      CountOne(o, IsStart);
      CountOne(o, IsSubscribe);
      CountOne(o, IsMakestep);
    }
  }

  /** How a step changes each count. */
  lemma CountSteps(n: Net, a: Action)
    requires Enabled(n, a)
    ensures var m := Next(n, a);
            && Edges(m.log) == Edges(n.log) +
               (if a.Deliver? && Rises(n.flags.lastStatus, Lower(StatusOf(a.params))) then 1 else 0)
            && Clears(m.log) == Clears(n.log) + (if a.ProcSection? && VerdictOf(n.flags) == MustRun then 1 else 0)
            && Starts(m.log) == Starts(n.log) + (if a.StartOnline? then 1 else 0)
            && Subscribes(m.log) == Subscribes(n.log) + (if a.StartSubscribe? then 1 else 0)
            && Makesteps(m.log) <= Makesteps(n.log) + (if a.FinishOnline? then 1 else 0)
  {
    var more := Added(n, a);
    LogIsAdded(n, a);
    CountConcat(n.log, more, IsEdge);
    CountConcat(n.log, more, IsClear);
    CountConcat(n.log, more, IsStart);
    CountConcat(n.log, more, IsSubscribe);
    CountConcat(n.log, more, IsMakestep);
    AddedCounts(n, a);
  }

  lemma {:induction false} ClearsGrowOverRun(policy: Policy, n: Net, run: seq<Action>)
    requires ValidRun(policy, n, run)
    ensures Clears(Exec(policy, n, run).log) >= Clears(n.log)
    decreases |run|
  {
    if run != [] {
      CountSteps(n, run[0]);
      ClearsGrowOverRun(policy, Next(n, run[0]), run[1..]);
    }
  }

  /** The processing thread has an edge to serve and will not be stopped. */
  predicate Serving(n: Net) {
    n.flags.internetUpPending && !n.flags.stopProcessing && n.proc != PExited && n.proc != PBlocked
  }

  lemma ServingStep(n: Net, a: Action)
    requires Serving(n) && Enabled(n, a) && !a.FlagStop? && !a.ProcSection?
    ensures Serving(Next(n, a))
    ensures StepsToClear(Next(n, a).proc) + (if OfProc(a) then 1 else 0) == StepsToClear(n.proc)
  {
  }

  /** A pending edge is served soon: unless a stop is requested, the processing thread clears the
      latch within three of its own steps, whatever the other threads do. */
  lemma {:induction false} PendingServedSoon(policy: Policy, n: Net, run: seq<Action>)
    requires Serving(n) && ValidRun(policy, n, run) && FlagStop !in run
    requires ProcSteps(run) >= StepsToClear(n.proc)
    ensures Clears(Exec(policy, n, run).log) > Clears(n.log)
    decreases |run|
  {
    var a, m := run[0], Next(n, run[0]);
    CountSteps(n, a);
    if a.ProcSection? {
      ClearsGrowOverRun(policy, m, run[1..]);
    } else {
      ServingStep(n, a);
      PendingServedSoon(policy, m, run[1..]);
    }
  }

  // ---- Coalescing ----

  /** Edges are the rising deliveries. */
  predicate EdgesCounted(n: Net) {
    && n.flags.lastStatus == (if n.delivered == [] then "" else Lower(n.delivered[|n.delivered| - 1]))
    && Edges(n.log) == |RisingPositions(n.delivered)|
  }

  /** Every clear uses up an edge, every start a clear, every makestep a start. */
  predicate StartsCounted(n: Net) {
    && Clears(n.log) + (if n.flags.internetUpPending then 1 else 0) <= Edges(n.log)
    && Starts(n.log) + (if n.proc == PCleared then 1 else 0) == Clears(n.log)
    && Makesteps(n.log) + (if n.proc.POnline? then 1 else 0) <= Starts(n.log)
  }

  predicate Counted(n: Net) {
    EdgesCounted(n) && StartsCounted(n)
  }

  lemma EdgesCountedStep(n: Net, a: Action)
    requires EdgesCounted(n) && Enabled(n, a)
    ensures EdgesCounted(Next(n, a))
  {
    CountSteps(n, a);
    if a.Deliver? {
      RisingStep(n.delivered, StatusOf(a.params));
    }
  }

  lemma StartsCountedStep(n: Net, a: Action)
    requires StartsCounted(n) && Enabled(n, a)
    ensures StartsCounted(Next(n, a))
  {
    CountSteps(n, a);
  }

  lemma {:induction false} CountedRun(policy: Policy, n: Net, run: seq<Action>)
    requires Counted(n) && ValidRun(policy, n, run)
    ensures Counted(Exec(policy, n, run))
    decreases |run|
  {
    if run != [] {
      EdgesCountedStep(n, run[0]);
      StartsCountedStep(n, run[0]);
      CountedRun(policy, Next(n, run[0]), run[1..]);
    }
  }

  /** Coalescing: the edges signalled are exactly the deliveries that turn to fully connected, and
      neither the starts of processInternetOnline nor the makesteps ever outnumber them. */
  lemma Coalescing(policy: Policy, run: seq<Action>)
    requires ValidRun(policy, BOOT, run)
    ensures var n := Exec(policy, BOOT, run);
            && n.delivered == Deliveries(run)
            && Edges(n.log) == |RisingPositions(n.delivered)|
            && Makesteps(n.log) <= Starts(n.log) <= Edges(n.log)
  {
    DeliveriesAccounted(policy, BOOT, run);
    assert RisingPositions([]) == {};
    CountedRun(policy, BOOT, run);
  }

  // ---- What every step counts for ----

  /** Starts and Subscribes of a run, told by its steps. */
  function StepsIn(run: seq<Action>, p: Action -> bool): nat {
    if run == [] then 0 else (if p(run[0]) then 1 else 0) + StepsIn(run[1..], p)
  }

  /** Every start of processInternetOnline and every Subscribe is in the log. */
  lemma {:induction false} StartsAccounted(policy: Policy, n: Net, run: seq<Action>)
    requires ValidRun(policy, n, run)
    ensures var m := Exec(policy, n, run);
            && Starts(m.log) == Starts(n.log) + StepsIn(run, a => a == StartOnline)
            && Subscribes(m.log) == Subscribes(n.log) + StepsIn(run, (a: Action) => a.StartSubscribe?)
    decreases |run|
  {
    if run != [] {
      CountSteps(n, run[0]);
      StartsAccounted(policy, Next(n, run[0]), run[1..]);
    }
  }

  // ---- Shutdown ----

  /** Once notify_all has run nobody waits any more, and until it has run the flag tells. */
  predicate Stopping(n: Net) {
    && (n.flags.stopProcessing <==> n.stopper != NotStopping)
    && (n.stopper == Notified ==> n.proc != PBlocked && n.retry != RBlocked)
    && (n.proc == PExited || n.retry == RExited ==> n.flags.stopProcessing)
  }

  /** Steps that a stopped thread can still take. */
  function ProcWork(p: Proc): nat {
    match p
    case PCleared => 4
    case POnline(_) => 3
    case PBlocked => 2
    case PAtLock => 1
    case PExited => 0
  }

  function RetryWork(r: Retry): nat {
    match r
    case RReady => 4
    case RSubscribing(_) => 3
    case RBlocked => 2
    case RAtCheck => 1
    case RAtSleep => 1
    case RTimedOut => 1
    case RSubscribed => 0
    case RExited => 0
  }

  lemma StoppingStep(n: Net, a: Action)
    requires Stopping(n) && Enabled(n, a)
    ensures Stopping(Next(n, a))
    ensures n.flags.stopProcessing ==> Next(n, a).flags.stopProcessing
  {
  }

  lemma {:induction false} StoppingRun(policy: Policy, n: Net, run: seq<Action>)
    requires Stopping(n) && ValidRun(policy, n, run)
    ensures Stopping(Exec(policy, n, run))
    decreases |run|
  {
    if run != [] {
      StoppingStep(n, run[0]);
      StoppingRun(policy, Next(n, run[0]), run[1..]);
    }
  }

  /** Each own step of a stopped thread brings it nearer to its end; no other step takes it back. */
  lemma StoppedWorkDecreases(n: Net, a: Action)
    requires Enabled(n, a) && n.flags.stopProcessing
    ensures ProcWork(Next(n, a).proc) <= ProcWork(n.proc) - if OfProc(a) then 1 else 0
    ensures RetryWork(Next(n, a).retry) <= RetryWork(n.retry) - if OfRetry(a) then 1 else 0
  {
  }

  function OwnSteps(run: seq<Action>): nat {
    if run == [] then 0 else (if OfProc(run[0]) || OfRetry(run[0]) then 1 else 0) + OwnSteps(run[1..])
  }

  /** Clean shutdown: from the step that sets the stop flag on, at most one processInternetOnline
      and at most one Subscribe can still start, each only by a thread that was past its check, and
      the two threads take at most 8 more steps between them. */
  lemma {:induction false} ShutdownBounds(policy: Policy, n: Net, run: seq<Action>)
    requires n.flags.stopProcessing && Stopping(n) && ValidRun(policy, n, run)
    ensures var m := Exec(policy, n, run);
            && Starts(m.log) + (if m.proc == PCleared then 1 else 0) <=
               Starts(n.log) + (if n.proc == PCleared then 1 else 0)
            && Subscribes(m.log) + (if m.retry == RReady then 1 else 0) <=
               Subscribes(n.log) + (if n.retry == RReady then 1 else 0)
            && OwnSteps(run) + ProcWork(m.proc) + RetryWork(m.retry) <= ProcWork(n.proc) + RetryWork(n.retry)
    decreases |run|
  {
    if run != [] {
      var a := run[0];
      var m := Next(n, a);
      StoppingStep(n, a);
      StoppedWorkDecreases(n, a);
      CountSteps(n, a);
      ShutdownBounds(policy, m, run[1..]);
    }
  }

  /** A step of the two threads that needs no notify, no spurious wake-up and no deadline. */
  predicate Unprompted(a: Action) {
    (OfProc(a) || OfRetry(a)) && !a.ProcSpurious? && !a.RetrySpurious? && !a.RetryTimeout?
  }

  ghost predicate CanGoOn(n: Net) {
    exists a :: Unprompted(a) && Enabled(n, a)
  }

  /** The threads cannot go on exactly if each of them waits or has ended. */
  lemma StuckExactly(n: Net)
    ensures !CanGoOn(n) <==> n.proc in {PBlocked, PExited} && n.retry in {RBlocked, RExited, RSubscribed}
  {
    match n.proc {
      case PAtLock => assert Enabled(n, ProcSection);
      case PCleared => assert Enabled(n, StartOnline);
      case POnline(_) =>
        var r := Replies(0, 0, 0, 0, 0, 0, 0, 0, 0, 0, 0.0, 0);
        assert Enabled(n, FinishOnline(r));
      case _ =>
    }
    match n.retry {
      case RAtCheck => assert Enabled(n, CheckStop);
      case RReady => assert Enabled(n, StartSubscribe(false));
      case RSubscribing(_) => assert Enabled(n, SubscribeReturns);
      case RAtSleep => assert Enabled(n, SleepSection);
      case RTimedOut => assert Enabled(n, AfterTimeout);
      case _ =>
    }
  }

  /** No waiter stays blocked: at any time after notify_all neither thread waits, and the two can go on
      by themselves until both have ended. */
  lemma ShutdownCompletes(policy: Policy, run: seq<Action>)
    requires ValidRun(policy, BOOT, run) && Exec(policy, BOOT, run).stopper == Notified
    ensures var m := Exec(policy, BOOT, run);
            && m.proc != PBlocked && m.retry != RBlocked
            && (!CanGoOn(m) <==> m.proc == PExited && m.retry in {RExited, RSubscribed})
  {
    StoppingRun(policy, BOOT, run);
    StuckExactly(Exec(policy, BOOT, run));
  }

  /** The stop flag alone does not do: with both threads waiting when it is set, neither can go on. */
  lemma FlagAloneLeavesWaiters() returns (run: seq<Action>)
    ensures ValidRun(AnyTime, BOOT, run)
    ensures var m := Exec(AnyTime, BOOT, run);
            m.flags.stopProcessing && m.proc == PBlocked && m.retry == RBlocked && !CanGoOn(m)
  {
    run := Prepend(AnyTime, BOTH_WAIT, FlagStop, []);
    run := BothCanWait(run);
    StuckExactly(Next(BOTH_WAIT, FlagStop));
  }

  /** A shutdown with both threads waiting, to its end. */
  lemma ShutdownHappens() returns (run: seq<Action>)
    ensures ValidRun(AnyTime, BOOT, run)
    ensures var m := Exec(AnyTime, BOOT, run); m.stopper == Notified && m.proc == PExited && m.retry == RExited
  {
    var n1 := Next(BOTH_WAIT, FlagStop);
    var n2 := Next(n1, NotifyAll);
    var n3 := Next(n2, ProcSection);
    run := Prepend(AnyTime, n3, SleepSection, []);
    run := Prepend(AnyTime, n2, ProcSection, run);
    run := Prepend(AnyTime, n1, NotifyAll, run);
    run := Prepend(AnyTime, BOTH_WAIT, FlagStop, run);
    run := BothCanWait(run);
  }

  /** The same from the start of the daemon: whatever ran before the flag was set, at most one start
      and one Subscribe follow, within 8 steps of the two threads, and once notify_all has run neither
      waits and both go on until they have ended. */
  lemma CleanShutdown(policy: Policy, before: seq<Action>, after: seq<Action>)
    requires ValidRun(policy, BOOT, before) && Exec(policy, BOOT, before).flags.stopProcessing
    requires ValidRun(policy, Exec(policy, BOOT, before), after)
    ensures var n := Exec(policy, BOOT, before);
            var m := Exec(policy, n, after);
            && Starts(m.log) <= Starts(n.log) + 1 && Subscribes(m.log) <= Subscribes(n.log) + 1
            && OwnSteps(after) <= 8
            && (m.stopper == Notified ==>
                  && m.proc != PBlocked && m.retry != RBlocked
                  && (!CanGoOn(m) <==> m.proc == PExited && m.retry in {RExited, RSubscribed}))
  {
    StoppingRun(policy, BOOT, before);
    ShutdownBounds(policy, Exec(policy, BOOT, before), after);
    Join(policy, BOOT, before, after);
    if Exec(policy, BOOT, before + after).stopper == Notified {
      ShutdownCompletes(policy, before + after);
    }
  }

  /** From the start of the daemon: while no stop is requested, an edge that is pending is taken up
      within three steps of the processing thread, wherever the thread stands. */
  lemma EdgeServedSoon(policy: Policy, before: seq<Action>, after: seq<Action>)
    requires policy != AnyTime && ValidRun(policy, BOOT, before)
    requires var n := Exec(policy, BOOT, before);
             n.flags.internetUpPending && !n.flags.stopProcessing && ValidRun(policy, n, after)
    requires FlagStop !in after && ProcSteps(after) >= 3
    ensures var n := Exec(policy, BOOT, before); Clears(Exec(policy, n, after).log) > Clears(n.log)
  {
    LatchedRun(policy, BOOT, before);
    StoppingRun(policy, BOOT, before);
    PendingServedSoon(policy, Exec(policy, BOOT, before), after);
  }

  // ---- Subscription ----

  /** A successful Subscribe is remembered: its thread is in that call or has ended after it. */
  predicate SubscriptionKnown(n: Net) {
    SubscribeStart(true) in n.log <==> n.retry == RSubscribing(true) || n.retry == RSubscribed
  }

  lemma SubscriptionKnownStep(n: Net, a: Action)
    requires SubscriptionKnown(n) && Enabled(n, a)
    ensures SubscriptionKnown(Next(n, a))
    ensures SubscribeStart(true) in n.log ==> !a.StartSubscribe?
  {
    LogIsAdded(n, a);
    assert SubscribeStart(true) in Added(n, a) <==> a == StartSubscribe(true);
  }

  /** Once a Subscribe has succeeded no other is ever started. */
  lemma {:induction false} SubscribedOnce(policy: Policy, n: Net, run: seq<Action>)
    requires SubscriptionKnown(n) && ValidRun(policy, n, run)
    ensures SubscriptionKnown(Exec(policy, n, run))
    ensures SubscribeStart(true) in n.log ==> Subscribes(Exec(policy, n, run).log) == Subscribes(n.log)
    decreases |run|
  {
    if run != [] {
      SubscriptionKnownStep(n, run[0]);
      CountSteps(n, run[0]);
      LogIsAdded(n, run[0]);
      SubscribedOnce(policy, Next(n, run[0]), run[1..]);
    }
  }

  /** From the start of the daemon: a successful Subscribe is the last one, and without one the retry
      thread goes on until it is stopped. */
  lemma SubscribesUntilSuccess(policy: Policy, before: seq<Action>, after: seq<Action>)
    requires ValidRun(policy, BOOT, before) && ValidRun(policy, Exec(policy, BOOT, before), after)
    ensures var n := Exec(policy, BOOT, before);
            && (SubscribeStart(true) in n.log ==> Subscribes(Exec(policy, n, after).log) == Subscribes(n.log))
            && (n.retry == RExited ==> n.flags.stopProcessing && SubscribeStart(true) !in n.log)
  {
    SubscribedOnce(policy, BOOT, before);
    SubscribedOnce(policy, Exec(policy, BOOT, before), after);
    StoppingRun(policy, BOOT, before);
  }
}
