/** The chrony commands the daemon issues: after the internet came up, after a deep-sleep wake-up,
    and the monitor that waits for the kernel clock. Foreign calls are recorded with their results. */
module ChronyControl {

  /** CHRONYCTL_SUCCESS. */
  const SUCCESS := 0

  /** OFFSET_STEP_THRESHOLD_S. */
  const STEP_THRESHOLD := 1.0

  /** TIME_ERROR of adjtimex. */
  const TIME_ERROR := 5

  datatype Service = Timesyncd | Chronyd

  datatype Call =
    | IsActive(service: Service, ret: int)
    | ResetFailed(service: Service)
    | Restart(service: Service)
    | GetSourceCount(ret: int, count: int)
    | Online(ret: int)
    | HasSelectableSource(ret: int, flag: int)
    | Burst(ret: int)
    | WaitSync(ret: int)
    | GetOffset(ret: int, offset: real)
    | Makestep(ret: int)

  /** What each foreign call answers, should it be made. */
  datatype Replies = Replies(
    timesyncdActive: int, chronydActive: int,
    countRet: int, count: int, onlineRet: int,
    selectableRet: int, selectable: int, burstRet: int, waitRet: int,
    offsetRet: int, offset: real, stepRet: int)

  function Abs(x: real): real { if x < 0.0 then -x else x }

  predicate Selectable(r: Replies) { r.selectableRet == SUCCESS && r.selectable != 0 }

  /** The calls of one processInternetOnline, by the cases its documentation names. */
  function OnlineCalls(firstSyncDone: bool, r: Replies): seq<Call> {
    if !firstSyncDone then
      [IsActive(Chronyd, r.chronydActive)]
      + (if r.chronydActive != 0 then [] else
           [GetSourceCount(r.countRet, r.count)]
           + if r.countRet == SUCCESS && r.count <= 0 then [Online(r.onlineRet)] else [])
    else if Selectable(r) then
      [HasSelectableSource(r.selectableRet, r.selectable), GetOffset(r.offsetRet, r.offset)]
      + if r.offsetRet == SUCCESS && Abs(r.offset) > STEP_THRESHOLD then [Makestep(r.stepRet)] else []
    else
      [HasSelectableSource(r.selectableRet, r.selectable), Burst(r.burstRet), WaitSync(r.waitRet)]
      + if r.waitRet == SUCCESS then [Makestep(r.stepRet)] else []
  }

  method ProcessInternetOnline(firstSyncDone: bool, r: Replies) returns (calls: seq<Call>)
    ensures calls == OnlineCalls(firstSyncDone, r)
  {
    calls := [];
    if !firstSyncDone {
      var chronyActive := r.chronydActive;
      calls := calls + [IsActive(Chronyd, chronyActive)];
      if chronyActive != 0 {
        // chronyd reaches its servers by itself when it starts
      } else {
        var srcCount, srcCountRet := r.count, r.countRet;
        calls := calls + [GetSourceCount(srcCountRet, srcCount)];
        if srcCountRet != SUCCESS {
          // fall back safely
        } else if srcCount > 0 {
          // polling is in progress
        } else {
          calls := calls + [Online(r.onlineRet)];
        }
      }
    } else {
      calls := calls + [HasSelectableSource(r.selectableRet, r.selectable)];
      var hasSelectableSource := r.selectableRet == SUCCESS && r.selectable != 0;
      if !hasSelectableSource {
        calls := calls + [Burst(r.burstRet)];
        calls := calls + [WaitSync(r.waitRet)];
        if r.waitRet == SUCCESS {
          calls := calls + [Makestep(r.stepRet)];
        }
      } else {
        var offset := r.offset;
        calls := calls + [GetOffset(r.offsetRet, offset)];
        if r.offsetRet != SUCCESS {
          offset := 0.0;
        }
        if Abs(offset) > STEP_THRESHOLD {
          calls := calls + [Makestep(r.stepRet)];
        }
      }
    }
  }

  /** Which calls, with which answers, belong to a run, by the facts that the replies state. */
  predicate Belongs(firstSyncDone: bool, r: Replies, c: Call) {
    match c
    case IsActive(service, ret) => !firstSyncDone && service == Chronyd && ret == r.chronydActive
    case GetSourceCount(ret, count) => !firstSyncDone && r.chronydActive == 0 && ret == r.countRet && count == r.count
    case Online(ret) =>
      !firstSyncDone && r.chronydActive == 0 && r.countRet == 0 && r.count <= 0 && ret == r.onlineRet
    case HasSelectableSource(ret, flag) => firstSyncDone && ret == r.selectableRet && flag == r.selectable
    case Burst(ret) => firstSyncDone && (r.selectableRet != 0 || r.selectable == 0) && ret == r.burstRet
    case WaitSync(ret) => firstSyncDone && (r.selectableRet != 0 || r.selectable == 0) && ret == r.waitRet
    case GetOffset(ret, offset) =>
      firstSyncDone && r.selectableRet == 0 && r.selectable != 0 && ret == r.offsetRet && offset == r.offset
    case Makestep(ret) =>
      && firstSyncDone && ret == r.stepRet
      && if r.selectableRet == 0 && r.selectable != 0
         then r.offsetRet == 0 && (r.offset > 1.0 || r.offset < -1.0)
         else r.waitRet == 0
    case _ => false
  }

  /** The place of a call among the others of its run. */
  function Place(c: Call): nat {
    match c
    case IsActive(Timesyncd, _) => 0
    case ResetFailed(_) => 1
    case Restart(_) => 2
    case IsActive(Chronyd, _) => 3
    case GetSourceCount(_, _) => 4
    case Online(_) => 5
    case HasSelectableSource(_, _) => 6
    case Burst(_) => 7
    case WaitSync(_) => 8
    case GetOffset(_, _) => 9
    case Makestep(_) => 10
  }

  /** The calls of a run are exactly those that belong to it, each once and in their order. */
  lemma OnlineCallsExactly(firstSyncDone: bool, r: Replies)
    ensures forall c :: c in OnlineCalls(firstSyncDone, r) <==> Belongs(firstSyncDone, r, c)
    ensures var calls := OnlineCalls(firstSyncDone, r);
            forall i, j :: 0 <= i < j < |calls| ==> Place(calls[i]) < Place(calls[j])
  {
    var calls := OnlineCalls(firstSyncDone, r);
    forall c ensures c in calls <==> Belongs(firstSyncDone, r, c) {
      assert calls[0] in calls;
      assert |calls| > 1 ==> calls[1] in calls;
      assert |calls| > 2 ==> calls[2] in calls;
      assert |calls| > 3 ==> calls[3] in calls;
    }
  }

  /** What entitles a run to step the clock. */
  predicate Evidence(c: Call) {
    match c
    case WaitSync(ret) => ret == SUCCESS
    case GetOffset(ret, offset) => ret == SUCCESS && Abs(offset) > STEP_THRESHOLD
    case _ => false
  }

  /** The two kinds of evidence: a wait that succeeded, or an offset of more than a second either way. */
  lemma EvidenceExactly(c: Call)
    ensures Evidence(c) <==>
            c == WaitSync(0) || (c.GetOffset? && c.ret == 0 && (c.offset > 1.0 || c.offset < -1.0))
  {
  }

  /** A makestep is the last call of its run, and the call just before it is its evidence. */
  lemma MakestepFollowsEvidence(firstSyncDone: bool, r: Replies, i: nat)
    requires i < |OnlineCalls(firstSyncDone, r)| && OnlineCalls(firstSyncDone, r)[i].Makestep?
    ensures firstSyncDone && i == |OnlineCalls(firstSyncDone, r)| - 1
    ensures i > 0 && Evidence(OnlineCalls(firstSyncDone, r)[i - 1])
  {
  }

  /** When the clock is stepped, both directions, in terms of the replies alone. */
  lemma MakestepExactly(firstSyncDone: bool, r: Replies)
    ensures (exists c :: c in OnlineCalls(firstSyncDone, r) && c.Makestep?) <==>
            firstSyncDone &&
            (if r.selectableRet == 0 && r.selectable != 0
             then r.offsetRet == 0 && (r.offset > 1.0 || r.offset < -1.0)
             else r.waitRet == 0)
  {
    var calls := OnlineCalls(firstSyncDone, r);
    assert calls[|calls| - 1] in calls;
  }

  /** Sources are marked online only before the first synchronisation, and exactly when chronyd
      runs and reports that it has none. */
  lemma OnlineExactly(firstSyncDone: bool, r: Replies)
    ensures (exists c :: c in OnlineCalls(firstSyncDone, r) && c.Online?) <==>
            !firstSyncDone && r.chronydActive == 0 && r.countRet == 0 && r.count <= 0
  {
    var calls := OnlineCalls(firstSyncDone, r);
    assert calls[|calls| - 1] in calls;
  }

  /** Fresh samples are asked for exactly when a synchronised clock has lost its sources, and the wait
      for synchronisation follows at once. */
  lemma BurstExactly(firstSyncDone: bool, r: Replies)
    ensures (exists c :: c in OnlineCalls(firstSyncDone, r) && c.Burst?) <==>
            firstSyncDone && (r.selectableRet != 0 || r.selectable == 0)
    ensures forall i :: 0 <= i < |OnlineCalls(firstSyncDone, r)| && OnlineCalls(firstSyncDone, r)[i].WaitSync? ==>
              i > 0 && OnlineCalls(firstSyncDone, r)[i - 1].Burst?
  {
    var calls := OnlineCalls(firstSyncDone, r);
    if firstSyncDone && !Selectable(r) {
      assert calls[1] in calls;
    }
  }

  /** The calls after a wake-up, by which service runs. */
  function RestartCalls(r: Replies): seq<Call> {
    [IsActive(Timesyncd, r.timesyncdActive)]
    + if r.timesyncdActive == 0 then [ResetFailed(Timesyncd), Restart(Timesyncd)]
      else [IsActive(Chronyd, r.chronydActive)]
           + if r.chronydActive == 0 then [Burst(r.burstRet), WaitSync(r.waitRet), Makestep(r.stepRet)] else []
  }

  /** Which calls belong to a wake-up. */
  predicate BelongsToWake(r: Replies, c: Call) {
    match c
    case IsActive(Timesyncd, ret) => ret == r.timesyncdActive
    case ResetFailed(service) => service == Timesyncd && r.timesyncdActive == 0
    case Restart(service) => service == Timesyncd && r.timesyncdActive == 0
    case IsActive(Chronyd, ret) => r.timesyncdActive != 0 && ret == r.chronydActive
    case Burst(ret) => r.timesyncdActive != 0 && r.chronydActive == 0 && ret == r.burstRet
    case WaitSync(ret) => r.timesyncdActive != 0 && r.chronydActive == 0 && ret == r.waitRet
    case Makestep(ret) => r.timesyncdActive != 0 && r.chronydActive == 0 && ret == r.stepRet
    case _ => false
  }

  lemma RestartCallsExactly(r: Replies)
    ensures forall c :: c in RestartCalls(r) <==> BelongsToWake(r, c)
    ensures var calls := RestartCalls(r);
            forall i, j :: 0 <= i < j < |calls| ==> Place(calls[i]) < Place(calls[j])
  {
    var calls := RestartCalls(r);
    forall c ensures c in calls <==> BelongsToWake(r, c) {
      assert calls[0] in calls && calls[1] in calls;
      assert |calls| > 2 ==> calls[2] in calls;
      assert |calls| > 4 ==> calls[3] in calls && calls[4] in calls;
    }
  }

  /** The service restart at the end of deepsleepoff. Unlike the network path it steps the clock
      whatever the wait for synchronisation answered. */
  method RestartTimeService(r: Replies) returns (calls: seq<Call>)
    ensures calls == RestartCalls(r)
    ensures (exists c :: c in calls && c.Makestep?) <==> r.timesyncdActive != 0 && r.chronydActive == 0
    ensures (exists c :: c in calls && c.Restart?) <==> r.timesyncdActive == 0
    ensures forall i :: 0 <= i < |calls| && calls[i] == Restart(Timesyncd) ==>
              i > 0 && calls[i - 1] == ResetFailed(Timesyncd)
    ensures forall i :: 0 <= i < |calls| && calls[i].Makestep? ==>
              i == |calls| - 1 && i >= 2 && calls[i - 1] == WaitSync(r.waitRet) && calls[i - 2] == Burst(r.burstRet)
  {
    calls := [IsActive(Timesyncd, r.timesyncdActive)];
    if r.timesyncdActive == 0 {
      calls := calls + [ResetFailed(Timesyncd)];
      calls := calls + [Restart(Timesyncd)];
      assert calls[2] == Restart(Timesyncd);
    } else {
      calls := calls + [IsActive(Chronyd, r.chronydActive)];
      if r.chronydActive == 0 {
        calls := calls + [Burst(r.burstRet)];
        calls := calls + [WaitSync(r.waitRet)];
        calls := calls + [Makestep(r.stepRet)];
        assert calls[4] == Makestep(r.stepRet);
      }
    }
  }

  // ---- The monitor of the kernel clock ----

  datatype KernelReading = KernelReading(ret: int, unsync: bool)

  predicate Synchronised(k: KernelReading) {
    k.ret >= 0 && k.ret != TIME_ERROR && !k.unsync
  }

  datatype Artifact = NtpPath | ClockEvent | NtpStatus

  /** Polls until the kernel clock is synchronised, then leaves its files in order; creatable says
      which of them the file system lets it create. polls is the sequence of readings so far, so a
      result of seen == |polls| means that the thread is still polling. */
  method RunNTPSyncMonitor(polls: seq<KernelReading>, creatable: set<Artifact>)
    returns (seen: nat, created: seq<Artifact>)
    ensures seen <= |polls|
    ensures forall i :: 0 <= i < seen ==> polls[i].ret < 0 || polls[i].ret == 5 || polls[i].unsync
    ensures seen < |polls| ==> polls[seen].ret >= 0 && polls[seen].ret != 5 && !polls[seen].unsync
    ensures ClockEvent in created <==> ClockEvent in creatable && exists i :: 0 <= i < |polls| && Synchronised(polls[i])
    ensures seen == |polls| ==> created == []
    ensures seen < |polls| ==> forall a :: a in created <==> a in creatable
    ensures forall i, j :: 0 <= i < j < |created| ==>
              created[i] != created[j] && created[i] != NtpStatus && created[j] != NtpPath
  {
    seen, created := 0, [];
    while seen < |polls|
      invariant seen <= |polls|
      invariant forall i :: 0 <= i < seen ==> !Synchronised(polls[i])
    {
      var reading := polls[seen];
      if reading.ret < 0 {
        seen := seen + 1;
        continue;
      }
      if reading.ret == TIME_ERROR || reading.unsync {
        seen := seen + 1;
        continue;
      }
      if NtpPath in creatable { created := created + [NtpPath]; }
      if ClockEvent in creatable { created := created + [ClockEvent]; }
      if NtpStatus in creatable { created := created + [NtpStatus]; }
      forall a: Artifact ensures a in created <==> a in creatable {
        match a case NtpPath => case ClockEvent => case NtpStatus =>
      }
      break;
    }
  }
}
