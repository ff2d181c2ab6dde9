/** The manager object: its fields, the loops over its sources and syncs, and every handler,
    each proved against the pure machine of module StateMachine. */
module SystemTimeManager {
  import opened TimeTypes
  import opened StateMachine
  import ChronyControl
  import SavedTime
  import VersionFile

  /** What one time source answers during a call. */
  datatype Reading = Reading(isReference: bool, isClockProvider: bool, timeSec: int)

  /** The reply to a status query. */
  datatype StatusReply = StatusReply(quality: Quality, message: string, timerSrc: string)

  /** The clock and file-system answers met by setInitialTime. */
  datatype ClockAnswers = ClockAnswers(readable: bool, settable: bool)

  /** Greatest accepted lead of the reference over the other time, in seconds. */
  const MAX_DRIFT := 600

  // ---- Specification of the loops over sources ----

  /** The reading of the last reference source, 0 without one. */
  function LastReference(rs: seq<Reading>): int {
    if rs == [] then 0
    else if rs[|rs| - 1].isReference then rs[|rs| - 1].timeSec
    else LastReference(rs[..|rs| - 1])
  }

  /** The last non-zero reading of a source that is no reference, 0 without one. */
  function LastFileTime(rs: seq<Reading>): int {
    if rs == [] then 0
    else if !rs[|rs| - 1].isReference && rs[|rs| - 1].timeSec != 0 then rs[|rs| - 1].timeSec
    else LastFileTime(rs[..|rs| - 1])
  }

  function FilteredTime(rs: seq<Reading>): int {
    if LastReference(rs) - LastFileTime(rs) <= MAX_DRIFT then LastReference(rs) else 0
  }

  /** The reading of the first clock provider, 0 without one. */
  function ProviderTime(rs: seq<Reading>): int {
    if rs == [] then 0
    else if rs[0].isClockProvider then rs[0].timeSec
    else ProviderTime(rs[1..])
  }

  /** Each sync has received v. A sync is represented by the values it was given so far. */
  function SendAll(syncs: seq<seq<int>>, v: int): seq<seq<int>> {
    seq(|syncs|, i requires 0 <= i < |syncs| => syncs[i] + [v])
  }

  /** The value the handler of an event hands to every sync, if the event is handled. */
  function SyncValue(s: State, e: Event, rs: seq<Reading>): Option<int> {
    match Table(s, e)
    case None => None
    case Some(OnTimerExpiry) => Some(FilteredTime(rs))
    case Some(OnUpdateSecureTime) => Some(FilteredTime(rs))
    case Some(_) => Some(0)
  }

  /** The handlers that call checkTime on every source. */
  predicate ChecksSources(h: Option<Handler>) {
    h == Some(OnUpdateTime) || h == Some(OnUpdateClockRealTime)
  }

  /** The clock that a handler leaves: only one of them sets it. */
  function ClockHandled(clock: int, h: Option<Handler>, rs: seq<Reading>, settable: bool): int {
    if h == Some(OnUpdateClockRealTime) && settable && ProviderTime(rs) != 0 then ProviderTime(rs) else clock
  }

  predicate IsFileReading(r: Reading) {
    !r.isReference && r.timeSec != 0
  }

  /** The position of the last reference reading, -1 without one. */
  lemma {:induction false} LastReferenceIs(rs: seq<Reading>) returns (i: int)
    ensures -1 <= i < |rs| && forall j :: i < j < |rs| ==> !rs[j].isReference
    ensures if i < 0 then LastReference(rs) == 0 else rs[i].isReference && rs[i].timeSec == LastReference(rs)
  {
    i := |rs| - 1;
    if rs != [] && !rs[i].isReference {
      var front := rs[..i];
      i := LastReferenceIs(front);
      forall j | i < j < |rs| ensures !rs[j].isReference {
        assert j < |front| ==> rs[j] == front[j];
      }
    }
  }

  /** The position of the last file reading, -1 without one. */
  lemma {:induction false} LastFileTimeIs(rs: seq<Reading>) returns (i: int)
    ensures -1 <= i < |rs| && forall j :: i < j < |rs| ==> !IsFileReading(rs[j])
    ensures if i < 0 then LastFileTime(rs) == 0 else IsFileReading(rs[i]) && rs[i].timeSec == LastFileTime(rs)
  {
    i := |rs| - 1;
    if rs != [] && !IsFileReading(rs[i]) {
      var front := rs[..i];
      i := LastFileTimeIs(front);
      forall j | i < j < |rs| ensures !IsFileReading(rs[j]) {
        assert j < |front| ==> rs[j] == front[j];
      }
    }
  }

  /** Time handed out is a reference reading that does not lead the file time by more than 600 s,
      or the 0 that asks a sync to find the time itself. */
  lemma DriftFilter(rs: seq<Reading>)
    ensures FilteredTime(rs) != 0 ==>
              && FilteredTime(rs) <= LastFileTime(rs) + 600
              && exists i :: 0 <= i < |rs| && rs[i].isReference && FilteredTime(rs) == rs[i].timeSec
                             && forall j :: i < j < |rs| ==> !rs[j].isReference
    ensures LastFileTime(rs) != 0 ==>
              exists i :: 0 <= i < |rs| && IsFileReading(rs[i]) && LastFileTime(rs) == rs[i].timeSec
                          && forall j :: i < j < |rs| ==> !IsFileReading(rs[j])
    ensures LastFileTime(rs) == 0 <==> forall i :: 0 <= i < |rs| ==> !IsFileReading(rs[i])
  {
    var r := LastReferenceIs(rs);
    var f := LastFileTimeIs(rs);
  }

  /** What the filter answers, told by the positions of the last reference and of the last other non-zero
      reading, -1 for none: the reference, exactly if it leads the other by no more than 600 s. */
  lemma FilteredExactly(rs: seq<Reading>, r: int, f: int)
    requires -1 <= r < |rs| && (r >= 0 ==> rs[r].isReference) && forall j :: r < j < |rs| ==> !rs[j].isReference
    requires -1 <= f < |rs| && (f >= 0 ==> !rs[f].isReference && rs[f].timeSec != 0)
    requires forall j :: f < j < |rs| ==> rs[j].isReference || rs[j].timeSec == 0
    ensures var reftime := if r < 0 then 0 else rs[r].timeSec;
            var filetime := if f < 0 then 0 else rs[f].timeSec;
            FilteredTime(rs) == if reftime <= filetime + 600 then reftime else 0
  {
    var lastReference := LastReferenceIs(rs);
    var lastFile := LastFileTimeIs(rs);
    assert lastReference == r && lastFile == f;
  }

  /** Only the first clock provider is asked. */
  lemma {:induction false} FirstProvider(rs: seq<Reading>, i: nat)
    requires i <= |rs| && forall j :: 0 <= j < i ==> !rs[j].isClockProvider
    requires i < |rs| ==> rs[i].isClockProvider
    ensures ProviderTime(rs) == if i < |rs| then rs[i].timeSec else 0
  {
    if i > 0 {
      FirstProvider(rs[1..], i - 1);
    }
  }

  /** The sources are checked exactly on a timer expiry after the first one or after NTP or secure time,
      except in RUNNING. */
  lemma ChecksExactly(found: bool, h: seq<Input>, e: Event)
    ensures ChecksSources(Table(At(found, h).state, e)) <==>
            && e == TimerExpiry
            && (NtpSeen(h) || SecureHeld(h) || DttSeen(h) || TimerSeen(h)) && !(NtpSeen(h) && SecureHeld(h))
  {
    StateIsHistory(found, h);
  }

  /** The design asks for 0 whenever the two times drift apart by more than ten minutes. The filter
      does so exactly when the reference is not the one that is behind. */
  lemma DriftRejectedExactly(rs: seq<Reading>)
    ensures var drift := LastReference(rs) - LastFileTime(rs);
            ((drift > 600 || drift < -600) ==> FilteredTime(rs) == 0) <==> drift >= -600 || LastReference(rs) == 0
  {
  }

  /** A reference that is 9000 s behind the secure time is handed out. */
  lemma LaggingReferenceAccepted()
    ensures FilteredTime([Reading(true, false, 1000), Reading(false, false, 10000)]) == 1000
  {
    var rs := [Reading(true, false, 1000), Reading(false, false, 10000)];
    assert rs[..1] == [Reading(true, false, 1000)];
  }

  /** What an event hands to the syncs, told of the core it finds. */
  lemma SyncValueByCore(c: Core, e: Event, rs: seq<Reading>)
    requires c.state != Init
    ensures SyncValue(c.state, e, rs) ==
            if Table(c.state, e).None? then None
            else if Dispatch(c, e).state == Running then Some(FilteredTime(rs))
            else Some(0)
  {
  }

  /** The clock-file specification asks for the reference alone when the other sources return zero. The
      filter compares it with 0 then, and so complies exactly with references of up to 600. */
  lemma ZeroIgnoredExactly(rs: seq<Reading>)
    ensures (forall i :: 0 <= i < |rs| ==> !IsFileReading(rs[i])) ==>
              (FilteredTime(rs) == LastReference(rs) <==> LastReference(rs) <= 600)
  {
    var f := LastFileTimeIs(rs);
  }

  /** A present-day reference beside a source that returns zero is answered with 0. */
  lemma ReferenceLostToZero()
    ensures var rs := [Reading(true, false, 1700000000), Reading(false, false, 0)];
            LastReference(rs) == 1700000000 && FilteredTime(rs) == 0
  {
    var rs := [Reading(true, false, 1700000000), Reading(false, false, 0)];
    assert rs[..1] == [Reading(true, false, 1700000000)];
    ZeroIgnoredExactly(rs);
  }

  /** Over every history: an event that is handled hands the filtered reference time to the syncs
      exactly when it leaves the machine RUNNING, so only while NTP has been seen and secure time is
      held; any other handled event lets each sync find the time itself. */
  lemma ReferenceSavedExactlyWhenRunning(found: bool, h: seq<Input>, e: Event, rs: seq<Reading>)
    ensures SyncValue(At(found, h).state, e, rs) ==
            if Table(At(found, h).state, e).None? then None
            else if NtpSeen(h + [Ev(e)]) && SecureHeld(h + [Ev(e)]) then Some(FilteredTime(rs))
            else Some(0)
  {
    QualityMatchesState(found, h);
    SyncValueByCore(At(found, h), e, rs);
    ReplayStep(InitialCore(found), h, Ev(e));
    StateIsHistory(found, h + [Ev(e)]);
  }

  // ---- The recovered time ----

  /** The time that setInitialTime recovers from what the syncs return, in order; 0 means none. */
  function Recovered(saved: seq<int>): int {
    if saved == [] then 0 else saved[|saved| - 1]
  }

  predicate SomeNonZero(saved: seq<int>) {
    exists t :: t in saved && t != 0
  }

  /** The specification asks for a recovered time, with Poor quality, as soon as one sync returns one.
      The code does so exactly if the last sync returns one too, or none does. */
  lemma RecoversExactly(saved: seq<int>)
    ensures (SomeNonZero(saved) ==> InitialCore(Recovered(saved) != 0).quality == Poor) <==>
            saved == [] || saved[|saved| - 1] != 0 || forall t :: t in saved ==> t == 0
    ensures InitialCore(Recovered(saved) != 0).quality == Poor <==> Recovered(saved) != 0
  {
    if saved != [] && saved[|saved| - 1] != 0 {
      assert saved[|saved| - 1] in saved;
    }
  }

  /** A first sync returns 5, and a last one that could not read its time returns 0: nothing is
      recovered, and the quality stays unknown. */
  lemma RecoveryCanFail()
    ensures SomeNonZero([5, 0]) && Recovered([5, 0]) == 0 && InitialCore(Recovered([5, 0]) != 0).quality == Unknown
  {
    assert [5, 0][0] in [5, 0];
  }

  /** The clock that setInitialTime leaves, failures included. */
  function ClockRecovered(clock: int, loc: int, answers: ClockAnswers): int {
    if loc == 0 || (answers.readable && clock > loc) || !answers.settable then clock else loc
  }

  /** Failures included, the clock is never turned back knowingly, and never set to anything but the
      time recovered. */
  lemma ClockRecoveredExactly(clock: int, loc: int, answers: ClockAnswers)
    ensures ClockRecovered(clock, loc, answers) in {clock, loc}
    ensures answers.readable ==> ClockRecovered(clock, loc, answers) >= clock
    ensures answers.settable && loc != 0 ==> ClockRecovered(clock, loc, answers) >= loc
    ensures answers.settable && loc != 0 && !answers.readable ==> ClockRecovered(clock, loc, answers) == loc
    ensures !answers.settable || loc == 0 ==> ClockRecovered(clock, loc, answers) == clock
  {
  }

  // ---- The object ----

  class SysTimeMgr {
    var stateMachine: map<State, map<Event, Handler>>
    var m_state: State
    var m_event: Event
    var m_timequality: Quality
    var m_timersrc: string
    var m_timerSync: seq<seq<int>>
    var m_queue: seq<Event>
    var checked: seq<Reading>
    var published: seq<TimerMsg>
    var clock: int

    function Snapshot(): Core
      reads this
    {
      Core(m_state, m_timequality, m_timersrc, published)
    }

    function Lookup(s: State, e: Event): Option<Handler>
      reads this
    {
      if s in stateMachine && e in stateMachine[s] then Some(stateMachine[s][e]) else None
    }

    /** The map that initialize fills is the event table. */
    ghost predicate Ready()
      reads this
    {
      forall s, e :: Lookup(s, e) == Table(s, e)
    }

    constructor (syncs: nat, now: int)
      ensures Snapshot() == Core(Init, Unknown, "Last Known", [])
      ensures m_timerSync == seq(syncs, _ => []) && m_queue == [] && checked == []
      ensures clock == now && stateMachine == map[]
    {
      stateMachine := map[];
      m_state, m_event := Init, UnknownEvent;
      m_timequality, m_timersrc := Unknown, "Last Known";
      m_timerSync := seq(syncs, _ => []);
      m_queue, checked, published := [], [], [];
      clock := now;
    }

    method PublishStatus(event: PublishEvent, message: string)
      modifies this`published
      ensures Snapshot() == Publish(old(Snapshot()), event, message)
    {
      var msg := TimerMsg(event, m_timequality, m_timersrc, message);
      published := published + [msg];
    }

    method UpdateTimeSync(updateTime: int)
      modifies this`m_timerSync
      ensures m_timerSync == SendAll(old(m_timerSync), updateTime)
      ensures |m_timerSync| == |old(m_timerSync)|
      ensures forall k :: 0 <= k < |m_timerSync| ==> m_timerSync[k] == old(m_timerSync)[k] + [updateTime]
    {
      var i := 0;
      while i < |m_timerSync|
        invariant 0 <= i <= |m_timerSync| == |old(m_timerSync)|
        invariant forall k :: 0 <= k < i ==> m_timerSync[k] == old(m_timerSync)[k] + [updateTime]
        invariant forall k :: i <= k < |m_timerSync| ==> m_timerSync[k] == old(m_timerSync)[k]
      {
        m_timerSync := m_timerSync[i := m_timerSync[i] + [updateTime]];
        i := i + 1;
      }
    }

    method TimerExpiryHandler(readings: seq<Reading>)
      modifies this`m_timerSync
      ensures m_timerSync == SendAll(old(m_timerSync), FilteredTime(readings))
    {
      var reftime, filetime, updateTime := 0, 0, 0;
      var i := 0;
      while i < |readings|
        invariant 0 <= i <= |readings|
        invariant reftime == LastReference(readings[..i])
        invariant filetime == LastFileTime(readings[..i])
      {
        assert readings[..i + 1][..i] == readings[..i];
        if readings[i].isReference {
          reftime := readings[i].timeSec;
        } else {
          var tempTime := readings[i].timeSec;
          if tempTime != 0 {
            filetime := tempTime;
          }
        }
        i := i + 1;
      }
      assert readings[..i] == readings;
      if reftime - filetime <= MAX_DRIFT {
        updateTime := reftime;
      }
      UpdateTimeSync(updateTime);
    }

    /** checkTime is called once on each source, in order; its answer is discarded. */
    method UpdateTime(readings: seq<Reading>)
      modifies this`m_timerSync, this`checked
      ensures m_timerSync == SendAll(old(m_timerSync), 0)
      ensures checked == old(checked) + readings
    {
      UpdateTimeSync(0);
      var i := 0;
      while i < |readings|
        invariant 0 <= i <= |readings|
        invariant checked == old(checked) + readings[..i] && m_timerSync == SendAll(old(m_timerSync), 0)
      {
        checked := checked + [readings[i]];
        i := i + 1;
      }
      assert readings[..i] == readings;
    }

    method UpdateClockRealTime(readings: seq<Reading>, settable: bool)
      modifies this`m_timerSync, this`checked, this`clock
      ensures m_timerSync == SendAll(old(m_timerSync), 0) && checked == old(checked) + readings
      ensures clock == if ProviderTime(readings) != 0 && settable then ProviderTime(readings) else old(clock)
    {
      var locTime, clockAcquired := 0, false;
      var i := 0;
      while i < |readings|
        invariant 0 <= i <= |readings|
        invariant ProviderTime(readings) == if clockAcquired then locTime else ProviderTime(readings[i..])
        invariant !clockAcquired ==> locTime == 0
        invariant checked == old(checked) + readings[..i] && m_timerSync == old(m_timerSync) && clock == old(clock)
      {
        if readings[i].isClockProvider && !clockAcquired {
          locTime := readings[i].timeSec;
          clockAcquired := true;
        }
        checked := checked + [readings[i]];
        i := i + 1;
      }
      assert readings[..i] == readings;
      if locTime != 0 {
        if settable {
          clock := locTime;
        }
      }
      UpdateTimeSync(0);
    }

    method NtpFailed()
      modifies this`m_timerSync, this`m_state, this`published
      ensures Snapshot() == Apply(OnNtpFailed, old(Snapshot())) && m_timerSync == SendAll(old(m_timerSync), 0)
    {
      UpdateTimeSync(0);
      m_state := NtpFail;
      PublishStatus(NtpFailure, "Poor");
    }

    method NtpAquired()
      modifies this`m_timerSync, this`m_state, this`m_timequality, this`m_timersrc, this`published
      ensures Snapshot() == Apply(OnNtpAcquired, old(Snapshot())) && m_timerSync == SendAll(old(m_timerSync), 0)
    {
      UpdateTimeSync(0);
      m_timequality := Good;
      m_state := NtpAcquired;
      m_timersrc := "NTP";
      PublishStatus(NtpSuccess, "Good");
    }

    method UpdateSecureTime(readings: seq<Reading>)
      modifies this`m_timerSync, this`m_state, this`m_timequality, this`published
      ensures Snapshot() == Apply(OnUpdateSecureTime, old(Snapshot()))
      ensures m_timerSync == SendAll(old(m_timerSync), FilteredTime(readings))
    {
      TimerExpiryHandler(readings);
      m_state := Running;
      m_timequality := Secure;
      PublishStatus(SecureTimeSuccess, "Secure");
    }

    method SecureTimeAcquiredHandler()
      modifies this`m_timerSync, this`m_state, this`m_timequality
      ensures Snapshot() == Apply(OnSecureTimeAcquired, old(Snapshot()))
      ensures m_timerSync == SendAll(old(m_timerSync), 0)
    {
      UpdateTimeSync(0);
      m_timequality := Good;
      m_state := SecureTimeAcquired;
    }

    method DttAquired()
      modifies this`m_timerSync, this`m_state, this`m_timequality, this`m_timersrc, this`published
      ensures Snapshot() == Apply(OnDttAcquired, old(Snapshot())) && m_timerSync == SendAll(old(m_timerSync), 0)
    {
      UpdateTimeSync(0);
      m_timequality := Good;
      m_state := DttAcquired;
      m_timersrc := "DTT";
      PublishStatus(DttSuccess, "Good");
    }

    /** One table entry: stateMachine[s][e] = h. */
    method Enter(s: State, e: Event, h: Handler)
      modifies this`stateMachine
      ensures Lookup(s, e) == Some(h)
      ensures forall t, f :: (t, f) != (s, e) ==> Lookup(t, f) == old(Lookup(t, f))
    {
      var row := if s in stateMachine then stateMachine[s] else map[];
      stateMachine := stateMachine[s := row[e := h]];
    }

    /** saved holds what the syncs return from getTime, in order; the last one decides. */
    method SetInitialTime(saved: seq<int>, answers: ClockAnswers)
      modifies this`m_timequality, this`published, this`clock
      ensures var loc := if saved == [] then 0 else saved[|saved| - 1];
              && Snapshot() == (if loc == 0 then old(Snapshot())
                                else Publish(old(Snapshot()).(quality := Poor), TimeInitial, "Poor"))
              && clock == ClockRecovered(old(clock), loc, answers)
      ensures answers.readable && answers.settable ==>
                clock == SavedTime.ClockAfterInit(old(clock), Recovered(saved))
    {
      var locTime := 0;
      var i := 0;
      while i < |saved|
        invariant 0 <= i <= |saved|
        invariant locTime == if i == 0 then 0 else saved[i - 1]
      {
        locTime := saved[i];
        i := i + 1;
      }
      if locTime == 0 {
        return;
      }
      m_timequality := Poor;
      if answers.readable {
        var currenttime := clock;
        if currenttime > locTime {
          PublishStatus(TimeInitial, "Poor");
          return;
        }
      }
      if answers.settable {
        clock := locTime;
      }
      PublishStatus(TimeInitial, "Poor");
    }

    method EnterWaitRow()
      modifies this`stateMachine
      ensures forall s, e :: Lookup(s, e) ==
                if s == NtpWait && Table(s, e).Some? then Table(s, e) else old(Lookup(s, e))
    {
      Enter(NtpWait, TimerExpiry, OnNtpFailed);
      Enter(NtpWait, NtpAvailable, OnNtpAcquired);
      Enter(NtpWait, SecureTimeAvailable, OnSecureTimeAcquired);
    }

    method EnterFailRow()
      modifies this`stateMachine
      ensures forall s, e :: Lookup(s, e) ==
                if s == NtpFail && Table(s, e).Some? then Table(s, e) else old(Lookup(s, e))
    {
      Enter(NtpFail, DttTimeAvailable, OnDttAcquired);
      Enter(NtpFail, TimerExpiry, OnUpdateTime);
      Enter(NtpFail, NtpAvailable, OnNtpAcquired);
      Enter(NtpFail, SecureTimeAvailable, OnSecureTimeAcquired);
    }

    method EnterAcquiredRow()
      modifies this`stateMachine
      ensures forall s, e :: Lookup(s, e) ==
                if s == NtpAcquired && Table(s, e).Some? then Table(s, e) else old(Lookup(s, e))
    {
      Enter(NtpAcquired, SecureTimeAvailable, OnUpdateSecureTime);
      Enter(NtpAcquired, TimerExpiry, OnUpdateTime);
    }

    method EnterDttRow()
      modifies this`stateMachine
      ensures forall s, e :: Lookup(s, e) ==
                if s == DttAcquired && Table(s, e).Some? then Table(s, e) else old(Lookup(s, e))
    {
      Enter(DttAcquired, TimerExpiry, OnUpdateClockRealTime);
      Enter(DttAcquired, SecureTimeAvailable, OnSecureTimeAcquired);
      Enter(DttAcquired, NtpAvailable, OnNtpAcquired);
    }

    method EnterSecureRows()
      modifies this`stateMachine
      ensures forall s, e :: Lookup(s, e) ==
                if s in {SecureTimeAcquired, Running} && Table(s, e).Some? then Table(s, e) else old(Lookup(s, e))
    {
      Enter(Running, TimerExpiry, OnTimerExpiry);
      Enter(SecureTimeAcquired, NtpAvailable, OnUpdateSecureTime);
      Enter(SecureTimeAcquired, TimerExpiry, OnUpdateTime);
    }

    method Initialize(saved: seq<int>, answers: ClockAnswers)
      requires Snapshot() == Core(Init, Unknown, "Last Known", []) && stateMachine == map[]
      modifies this`stateMachine, this`m_state, this`m_timequality, this`published, this`clock
      ensures Ready()
      ensures Snapshot() == InitialCore(Recovered(saved) != 0)
      ensures clock == ClockRecovered(old(clock), Recovered(saved), answers)
      ensures answers.readable && answers.settable ==>
                clock == SavedTime.ClockAfterInit(old(clock), Recovered(saved))
    {
      SetInitialTime(saved, answers);
      EnterWaitRow();
      EnterFailRow();
      EnterAcquiredRow();
      EnterDttRow();
      EnterSecureRows();
      m_state := NtpWait;
    }

    /** The event is looked up in the table of the current state and its handler run. */
    method RunStateMachine(event: Event, readings: seq<Reading>, settable: bool)
      requires Ready()
      modifies this`m_event, this`m_state, this`m_timequality, this`m_timersrc
      modifies this`m_timerSync, this`checked, this`published, this`clock
      ensures Ready()
      ensures Snapshot() == Dispatch(old(Snapshot()), event)
      ensures m_event == if Table(old(m_state), event).Some? then event else old(m_event)
      ensures match SyncValue(old(m_state), event, readings)
              case None => m_timerSync == old(m_timerSync)
              case Some(v) => m_timerSync == SendAll(old(m_timerSync), v)
      ensures clock == ClockHandled(old(clock), Table(old(m_state), event), readings, settable)
      ensures checked == old(checked) + if ChecksSources(Table(old(m_state), event)) then readings else []
    {
      ghost var handler := Lookup(m_state, event);
      assert handler == Table(m_state, event);
      if m_state in stateMachine && event in stateMachine[m_state] {
        m_event := event;
        match stateMachine[m_state][event] {
          case OnTimerExpiry => TimerExpiryHandler(readings);
          case OnNtpFailed => NtpFailed();
          case OnNtpAcquired => NtpAquired();
          case OnUpdateSecureTime => UpdateSecureTime(readings);
          case OnSecureTimeAcquired => SecureTimeAcquiredHandler();
          case OnDttAcquired => DttAquired();
          case OnUpdateTime => UpdateTime(readings);
          case OnUpdateClockRealTime => UpdateClockRealTime(readings, settable);
        }
      }
    }

    /** The section of sendMessage that holds m_queue_mutex. */
    method SendMessage(event: Event)
      modifies this`m_queue
      ensures m_queue == old(m_queue) + [event]
    {
      m_queue := m_queue + [event];
    }

    /** One round of processMsg with a non-empty queue. */
    method ProcessOne(readings: seq<Reading>, settable: bool)
      requires Ready() && m_queue != []
      modifies this
      ensures Ready()
      ensures m_queue == old(m_queue)[1..]
      ensures Snapshot() == Dispatch(old(Snapshot()), old(m_queue)[0])
      ensures match SyncValue(old(m_state), old(m_queue)[0], readings)
              case None => m_timerSync == old(m_timerSync)
              case Some(v) => m_timerSync == SendAll(old(m_timerSync), v)
      ensures clock == ClockHandled(old(clock), Table(old(m_state), old(m_queue)[0]), readings, settable)
      ensures checked == old(checked) + if ChecksSources(Table(old(m_state), old(m_queue)[0])) then readings else []
    {
      var val := m_queue[0];
      m_queue := m_queue[1..];
      RunStateMachine(val, readings, settable);
    }

    method DeepSleepOff(r: ChronyControl.Replies) returns (calls: seq<ChronyControl.Call>)
      modifies this`m_state, this`m_timequality, this`m_timersrc, this`published
      ensures Snapshot() == WakeUp(old(Snapshot()))
      ensures calls == ChronyControl.RestartCalls(r)
      ensures (exists c :: c in calls && c.Makestep?) <==> r.timesyncdActive != 0 && r.chronydActive == 0
    {
      if m_timequality == Secure {
        m_timequality := Good;
        m_state := NtpAcquired;
      }
      m_timersrc := "Last Known";
      var message := "";
      match m_timequality {
        case Poor => message := "Poor";
        case Good => message := "Good";
        case Secure => message := "Secure";
        case _ => message := "Unknown";
      }
      PublishStatus(DeepSleepOn, message);
      calls := ChronyControl.RestartTimeService(r);
    }

    /** The answer to a query, whose text always belongs to its quality. */
    method GetTimeStatus() returns (reply: StatusReply)
      ensures reply == StatusReply(m_timequality, Label(m_timequality), m_timersrc)
      ensures reply.message == match m_timequality
                               case Poor => "Poor" case Good => "Good" case Secure => "Secure" case Unknown => "Unknown"
    {
      var populatedString := "";
      match m_timequality {
        case Poor => populatedString := "Poor";
        case Good => populatedString := "Good";
        case Secure => populatedString := "Secure";
        case _ => populatedString := "Unknown";
      }
      reply := StatusReply(m_timequality, populatedString, m_timersrc);
    }

    /** powerhandler. */
    method PowerHandler(message: string, r: ChronyControl.Replies) returns (ret: int)
      modifies this`m_state, this`m_timequality, this`m_timersrc, this`published
      ensures ret == 1
      ensures Snapshot() == if message == "DEEP_SLEEP_OFF" then WakeUp(old(Snapshot())) else old(Snapshot())
    {
      if message == "DEEP_SLEEP_OFF" {
        var _ := DeepSleepOff(r);
      }
      ret := 1;
    }
  }

  /** A boot with rdkdefault as the only sync, up to the end of initialize: if the clock can be read and
      set it is the one that the theorem on reboots speaks of, and listeners are told Poor exactly when
      a time was found. */
  method Boot(session: SavedTime.Session, file: Option<int>, version: Option<string>, parseTime: string -> Option<int>,
              answers: ClockAnswers)
    returns (mgr: SysTimeMgr, sync: SavedTime.RdkDefaultTimeSync)
    requires session.build == VersionFile.BuildTimeOf(version, parseTime)
    ensures fresh(mgr) && fresh(sync) && mgr.Ready()
    ensures mgr.clock == ClockRecovered(session.hardwareClock, SavedTime.LoadedTime(file, session), answers)
    ensures answers == ClockAnswers(true, true) ==> mgr.clock == SavedTime.BootClock(file, session)
    ensures sync.m_currentTime == SavedTime.LoadedTime(file, session) && sync.clockFile == file
    ensures mgr.Snapshot() == InitialCore(SavedTime.LoadedTime(file, session) != 0)
  {
    mgr := new SysTimeMgr(1, session.hardwareClock);
    sync := new SavedTime.RdkDefaultTimeSync(file);
    var loaded := sync.GetTime(version, parseTime);
    mgr.Initialize([loaded], answers);
  }
}
