/** The manager and its saved time together: over every history of events and clock readings, where
    the time handed to rdkdefault comes from, and when the manager itself makes an update stale. */
module ManagedTime {
  import opened TimeTypes
  import opened StateMachine
  import opened SystemTimeManager
  import opened SavedTime
  import ChronyControl

  /** One input as it is handled: the clock found then, what the sources answer, and whether the clock
      can be set. */
  datatype Moment = Moment(input: Input, clock: int, readings: seq<Reading>, settable: bool)

  /** What a moment makes the sync save, if anything: the clock, the time of a provider to which the
      clock has just been set, or a reference time. */
  datatype Handed = Nothing | FromClock | FromProvider(time: int) | FromReference(time: int)

  function HandedBy(s: State, m: Moment): Handed {
    match m.input
    case Wake => Nothing
    case Ev(e) =>
      match SyncValue(s, e, m.readings)
      case None => Nothing
      case Some(v) =>
        var provided := ProviderTime(m.readings);
        if v != 0 then FromReference(v)
        else if Table(s, e) == Some(OnUpdateClockRealTime) && m.settable && provided != 0 then FromProvider(provided)
        else FromClock
  }

  /** The clock found at a moment and what the moment handed out. */
  datatype Record = Record(clock: int, handed: Handed)

  /** The effective update, if any. */
  function UpdateOf(r: Record): Option<int> {
    match r.handed
    case Nothing => None
    case FromClock => Some(r.clock)
    case FromProvider(t) => Some(t)
    case FromReference(t) => Some(t)
  }

  /** The clock once the moment is over. */
  function ClockLeft(r: Record): int {
    match r.handed case FromProvider(t) => t case _ => r.clock
  }

  // ---- Records of a run ----

  function Updates(rs: seq<Record>): seq<int> {
    if rs == [] then []
    else Updates(rs[..|rs| - 1]) + match UpdateOf(rs[|rs| - 1]) case None => [] case Some(u) => [u]
  }

  function ClockAfter(boot: int, rs: seq<Record>): int {
    if rs == [] then boot else ClockLeft(rs[|rs| - 1])
  }

  /** The clock found is not behind the clock left by the moment before. */
  predicate ForwardAt(boot: int, rs: seq<Record>, i: nat)
    requires i < |rs|
  {
    (if i == 0 then boot else ClockLeft(rs[i - 1])) <= rs[i].clock
  }

  /** Nobody but the manager turns the clock back. */
  predicate ClockForward(boot: int, rs: seq<Record>) {
    forall i: nat | i < |rs| :: ForwardAt(boot, rs, i)
  }

  /** The j-th moment handed out a reference time that the clock of the i-th has not reached. */
  predicate AheadOfClock(rs: seq<Record>, j: nat, i: nat)
    requires j < i < |rs|
  {
    rs[j].handed.FromReference? && rs[j].handed.time > rs[i].clock
  }

  /** The three ways in which the manager turns the time back: a provider or a reference behind the
      latest time seen before, or the clock behind a reference handed out before. */
  predicate TurnedBackAt(loaded: int, rs: seq<Record>, i: nat)
    requires i < |rs|
  {
    match rs[i].handed
    case Nothing => false
    case FromProvider(t) => t < MaxOf(loaded, Updates(rs[..i]))
    case FromReference(t) => t < MaxOf(loaded, Updates(rs[..i]))
    case FromClock => exists j: nat | j < i :: AheadOfClock(rs, j, i)
  }

  predicate NeverTurnedBack(loaded: int, rs: seq<Record>) {
    forall i: nat | i < |rs| :: !TurnedBackAt(loaded, rs, i)
  }

  lemma UpdatesAppend(rs: seq<Record>, r: Record)
    ensures match UpdateOf(r)
            case None => Updates(rs + [r]) == Updates(rs)
            case Some(u) =>
              var us := Updates(rs + [r]);
              us == Updates(rs) + [u] && us[..|us| - 1] == Updates(rs)
  {
    assert (rs + [r])[..|rs|] == rs;
  }

  lemma {:induction false} ReferenceIsUpdate(rs: seq<Record>, j: nat)
    requires j < |rs| && rs[j].handed.FromReference?
    ensures rs[j].handed.time in Updates(rs)
  {
    var n := |rs| - 1;
    if j < n {
      ReferenceIsUpdate(rs[..n], j);
    }
  }

  lemma ForwardAppend(boot: int, rs: seq<Record>, r: Record)
    ensures ClockForward(boot, rs + [r]) <==> ClockForward(boot, rs) && ClockAfter(boot, rs) <= r.clock
  {
    var more := rs + [r];
    forall i: nat | i < |rs| ensures ForwardAt(boot, more, i) == ForwardAt(boot, rs, i) {
    }
    assert ForwardAt(boot, more, |rs|) <==> ClockAfter(boot, rs) <= r.clock;
    if ClockForward(boot, more) {
      forall i: nat | i < |rs| ensures ForwardAt(boot, rs, i) {
        assert ForwardAt(boot, more, i);
      }
    }
  }

  lemma TurnedBackAppend(loaded: int, rs: seq<Record>, r: Record)
    ensures NeverTurnedBack(loaded, rs + [r]) <==> NeverTurnedBack(loaded, rs) && !TurnedBackAt(loaded, rs + [r], |rs|)
  {
    var more := rs + [r];
    forall i: nat | i < |rs| ensures TurnedBackAt(loaded, more, i) == TurnedBackAt(loaded, rs, i) {
      assert more[..i] == rs[..i];
      assert forall j: nat | j < i :: AheadOfClock(more, j, i) == AheadOfClock(rs, j, i);
    }
    if NeverTurnedBack(loaded, more) {
      forall i: nat | i < |rs| ensures !TurnedBackAt(loaded, rs, i) {
        assert !TurnedBackAt(loaded, more, i);
      }
    }
  }

  // ---- When an update is stale ----

  predicate HandsOut(r: Record, t: int) { r.handed == FromReference(t) }

  /** The time held does not lead the clock, except by being a reference handed out. */
  predicate HeldExplained(boot: int, loaded: int, rs: seq<Record>) {
    var held := HeldAfter(loaded, Updates(rs));
    held <= ClockAfter(boot, rs) || exists j: nat | j < |rs| :: HandsOut(rs[j], held)
  }

  /** A clock reading that comes next is behind the time held exactly if it is behind a reference that
      was handed out. */
  lemma BehindExactly(boot: int, loaded: int, rs: seq<Record>, r: Record)
    requires HeldExplained(boot, loaded, rs) && ClockAfter(boot, rs) <= r.clock
    ensures r.clock < HeldAfter(loaded, Updates(rs)) <==> exists j: nat | j < |rs| :: AheadOfClock(rs + [r], j, |rs|)
  {
    var held := HeldAfter(loaded, Updates(rs));
    if r.clock < held {
      var j: nat :| j < |rs| && HandsOut(rs[j], held);
      assert AheadOfClock(rs + [r], j, |rs|);
    }
    if j: nat :| j < |rs| && AheadOfClock(rs + [r], j, |rs|) {
      ReferenceIsUpdate(rs, j);
      HeldBounds(loaded, Updates(rs));
      MaxOfIsMaximum(loaded, Updates(rs));
    }
  }

  /** After updates none of which was stale, the next one is stale exactly in the three ways. */
  lemma NextStaleExactly(boot: int, loaded: int, rs: seq<Record>, r: Record)
    requires StaleCount(loaded, Updates(rs)) == 0
    requires HeldExplained(boot, loaded, rs) && ClockAfter(boot, rs) <= r.clock && r.handed != Nothing
    ensures LastStale(loaded, Updates(rs + [r])) <==> TurnedBackAt(loaded, rs + [r], |rs|)
  {
    UpdatesAppend(rs, r);
    HeldBounds(loaded, Updates(rs));
    BehindExactly(boot, loaded, rs, r);
    assert (rs + [r])[..|rs|] == rs;
  }

  lemma HeldExplainedStep(boot: int, loaded: int, rs: seq<Record>, r: Record)
    requires HeldExplained(boot, loaded, rs) && ClockAfter(boot, rs) <= r.clock
    requires r.handed == Nothing || !LastStale(loaded, Updates(rs + [r]))
    ensures HeldExplained(boot, loaded, rs + [r])
  {
    var more, held := rs + [r], HeldAfter(loaded, Updates(rs));
    UpdatesAppend(rs, r);
    if r.handed == Nothing {
      if held > r.clock {
        var j: nat :| j < |rs| && HandsOut(rs[j], held);
        assert HandsOut(more[j], held);
      }
    } else {
      assert r.handed.FromReference? ==> HandsOut(more[|rs|], r.handed.time);
    }
  }

  lemma StaleCountAppend(loaded: int, rs: seq<Record>, r: Record)
    ensures StaleCount(loaded, Updates(rs + [r])) == StaleCount(loaded, Updates(rs)) +
            if r.handed != Nothing && LastStale(loaded, Updates(rs + [r])) then 1 else 0
  {
    UpdatesAppend(rs, r);
  }

  lemma {:induction false} StaleExactly(boot: int, loaded: int, rs: seq<Record>)
    requires loaded <= boot && ClockForward(boot, rs)
    ensures StaleCount(loaded, Updates(rs)) == 0 <==> NeverTurnedBack(loaded, rs)
    ensures StaleCount(loaded, Updates(rs)) == 0 ==> HeldExplained(boot, loaded, rs)
  {
    if rs != [] {
      var front, r := rs[..|rs| - 1], rs[|rs| - 1];
      assert rs == front + [r];
      ForwardAppend(boot, front, r);
      StaleExactly(boot, loaded, front);
      TurnedBackAppend(loaded, front, r);
      StaleCountAppend(loaded, front, r);
      if StaleCount(loaded, Updates(front)) == 0 {
        if r.handed != Nothing {
          NextStaleExactly(boot, loaded, front, r);
        }
        if StaleCount(loaded, Updates(rs)) == 0 {
          HeldExplainedStep(boot, loaded, front, r);
        }
      }
    }
  }

  // ---- Histories ----

  function Inputs(ms: seq<Moment>): seq<Input> {
    seq(|ms|, i requires 0 <= i < |ms| => ms[i].input)
  }

  /** The records of a history: what each moment hands out is told by the history before it. */
  function Trace(ms: seq<Moment>): seq<Record> {
    seq(|ms|, i requires 0 <= i < |ms| => Record(ms[i].clock, HandedBy(StateOf(Inputs(ms[..i])), ms[i])))
  }

  /** The clock is set from a provider only on a timer expiry with DTT as the best time, and a reference
      is handed out only by an event that is handled and leaves NTP seen and secure time held. */
  lemma HandedByHistory(h: seq<Input>, m: Moment)
    ensures HandedBy(StateOf(h), m).FromProvider? <==>
            && m.input == Ev(TimerExpiry) && DttSeen(h) && !NtpSeen(h) && !SecureHeld(h)
            && m.settable && ProviderTime(m.readings) != 0
    ensures HandedBy(StateOf(h), m).FromReference? <==>
            && m.input.Ev? && Table(StateOf(h), m.input.event).Some?
            && NtpSeen(h + [m.input]) && SecureHeld(h + [m.input]) && FilteredTime(m.readings) != 0
    ensures HandedBy(StateOf(h), m) == Nothing <==> m.input == Wake || Table(StateOf(h), m.input.event).None?
    ensures match HandedBy(StateOf(h), m)
            case FromProvider(t) => t == ProviderTime(m.readings)
            case FromReference(t) => t == FilteredTime(m.readings)
            case _ => true
  {
    StateIsHistory(true, h);
    if m.input.Ev? {
      ClockSetExactly(true, h, m.input.event);
      ReferenceSavedExactlyWhenRunning(true, h, m.input.event, m.readings);
    }
  }

  /** Over every history in which nobody else turns the clock back: no update is stale, and so the file
      equals the time held after every update, exactly if the manager never hands out a provider or
      reference time behind the latest time seen, and never the clock behind a reference handed out
      before. */
  lemma ManagerKeepsTimeExactly(boot: int, loaded: int, ms: seq<Moment>)
    requires loaded <= boot && ClockForward(boot, Trace(ms))
    ensures StaleCount(loaded, Updates(Trace(ms))) == 0 <==> NeverTurnedBack(loaded, Trace(ms))
    ensures FileFollows(loaded, Updates(Trace(ms))) <==> NeverTurnedBack(loaded, Trace(ms))
  {
    StaleExactly(boot, loaded, Trace(ms));
    FollowsExactly(loaded, Updates(Trace(ms)));
  }

  /** A session whose updates come from the manager: if it never turns the time back, the next boot
      starts from no less than the time held, whatever build time it finds. */
  lemma NextBootKeepsTime(file: Option<int>, s: Session, ms: seq<Moment>, next: Session)
    requires Dated(file, s) && Effectives(s.updates) == Updates(Trace(ms)) && s.updates != []
    requires ClockForward(BootClock(file, s), Trace(ms)) && NeverTurnedBack(LoadedTime(file, s), Trace(ms))
    ensures var held := HeldAfter(LoadedTime(file, s), Effectives(s.updates));
            LoadedTime(FileAfter(file, s), next) >= held >= LoadedTime(file, s)
  {
    var loaded, us := LoadedTime(file, s), Effectives(s.updates);
    InitialClockIsLatest(file, s);
    ManagerKeepsTimeExactly(BootClock(file, s), loaded, ms);
    assert us[..|us|] == us;
    HeldBounds(loaded, us);
  }

  // ---- Any number of boots ----

  /** The calls of updateTime that a record makes. */
  function CallOf(r: Record): seq<Update> {
    match r.handed
    case Nothing => []
    case FromClock => [Update(0, r.clock)]
    case FromProvider(t) => [Update(0, t)]
    case FromReference(t) => [Update(t, r.clock)]
  }

  function CallsOf(rs: seq<Record>): seq<Update> {
    if rs == [] then [] else CallsOf(rs[..|rs| - 1]) + CallOf(rs[|rs| - 1])
  }

  lemma {:induction false} CallsAreUpdates(rs: seq<Record>)
    requires forall i: nat | i < |rs| :: !HandsOut(rs[i], 0)
    ensures Effectives(CallsOf(rs)) == Updates(rs)
  {
    if rs != [] {
      var n := |rs| - 1;
      CallsAreUpdates(rs[..n]);
      assert !HandsOut(rs[n], 0);
      EffectivesAppend(CallsOf(rs[..n]), CallOf(rs[n]));
    }
  }

  /** A boot under the manager: the hardware clock and the build time found, and its history. */
  datatype ManagedBoot = ManagedBoot(hardwareClock: int, build: int, moments: seq<Moment>)

  function SessionOf(b: ManagedBoot): Session {
    Session(b.hardwareClock, b.build, CallsOf(Trace(b.moments)))
  }

  function Sessions(bs: seq<ManagedBoot>): seq<Session> {
    seq(|bs|, i requires 0 <= i < |bs| => SessionOf(bs[i]))
  }

  /** Nobody but the manager turns the clock back in this boot, which finds a date. */
  predicate Forward(file: Option<int>, b: ManagedBoot) {
    Dated(file, SessionOf(b)) && ClockForward(BootClock(file, SessionOf(b)), Trace(b.moments))
  }

  predicate NotTurnedBackIn(file: Option<int>, b: ManagedBoot) {
    NeverTurnedBack(LoadedTime(file, SessionOf(b)), Trace(b.moments))
  }

  /** One boot has no stale update exactly if the manager never turns the time back in it. */
  lemma FreshExactly(file: Option<int>, b: ManagedBoot)
    requires Forward(file, b)
    ensures Fresh(file, SessionOf(b)) <==> NotTurnedBackIn(file, b)
  {
    var s := SessionOf(b);
    CallsAreUpdates(Trace(b.moments));
    InitialClockIsLatest(file, s);
    ManagerKeepsTimeExactly(BootClock(file, s), LoadedTime(file, s), b.moments);
  }

  /** Any number of boots under the manager, with any hardware clocks and histories in which nobody else
      turns the clock back: every boot keeps time, exactly if the manager never turns the time back in
      any of them; and then the saved time never decreases from one boot to any later one. */
  lemma ManagedRebootsKeepTimeExactly(file: Option<int>, bs: seq<ManagedBoot>)
    requires forall k: nat | k < |bs| :: Forward(FileAt(file, Sessions(bs), k), bs[k])
    ensures var ss := Sessions(bs);
            && ((forall k: nat | k < |bs| :: KeepsTime(file, FileAt(file, ss, k), ss[k])) <==>
                (forall k: nat | k < |bs| :: NotTurnedBackIn(FileAt(file, ss, k), bs[k])))
            && ((forall k: nat | k < |bs| :: NotTurnedBackIn(FileAt(file, ss, k), bs[k])) ==>
                FileNeverDecreases(file, ss))
  {
    var ss := Sessions(bs);
    forall k: nat | k < |bs|
      ensures Fresh(FileAt(file, ss, k), ss[k]) <==> NotTurnedBackIn(FileAt(file, ss, k), bs[k])
      ensures KeepsTime(file, FileAt(file, ss, k), ss[k]) ==> Fresh(FileAt(file, ss, k), ss[k])
    {
      FreshExactly(FileAt(file, ss, k), bs[k]);
    }
    if AllFresh(file, ss) {
      FreshRebootsKeepTime(file, ss);
    }
  }

  // ---- A provider that turns the time back ----

  lemma StatesUntilDtt()
    ensures StateOf([]) == NtpWait
    ensures StateOf([Ev(TimerExpiry)]) == NtpFail
    ensures StateOf([Ev(TimerExpiry), Ev(DttTimeAvailable)]) == DttAcquired
  {
    var h := [Ev(TimerExpiry)];
    assert h + [Ev(DttTimeAvailable)] == [Ev(TimerExpiry), Ev(DttTimeAvailable)];
    DttSeenStep(h, Ev(DttTimeAvailable));
  }

  /** A timer expiry, a DTT event, and another timer expiry at which a DTT provider answers 500; the
      clock stands at 1000. */
  const DTT_BEHIND := [
    Moment(Ev(TimerExpiry), 1000, [], true), Moment(Ev(DttTimeAvailable), 1000, [], true),
    Moment(Ev(TimerExpiry), 1000, [Reading(false, true, 500)], true)]

  lemma TraceOfDttBehind()
    ensures Trace(DTT_BEHIND) == [Record(1000, FromClock), Record(1000, FromClock), Record(1000, FromProvider(500))]
  {
    var ms := DTT_BEHIND;
    StatesUntilDtt();
    assert Inputs(ms[..0]) == [];
    assert Inputs(ms[..1]) == [Ev(TimerExpiry)];
    assert Inputs(ms[..2]) == [Ev(TimerExpiry), Ev(DttTimeAvailable)];
  }

  lemma HeldAfterProvider()
    ensures HeldAfter(1000, [1000, 1000]) == 1000 && HeldAfter(1000, [1000, 1000, 500]) == 1600
  {
    assert [1000, 1000, 500][..2] == [1000, 1000] && [1000, 1000][..1] == [1000] && [1000][..0] == [];
  }

  lemma UpdatesOfTwo(a: Record, b: Record)
    requires UpdateOf(a).Some? && UpdateOf(b).Some?
    ensures Updates([a, b]) == [UpdateOf(a).value, UpdateOf(b).value]
  {
    assert [a, b] == [a] + [b] && [a] == [] + [a];
    UpdatesAppend([], a);
    UpdatesAppend([a], b);
  }

  lemma UpdatesOfThree(a: Record, b: Record, c: Record)
    requires UpdateOf(a).Some? && UpdateOf(b).Some? && UpdateOf(c).Some?
    ensures Updates([a, b, c]) == [UpdateOf(a).value, UpdateOf(b).value, UpdateOf(c).value]
  {
    assert [a, b, c] == [a, b] + [c];
    UpdatesOfTwo(a, b);
    UpdatesAppend([a, b], c);
  }

  /** The manager makes an update stale by itself: without NTP, a DTT provider behind the time held
      sets the clock back, 1600 is held, and the file and the next boot have 500. */
  lemma ProviderCanTurnBack()
    ensures var rs := Trace(DTT_BEHIND);
            && ClockForward(1000, rs) && Updates(rs) == [1000, 1000, 500]
            && TurnedBackAt(1000, rs, 2) && HeldAfter(1000, Updates(rs)) == 1600
  {
    TraceOfDttBehind();
    var rs := Trace(DTT_BEHIND);
    UpdatesOfTwo(rs[0], rs[1]);
    UpdatesOfThree(rs[0], rs[1], rs[2]);
    HeldAfterProvider();
    assert rs[..2] == [rs[0], rs[1]];
  }

  // ---- The objects ----

  /** The manager with rdkdefault as its only sync: what one input does to both, in the terms above;
      writable says whether the file can be written. */
  method Handle(mgr: SysTimeMgr, sync: RdkDefaultTimeSync, m: Moment, replies: ChronyControl.Replies, writable: bool)
    requires mgr.Ready() && mgr.clock == m.clock && |mgr.m_timerSync| == 1
    modifies mgr, sync
    ensures mgr.Ready() && |mgr.m_timerSync| == 1
    ensures mgr.Snapshot() == Step(old(mgr.Snapshot()), m.input)
    ensures var r := Record(m.clock, HandedBy(old(mgr.m_state), m));
            && mgr.clock == ClockLeft(r)
            && match UpdateOf(r)
               case None => sync.m_currentTime == old(sync.m_currentTime) && sync.clockFile == old(sync.clockFile)
               case Some(u) =>
                 && sync.m_currentTime == Hold(old(sync.m_currentTime), u)
                 && sync.clockFile == if writable then Some(u) else old(sync.clockFile)
  {
    var received := |mgr.m_timerSync[0]|;
    match m.input {
      case Wake =>
        var _ := mgr.PowerHandler("DEEP_SLEEP_OFF", replies);
      case Ev(e) =>
        mgr.RunStateMachine(e, m.readings, m.settable);
    }
    if |mgr.m_timerSync[0]| > received {
      sync.UpdateTime(mgr.m_timerSync[0][received], mgr.clock, writable);
    }
  }
}
