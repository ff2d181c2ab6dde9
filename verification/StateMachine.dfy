/** The event table of the manager, what its handlers do to the visible state, and the theorem
    that the state reached is a closed-form function of the history of events and wake-ups. */
module StateMachine {
  import opened TimeTypes

  /** The part of the manager that g_state_mutex guards and that other components can see. */
  datatype Core = Core(state: State, quality: Quality, source: string, published: seq<TimerMsg>)

  datatype Handler =
    | OnTimerExpiry
    | OnNtpFailed
    | OnNtpAcquired
    | OnUpdateSecureTime
    | OnSecureTimeAcquired
    | OnDttAcquired
    | OnUpdateTime
    | OnUpdateClockRealTime

  function Table(s: State, e: Event): Option<Handler> {
    match (s, e)
    case (Running, TimerExpiry) => Some(OnTimerExpiry)
    case (NtpWait, TimerExpiry) => Some(OnNtpFailed)
    case (NtpWait, NtpAvailable) => Some(OnNtpAcquired)
    case (NtpWait, SecureTimeAvailable) => Some(OnSecureTimeAcquired)
    case (NtpAcquired, SecureTimeAvailable) => Some(OnUpdateSecureTime)
    case (NtpAcquired, TimerExpiry) => Some(OnUpdateTime)
    case (NtpFail, DttTimeAvailable) => Some(OnDttAcquired)
    case (NtpFail, TimerExpiry) => Some(OnUpdateTime)
    case (NtpFail, NtpAvailable) => Some(OnNtpAcquired)
    case (NtpFail, SecureTimeAvailable) => Some(OnSecureTimeAcquired)
    case (DttAcquired, TimerExpiry) => Some(OnUpdateClockRealTime)
    case (DttAcquired, SecureTimeAvailable) => Some(OnSecureTimeAcquired)
    case (DttAcquired, NtpAvailable) => Some(OnNtpAcquired)
    case (SecureTimeAcquired, NtpAvailable) => Some(OnUpdateSecureTime)
    case (SecureTimeAcquired, TimerExpiry) => Some(OnUpdateTime)
    case _ => None
  }

  /** One broadcast, stamped with the quality and the source of this moment. */
  function Publish(c: Core, e: PublishEvent, text: string): Core {
    c.(published := c.published + [TimerMsg(e, c.quality, c.source, text)])
  }

  function Apply(h: Handler, c: Core): Core {
    match h
    case OnNtpFailed => Publish(c.(state := NtpFail), NtpFailure, "Poor")
    case OnNtpAcquired => Publish(c.(state := NtpAcquired, quality := Good, source := "NTP"), NtpSuccess, "Good")
    case OnUpdateSecureTime => Publish(c.(state := Running, quality := Secure), SecureTimeSuccess, "Secure")
    case OnSecureTimeAcquired => c.(state := SecureTimeAcquired, quality := Good)
    case OnDttAcquired => Publish(c.(state := DttAcquired, quality := Good, source := "DTT"), DttSuccess, "Good")
    case OnTimerExpiry => c
    case OnUpdateTime => c
    case OnUpdateClockRealTime => c
  }

  function Dispatch(c: Core, e: Event): Core {
    match Table(c.state, e)
    case Some(h) => Apply(h, c)
    case None => c
  }

  /** Waking from deep sleep. */
  function WakeUp(c: Core): Core {
    var d := if c.quality == Secure then c.(state := NtpAcquired, quality := Good) else c;
    Publish(d.(source := "Last Known"), DeepSleepOn, Label(d.quality))
  }

  // ---- Runs ----

  datatype Input = Ev(event: Event) | Wake

  function Step(c: Core, x: Input): Core {
    match x
    case Ev(e) => Dispatch(c, e)
    case Wake => WakeUp(c)
  }

  /** The core once the inputs of h have been handled in order. */
  function Replay(c: Core, h: seq<Input>): Core {
    if h == [] then c else Step(Replay(c, h[..|h| - 1]), h[|h| - 1])
  }

  /** The core when initialize returns; found says whether a non-zero saved or build time existed. */
  function InitialCore(found: bool): Core {
    if found then Publish(Core(NtpWait, Poor, "Last Known", []), TimeInitial, "Poor")
    else Core(NtpWait, Unknown, "Last Known", [])
  }

  function At(found: bool, h: seq<Input>): Core {
    Replay(InitialCore(found), h)
  }

  lemma ReplayStep(c: Core, h: seq<Input>, x: Input)
    ensures Replay(c, h + [x]) == Step(Replay(c, h), x)
  {
    assert (h + [x])[..|h + [x]| - 1] == h;
  }

  // ---- The history, described without the machine ----

  predicate NtpSeen(h: seq<Input>) { Ev(NtpAvailable) in h }

  predicate TimerSeen(h: seq<Input>) { Ev(TimerExpiry) in h }

  predicate DttAt(h: seq<Input>, i: nat)
    requires i < |h|
  {
    h[i] == Ev(DttTimeAvailable) && TimerSeen(h[..i])
  }

  /** A DTT event came after some timer expiry. */
  predicate DttSeen(h: seq<Input>) {
    exists i: nat | i < |h| :: DttAt(h, i)
  }

  /** The input at j is a wake-up that came after some NTP event. */
  predicate Undoes(h: seq<Input>, j: nat)
    requires j < |h|
  {
    h[j] == Wake && NtpSeen(h[..j])
  }

  /** Every wake-up after position i came before any NTP event. */
  predicate NoWakeUndoes(h: seq<Input>, i: nat) {
    forall j: nat | i < j < |h| :: !Undoes(h, j)
  }

  predicate SecureAt(h: seq<Input>, i: nat)
    requires i < |h|
  {
    h[i] == Ev(SecureTimeAvailable) && NoWakeUndoes(h, i)
  }

  /** Some secure-time event has not been undone by a wake-up. */
  predicate SecureHeld(h: seq<Input>) {
    exists i: nat | i < |h| :: SecureAt(h, i)
  }

  function Classify(ntp: bool, secure: bool, dtt: bool, timer: bool): State {
    if ntp && secure then Running
    else if ntp then NtpAcquired
    else if secure then SecureTimeAcquired
    else if dtt then DttAcquired
    else if timer then NtpFail
    else NtpWait
  }

  function StateOf(h: seq<Input>): State {
    Classify(NtpSeen(h), SecureHeld(h), DttSeen(h), TimerSeen(h))
  }

  function QualityOf(found: bool, s: State): Quality {
    match s
    case Running => Secure
    case NtpAcquired => Good
    case DttAcquired => Good
    case SecureTimeAcquired => Good
    case _ => if found then Poor else Unknown
  }

  // ---- How the history changes by one input ----

  lemma DttSeenStep(h: seq<Input>, x: Input)
    ensures DttSeen(h + [x]) == (DttSeen(h) || (x == Ev(DttTimeAvailable) && TimerSeen(h)))
  {
    var g := h + [x];
    forall i: nat | i < |h| ensures DttAt(g, i) == DttAt(h, i) { AppendSlice(h, x, i); }
    AppendSlice(h, x, |h|);
    assert DttAt(g, |h|) == (x == Ev(DttTimeAvailable) && TimerSeen(h));
    if DttSeen(h) {
      var i: nat :| i < |h| && DttAt(h, i);
      assert DttAt(g, i);
    }
  }

  lemma NoWakeUndoesStep(h: seq<Input>, x: Input, i: nat)
    requires i < |h|
    ensures NoWakeUndoes(h + [x], i) == (NoWakeUndoes(h, i) && (x == Wake ==> !NtpSeen(h)))
  {
    var g := h + [x];
    forall j: nat | j < |h| ensures Undoes(g, j) == Undoes(h, j) { AppendSlice(h, x, j); }
    AppendSlice(h, x, |h|);
    assert Undoes(g, |h|) == (x == Wake && NtpSeen(h));
    if NoWakeUndoes(g, i) {
      forall j: nat | i < j < |h| ensures !Undoes(h, j) {
        assert !Undoes(g, j);
      }
    }
  }

  lemma SecureHeldStep(h: seq<Input>, x: Input)
    ensures SecureHeld(h + [x]) ==
            if x == Wake then SecureHeld(h) && !NtpSeen(h) else SecureHeld(h) || x == Ev(SecureTimeAvailable)
  {
    var g := h + [x];
    forall i: nat | i < |h| ensures SecureAt(g, i) == (SecureAt(h, i) && (x == Wake ==> !NtpSeen(h))) {
      NoWakeUndoesStep(h, x, i);
    }
    assert SecureAt(g, |h|) == (x == Ev(SecureTimeAvailable));
    if SecureHeld(h) {
      var i: nat :| i < |h| && SecureAt(h, i);
      assert SecureAt(g, i) == (x == Wake ==> !NtpSeen(h));
    }
  }

  /** One input moves the machine as it moves the four facts about the history. */
  lemma ClassifyStep(found: bool, c: Core, ntp: bool, secure: bool, dtt: bool, timer: bool, x: Input)
    requires c.state == Classify(ntp, secure, dtt, timer) && c.quality == QualityOf(found, c.state)
    ensures var d := Step(c, x);
            && d.quality == QualityOf(found, d.state)
            && d.state == Classify(ntp || x == Ev(NtpAvailable),
                                   if x == Wake then secure && !ntp else secure || x == Ev(SecureTimeAvailable),
                                   dtt || (x == Ev(DttTimeAvailable) && timer),
                                   timer || x == Ev(TimerExpiry))
  {
  }

  /** Refinement: after any history of events and wake-ups the table machine is where the
      closed form says, with the quality of that state. */
  lemma {:induction false} StateIsHistory(found: bool, h: seq<Input>)
    ensures At(found, h).state == StateOf(h)
    ensures At(found, h).quality == QualityOf(found, StateOf(h))
  {
    if h != [] {
      var g, x := h[..|h| - 1], h[|h| - 1];
      assert h == g + [x];
      StateIsHistory(found, g);
      ReplayStep(InitialCore(found), g, x);
      DttSeenStep(g, x);
      SecureHeldStep(g, x);
      ClassifyStep(found, At(found, g), NtpSeen(g), SecureHeld(g), DttSeen(g), TimerSeen(g), x);
    }
  }

  /** Without wake-ups the order of arrival does not matter: RUNNING is reached exactly by the
      histories that hold an NTP event and a secure-time event. */
  lemma OrderIrrelevant(found: bool, h: seq<Input>)
    requires Wake !in h
    ensures At(found, h).state == Running <==> Ev(NtpAvailable) in h && Ev(SecureTimeAvailable) in h
  {
    StateIsHistory(found, h);
    if Ev(SecureTimeAvailable) in h {
      var i: nat :| i < |h| && h[i] == Ev(SecureTimeAvailable);
      assert SecureAt(h, i);
    }
  }

  /** SECURE quality is reported in RUNNING only, GOOD in the three acquired states only. */
  lemma QualityMatchesState(found: bool, h: seq<Input>)
    ensures var c := At(found, h);
            && (c.quality == Secure <==> c.state == Running)
            && (c.quality == Good <==> c.state in {NtpAcquired, DttAcquired, SecureTimeAcquired})
            && c.state != Init
  {
    StateIsHistory(found, h);
  }

  /** The documentation promises Poor until a reliable time is acquired. Before that the quality is Poor
      exactly if a saved or build time was found. */
  lemma PoorUntilAcquiredExactly(found: bool, h: seq<Input>)
    requires !NtpSeen(h) && !SecureHeld(h) && !DttSeen(h)
    ensures At(found, h).quality == Poor <==> found
  {
    StateIsHistory(found, h);
  }

  /** The documentation promises Secure quality when secure time follows NTP or DTT. A secure-time event
      leaves it so exactly if NTP was seen. */
  lemma SecureTimeSecuresExactly(found: bool, h: seq<Input>)
    ensures At(found, h + [Ev(SecureTimeAvailable)]).quality == Secure <==> NtpSeen(h)
  {
    SecureHeldStep(h, Ev(SecureTimeAvailable));
    StateIsHistory(found, h + [Ev(SecureTimeAvailable)]);
  }

  /** Secure time after DTT: the quality is only Good. */
  lemma SecureTimeAfterDtt(found: bool)
    ensures At(found, [Ev(TimerExpiry), Ev(DttTimeAvailable)]).state == DttAcquired
    ensures At(found, [Ev(TimerExpiry), Ev(DttTimeAvailable), Ev(SecureTimeAvailable)]).quality == Good
  {
    var t, d, s := Ev(TimerExpiry), Ev(DttTimeAvailable), Ev(SecureTimeAvailable);
    assert [t, d] == [t] + [d] && [t, d, s] == [t, d] + [s];
    DttSeenStep([t], d);
    StateIsHistory(found, [t, d]);
    ReplayStep(InitialCore(found), [t, d], s);
  }

  /** Once RUNNING has been reached, only RUNNING and NTP_ACQUIRED follow. */
  lemma AfterRunning(found: bool, h: seq<Input>, k: nat)
    requires k <= |h| && At(found, h[..k]).state == Running
    ensures At(found, h).state in {Running, NtpAcquired}
  {
    StateIsHistory(found, h[..k]);
    StateIsHistory(found, h);
    var i :| 0 <= i < k && h[..k][i] == Ev(NtpAvailable);
    assert h[i] == Ev(NtpAvailable);
  }

  lemma RunningStep(found: bool, h: seq<Input>, x: Input)
    requires At(found, h).state == Running
    ensures At(found, h + [x]).state == if x == Wake then NtpAcquired else Running
  {
    ReplayStep(InitialCore(found), h, x);
    QualityMatchesState(found, h);
  }

  /** RUNNING at every moment from k on. */
  predicate RunningFrom(found: bool, h: seq<Input>, k: nat) {
    forall j :: k <= j <= |h| ==> At(found, h[..j]).state == Running
  }

  lemma RunningFromStep(found: bool, h: seq<Input>, x: Input, k: nat)
    requires k <= |h|
    ensures RunningFrom(found, h + [x], k) <==> RunningFrom(found, h, k) && At(found, h + [x]).state == Running
  {
    var g := h + [x];
    forall j | k <= j <= |h| ensures g[..j] == h[..j] { AppendSlice(h, x, j); }
    assert g[..|g|] == g;
    if RunningFrom(found, g, k) {
      forall j | k <= j <= |h| ensures At(found, h[..j]).state == Running {
        assert At(found, g[..j]).state == Running;
      }
    }
  }

  /** The documentation calls RUNNING terminal. From any moment in RUNNING on, the machine stays there
      exactly if no wake-up comes. */
  lemma {:induction false} RunningIsTerminalExactly(found: bool, h: seq<Input>, k: nat)
    requires k <= |h| && At(found, h[..k]).state == Running
    ensures RunningFrom(found, h, k) <==> Wake !in h[k..]
    decreases |h|
  {
    if k == |h| {
      assert h[..|h|] == h;
    } else {
      var g, x := h[..|h| - 1], h[|h| - 1];
      assert h == g + [x] && h[k..] == g[k..] + [x] && g[..k] == h[..k];
      RunningIsTerminalExactly(found, g, k);
      RunningFromStep(found, g, x, k);
      if RunningFrom(found, g, k) {
        assert At(found, g[..|g|]).state == Running && g[..|g|] == g;
        RunningStep(found, g, x);
      }
    }
  }

  /** NTP, secure time and a wake-up: RUNNING has been left. */
  lemma WakeLeavesRunning(found: bool)
    ensures var h := [Ev(NtpAvailable), Ev(SecureTimeAvailable), Wake];
            At(found, h[..2]).state == Running && At(found, h).state == NtpAcquired
  {
    var h := [Ev(NtpAvailable), Ev(SecureTimeAvailable)];
    assert [Ev(NtpAvailable), Ev(SecureTimeAvailable), Wake] == h + [Wake] && (h + [Wake])[..2] == h;
    OrderIrrelevant(found, h);
    RunningStep(found, h, Wake);
  }

  /** A wake-up that followed an NTP event can only be left behind by newer secure evidence. */
  lemma ReturnNeedsNewSecureTime(found: bool, h: seq<Input>, w: nat)
    requires w < |h| && h[w] == Wake && NtpSeen(h[..w])
    ensures At(found, h).state == Running <==>
            exists i: nat | w < i < |h| :: SecureAt(h, i)
  {
    StateIsHistory(found, h);
    var n :| 0 <= n < w && h[..w][n] == Ev(NtpAvailable);
    assert h[n] == Ev(NtpAvailable);
    if SecureHeld(h) {
      var i: nat :| i < |h| && SecureAt(h, i);
      assert Undoes(h, w);
      assert i != w && i > w;
    }
  }

  // ---- Progress ----

  function Rank(s: State): nat {
    match s
    case Init => 0
    case NtpWait => 0
    case NtpFail => 1
    case DttAcquired => 2
    case NtpAcquired => 3
    case SecureTimeAcquired => 3
    case Running => 4
  }

  /** Handled events of h that changed the state. */
  function Changes(found: bool, h: seq<Input>): nat {
    if h == [] then 0
    else
      var g, x := h[..|h| - 1], h[|h| - 1];
      Changes(found, g) + if x.Ev? && At(found, h).state != At(found, g).state then 1 else 0
  }

  /** Wake-ups of h that found the machine RUNNING. */
  function WakesFromRunning(found: bool, h: seq<Input>): nat {
    if h == [] then 0
    else
      var g, x := h[..|h| - 1], h[|h| - 1];
      WakesFromRunning(found, g) + if x == Wake && At(found, g).state == Running then 1 else 0
  }

  /** How many broadcasts of a kind were made. */
  function CountOf(log: seq<TimerMsg>, e: PublishEvent): nat {
    if log == [] then 0
    else CountOf(log[..|log| - 1], e) + if log[|log| - 1].event == e then 1 else 0
  }

  lemma PublishCounts(c: Core, kind: PublishEvent, text: string, e: PublishEvent)
    ensures CountOf(Publish(c, kind, text).published, e) == CountOf(c.published, e) + if kind == e then 1 else 0
  {
    assert Publish(c, kind, text).published[..|c.published|] == c.published;
  }

  /** The kind of broadcast an input causes in a state, if any. */
  function Announced(s: State, x: Input): Option<PublishEvent> {
    match x
    case Wake => Some(DeepSleepOn)
    case Ev(TimerExpiry) => if s == NtpWait then Some(NtpFailure) else None
    case Ev(NtpAvailable) =>
      if s in {NtpWait, NtpFail, DttAcquired} then Some(NtpSuccess)
      else if s == SecureTimeAcquired then Some(SecureTimeSuccess)
      else None
    case Ev(SecureTimeAvailable) => if s == NtpAcquired then Some(SecureTimeSuccess) else None
    case Ev(DttTimeAvailable) => if s == NtpFail then Some(DttSuccess) else None
    case Ev(_) => None
  }

  lemma StepPublishes(c: Core, x: Input)
    ensures match Announced(c.state, x)
            case None => Step(c, x).published == c.published
            case Some(kind) =>
              exists m :: Step(c, x).published == c.published + [m] && m.event == kind
  {
    var p := Step(c, x).published;
    if p != c.published {
      assert p == c.published + [p[|p| - 1]];
    }
  }

  lemma StepCounts(c: Core, x: Input, e: PublishEvent)
    ensures CountOf(Step(c, x).published, e) ==
            CountOf(c.published, e) + if Announced(c.state, x) == Some(e) then 1 else 0
  {
    StepPublishes(c, x);
    if Announced(c.state, x).Some? {
      var m :| Step(c, x).published == c.published + [m] && m.event == Announced(c.state, x).value;
      assert (c.published + [m])[..|c.published|] == c.published;
    }
  }

  /** A handled event leaves the state alone or raises its rank; a wake-up lowers it from RUNNING only. */
  lemma RankStep(found: bool, c: Core, x: Input)
    requires c.state != Init && c.quality == QualityOf(found, c.state)
    ensures x.Ev? ==> Step(c, x).state == c.state || Rank(Step(c, x).state) > Rank(c.state)
    ensures x == Wake ==> Rank(Step(c, x).state) == Rank(c.state) - if c.state == Running then 1 else 0
  {
  }

  /** A history with k wake-ups from RUNNING makes at most 4 + k handled state changes. */
  lemma {:induction false} BoundedProgress(found: bool, h: seq<Input>)
    ensures Changes(found, h) <= Rank(At(found, h).state) + WakesFromRunning(found, h) <= 4 + WakesFromRunning(found, h)
  {
    if h != [] {
      var g, x := h[..|h| - 1], h[|h| - 1];
      assert h == g + [x];
      BoundedProgress(found, g);
      ReplayStep(InitialCore(found), g, x);
      StateIsHistory(found, g);
      RankStep(found, At(found, g), x);
    }
  }

  /** RUNNING is entered with a secure-success broadcast and left by a wake-up. */
  lemma SecureAnnounced(found: bool, c: Core, x: Input)
    requires c.state != Init && c.quality == QualityOf(found, c.state)
    ensures (if Step(c, x).state == Running then 1 else 0) + (if x == Wake && c.state == Running then 1 else 0) ==
            (if c.state == Running then 1 else 0) + (if Announced(c.state, x) == Some(SecureTimeSuccess) then 1 else 0)
  {
  }

  /** Conservation: secure-success broadcasts and wake-ups from RUNNING alternate. */
  lemma {:induction false} SecureBroadcastCount(found: bool, h: seq<Input>)
    ensures CountOf(At(found, h).published, SecureTimeSuccess) ==
            WakesFromRunning(found, h) + if At(found, h).state == Running then 1 else 0
  {
    if h == [] {
      PublishCounts(Core(NtpWait, Poor, "Last Known", []), TimeInitial, "Poor", SecureTimeSuccess);
    } else {
      var g, x := h[..|h| - 1], h[|h| - 1];
      assert h == g + [x];
      SecureBroadcastCount(found, g);
      ReplayStep(InitialCore(found), g, x);
      StateIsHistory(found, g);
      SecureAnnounced(found, At(found, g), x);
      StepCounts(At(found, g), x, SecureTimeSuccess);
    }
  }

  /** Which events a machine with history h handles: every timer expiry, NTP once, secure time while
      none is held, DTT after a failed wait for NTP. */
  lemma HandledExactly(found: bool, h: seq<Input>, e: Event)
    ensures Table(At(found, h).state, e).Some? <==>
            match e
            case TimerExpiry => true
            case NtpAvailable => !NtpSeen(h)
            case SecureTimeAvailable => !SecureHeld(h)
            case DttTimeAvailable => TimerSeen(h) && !DttSeen(h) && !NtpSeen(h) && !SecureHeld(h)
            case _ => false
  {
    StateIsHistory(found, h);
  }

  /** The clock itself is set by a time source only on a timer expiry while DTT is the best time. */
  lemma ClockSetExactly(found: bool, h: seq<Input>, e: Event)
    ensures Table(At(found, h).state, e) == Some(OnUpdateClockRealTime) <==>
            e == TimerExpiry && DttSeen(h) && !NtpSeen(h) && !SecureHeld(h)
  {
    StateIsHistory(found, h);
  }
}
