/** What listeners on the bus are told: over every history, how the broadcasts relate to the
    quality actually held. */
module Broadcasts {
  import opened TimeTypes
  import opened StateMachine

  function Last(c: Core): TimerMsg
    requires c.published != []
  {
    c.published[|c.published| - 1]
  }

  predicate LabelMatches(m: TimerMsg) { m.message == Label(m.quality) }

  predicate AllLabelsMatch(log: seq<TimerMsg>) { forall m :: m in log ==> LabelMatches(m) }

  // ---- Labels ----

  predicate NoReference(h: seq<Input>) {
    !NtpSeen(h) && Ev(SecureTimeAvailable) !in h
  }

  predicate TimerFirstAt(h: seq<Input>, i: nat)
    requires i < |h|
  {
    h[i] == Ev(TimerExpiry) && NoReference(h[..i])
  }

  /** A timer expiry came before any NTP and any secure-time event. */
  predicate TimerFirst(h: seq<Input>) {
    exists i: nat | i < |h| :: TimerFirstAt(h, i)
  }

  lemma TimerFirstStep(h: seq<Input>, x: Input)
    ensures TimerFirst(h + [x]) == (TimerFirst(h) || (x == Ev(TimerExpiry) && NoReference(h)))
  {
    var g := h + [x];
    forall i: nat | i < |h| ensures TimerFirstAt(g, i) == TimerFirstAt(h, i) { AppendSlice(h, x, i); }
    AppendSlice(h, x, |h|);
    assert TimerFirstAt(g, |h|) == (x == Ev(TimerExpiry) && NoReference(h));
    if TimerFirst(h) {
      var i: nat :| i < |h| && TimerFirstAt(h, i);
      assert TimerFirstAt(g, i);
    }
  }

  /** Secure evidence is held only if some arrived; in NTP_WAIT none ever did. */
  lemma WaitingMeansNoReference(found: bool, h: seq<Input>)
    ensures At(found, h).state == NtpWait <==> NoReference(h) && !TimerSeen(h)
  {
    StateIsHistory(found, h);
    if !NtpSeen(h) && Ev(SecureTimeAvailable) in h {
      var i: nat :| i < |h| && h[i] == Ev(SecureTimeAvailable);
      assert SecureAt(h, i);
    }
  }

  lemma TimerFirstWhileWaiting(h: seq<Input>)
    ensures NoReference(h) ==> (TimerFirst(h) <==> TimerSeen(h))
  {
    if NoReference(h) && TimerSeen(h) {
      var i: nat :| i < |h| && h[i] == Ev(TimerExpiry);
      assert TimerFirstAt(h, i);
    }
  }

  lemma LabelsAppend(log: seq<TimerMsg>, m: TimerMsg)
    ensures AllLabelsMatch(log + [m]) <==> AllLabelsMatch(log) && LabelMatches(m)
  {
    assert m in log + [m] && forall k :: k in log ==> k in log + [m];
  }

  lemma StepAddsOne(c: Core, x: Input)
    ensures var d := Step(c, x);
            d.published == c.published || (d.published != [] && d.published == c.published + [Last(d)])
  {
    StepPublishes(c, x);
  }

  /** The one input that can publish a text foreign to its quality: the expiry handled in NTP_WAIT. */
  lemma StepLabels(c: Core, x: Input)
    ensures AllLabelsMatch(Step(c, x).published) <==>
            AllLabelsMatch(c.published) && !(c.state == NtpWait && x == Ev(TimerExpiry) && c.quality != Poor)
  {
    var d := Step(c, x);
    StepAddsOne(c, x);
    if d.published != c.published {
      LabelsAppend(c.published, Last(d));
    }
  }

  /** Every broadcast carries the text of its own quality, exactly when a saved or build time was
      found at start or no timer expiry came before all NTP and secure-time events. */
  lemma {:induction false} LabelsMatchExactly(found: bool, h: seq<Input>)
    ensures AllLabelsMatch(At(found, h).published) <==> found || !TimerFirst(h)
  {
    if h != [] {
      var g, x := h[..|h| - 1], h[|h| - 1];
      assert h == g + [x];
      LabelsMatchExactly(found, g);
      ReplayStep(InitialCore(found), g, x);
      StepLabels(At(found, g), x);
      TimerFirstStep(g, x);
      WaitingMeansNoReference(found, g);
      StateIsHistory(found, g);
      TimerFirstWhileWaiting(g);
    }
  }

  /** Without a time found, a first timer expiry publishes the text of another quality. */
  lemma TextCanMislead()
    ensures var c := At(false, [Ev(TimerExpiry)]); Last(c).quality == Unknown && Last(c).message == "Poor"
  {
    var x := Ev(TimerExpiry);
    assert [x] == [] + [x];
    ReplayStep(InitialCore(false), [], x);
  }

  // ---- Qualities ----

  predicate SilentSince(h: seq<Input>, i: nat)
    requires i < |h|
  {
    h[i] == Ev(SecureTimeAvailable) && Ev(SecureTimeAvailable) !in h[..i] && !DttSeen(h[..i]) && Wake !in h[i..]
  }

  /** The secure time that took the machine to SECURE_TIME_ACQUIRED raised the quality, and
      nothing has been broadcast since. */
  predicate SilentUpgrade(h: seq<Input>) {
    !NtpSeen(h) && exists i | 0 <= i < |h| :: SilentSince(h, i)
  }

  lemma SilentUpgradeStep(h: seq<Input>, x: Input)
    ensures SilentUpgrade(h + [x]) <==>
            !NtpSeen(h) && x != Ev(NtpAvailable) && x != Wake &&
            (SilentUpgrade(h) ||
             (x == Ev(SecureTimeAvailable) && Ev(SecureTimeAvailable) !in h && !DttSeen(h)))
  {
    var g := h + [x];
    forall j | 0 <= j <= |h| ensures g[..j] == h[..j] { AppendSlice(h, x, j); }
    forall j | 0 <= j < |h| ensures SilentSince(g, j) <==> SilentSince(h, j) && x != Wake {
      assert g[j..] == h[j..] + [x];
    }
    assert g[|h|..] == [x];
    if SilentUpgrade(h) && x != Ev(NtpAvailable) && x != Wake {
      var i :| 0 <= i < |h| && SilentSince(h, i);
      assert SilentSince(g, i);
    }
    if !NtpSeen(h) && x == Ev(SecureTimeAvailable) && Ev(SecureTimeAvailable) !in h && !DttSeen(h) {
      assert SilentSince(g, |h|);
    }
    if SilentUpgrade(g) {
      var i :| 0 <= i < |g| && SilentSince(g, i);
      if i < |h| { assert SilentSince(h, i); }
    }
  }

  lemma SecureHeldWithoutNtp(h: seq<Input>)
    requires !NtpSeen(h)
    ensures SecureHeld(h) <==> Ev(SecureTimeAvailable) in h
  {
    if Ev(SecureTimeAvailable) in h {
      var i: nat :| i < |h| && h[i] == Ev(SecureTimeAvailable);
      assert SecureAt(h, i);
    }
  }

  /** The same step told by the histories. */
  lemma SilentStateStep(h: seq<Input>, x: Input)
    requires SilentUpgrade(h) ==> StateOf(h) == SecureTimeAcquired
    ensures SilentUpgrade(h + [x]) <==>
            StateOf(h + [x]) == SecureTimeAcquired && x != Wake &&
            (SilentUpgrade(h) || StateOf(h) in {NtpWait, NtpFail})
  {
    SilentUpgradeStep(h, x);
    SecureHeldStep(h, x);
    if !NtpSeen(h) {
      SecureHeldWithoutNtp(h);
    }
  }

  /** The last broadcast tells the quality held, or Poor while it is Good, and its text fits. */
  predicate Honest(c: Core) {
    && c.published != [] && LabelMatches(Last(c))
    && (Last(c).quality == c.quality || (Last(c).quality == Poor && c.quality == Good))
  }

  predicate Silent(c: Core)
    requires c.published != []
  {
    Last(c).quality != c.quality
  }

  /** What the theorem below keeps, told of the core alone. */
  predicate Told(c: Core) {
    && c.state != Init && c.quality == QualityOf(true, c.state)
    && Honest(c) && (Silent(c) ==> c.state == SecureTimeAcquired)
  }

  lemma ToldWake(c: Core)
    requires Told(c)
    ensures Told(WakeUp(c)) && !Silent(WakeUp(c))
  {
    var d := WakeUp(c);
    assert d.published == c.published + [Last(d)];
  }

  lemma ToldEvent(c: Core, e: Event)
    requires Told(c)
    ensures Told(Dispatch(c, e))
    ensures Silent(Dispatch(c, e)) <==>
            Dispatch(c, e).state == SecureTimeAcquired && (Silent(c) || c.state in {NtpWait, NtpFail})
  {
    var d := Dispatch(c, e);
    if d.published != c.published {
      assert d.published == c.published + [Last(d)];
    }
  }

  lemma {:induction false} ToldAlways(h: seq<Input>)
    ensures Told(At(true, h))
    ensures Silent(At(true, h)) <==> SilentUpgrade(h)
  {
    if h != [] {
      var g, x := h[..|h| - 1], h[|h| - 1];
      assert h == g + [x];
      ToldAlways(g);
      ReplayStep(InitialCore(true), g, x);
      match x {
        case Wake => ToldWake(At(true, g));
        case Ev(e) => ToldEvent(At(true, g), e);
      }
      StateIsHistory(true, g);
      StateIsHistory(true, h);
      SilentStateStep(g, x);
    }
  }

  /** A saved or build time was found: after any history the last broadcast never overstates the
      quality held, and it understates it exactly during a silent upgrade, which only
      SECURE_TIME_ACQUIRED can be. */
  lemma LastBroadcastIsHonest(h: seq<Input>)
    ensures var c := At(true, h);
            && c.published != [] && LabelMatches(Last(c)) && Honest(c)
            && (Last(c).quality != c.quality <==> SilentUpgrade(h))
    ensures SilentUpgrade(h) ==> At(true, h).state == SecureTimeAcquired
  {
    ToldAlways(h);
  }

  /** Secure time as the first event: the quality is Good, listeners were last told Poor. */
  lemma UpgradeCanBeSilent()
    ensures var c := At(true, [Ev(SecureTimeAvailable)]); c.quality == Good && Last(c).quality == Poor
  {
    var x := Ev(SecureTimeAvailable);
    assert [x] == [] + [x];
    ReplayStep(InitialCore(true), [], x);
  }

  // ---- First comers and source names ----

  /** The first NTP event, with no secure-time event before it. */
  predicate NtpFirstAt(h: seq<Input>, i: nat)
    requires i < |h|
  {
    h[i] == Ev(NtpAvailable) && NoReference(h[..i])
  }

  /** An NTP event came before every secure-time event. */
  predicate NtpFirst(h: seq<Input>) {
    exists i: nat | i < |h| :: NtpFirstAt(h, i)
  }

  /** The first DTT event after a timer expiry, with no NTP and no secure-time event before it. */
  predicate DttFirstAt(h: seq<Input>, i: nat)
    requires i < |h|
  {
    h[i] == Ev(DttTimeAvailable) && TimerSeen(h[..i]) && NoReference(h[..i]) && !DttSeen(h[..i])
  }

  /** A DTT event followed a timer expiry and came before every NTP and secure-time event. */
  predicate DttFirst(h: seq<Input>) {
    exists i: nat | i < |h| :: DttFirstAt(h, i)
  }

  lemma NtpFirstStep(h: seq<Input>, x: Input)
    ensures NtpFirst(h + [x]) <==> NtpFirst(h) || (x == Ev(NtpAvailable) && NoReference(h))
    ensures forall i: nat | i < |h| :: NtpFirstAt(h + [x], i) == NtpFirstAt(h, i)
    ensures NtpFirstAt(h + [x], |h|) == (x == Ev(NtpAvailable) && NoReference(h))
  {
    var g := h + [x];
    forall i: nat | i < |h| ensures NtpFirstAt(g, i) == NtpFirstAt(h, i) { AppendSlice(h, x, i); }
    AppendSlice(h, x, |h|);
    assert NtpFirstAt(g, |h|) == (x == Ev(NtpAvailable) && NoReference(h));
    if NtpFirst(h) {
      var i: nat :| i < |h| && NtpFirstAt(h, i);
      assert NtpFirstAt(g, i);
    }
  }

  lemma DttFirstStep(h: seq<Input>, x: Input)
    ensures DttFirst(h + [x]) <==>
            DttFirst(h) || (x == Ev(DttTimeAvailable) && TimerSeen(h) && NoReference(h) && !DttSeen(h))
    ensures forall i: nat | i < |h| :: DttFirstAt(h + [x], i) == DttFirstAt(h, i)
    ensures DttFirstAt(h + [x], |h|) == (x == Ev(DttTimeAvailable) && TimerSeen(h) && NoReference(h) && !DttSeen(h))
  {
    var g := h + [x];
    forall i: nat | i < |h| ensures DttFirstAt(g, i) == DttFirstAt(h, i) { AppendSlice(h, x, i); }
    AppendSlice(h, x, |h|);
    assert DttFirstAt(g, |h|) == (x == Ev(DttTimeAvailable) && TimerSeen(h) && NoReference(h) && !DttSeen(h));
    if DttFirst(h) {
      var i: nat :| i < |h| && DttFirstAt(h, i);
      assert DttFirstAt(g, i);
    }
  }

  predicate AwakeSince(h: seq<Input>, i: nat)
    requires i < |h|
  {
    Wake !in h[i..]
  }

  lemma AwakeSinceStep(h: seq<Input>, x: Input, i: nat)
    requires i <= |h|
    ensures AwakeSince(h + [x], i) <==> x != Wake && (i < |h| ==> AwakeSince(h, i))
  {
    assert (h + [x])[i..] == h[i..] + [x];
  }

  /** NTP was the first comer, and no wake-up followed. */
  predicate NtpNamed(h: seq<Input>) {
    exists i: nat | i < |h| :: NtpFirstAt(h, i) && AwakeSince(h, i)
  }

  predicate DttNamed(h: seq<Input>) {
    exists i: nat | i < |h| :: DttFirstAt(h, i) && AwakeSince(h, i)
  }

  lemma NtpNamedStep(h: seq<Input>, x: Input)
    ensures NtpNamed(h + [x]) <==> x != Wake && (NtpNamed(h) || (x == Ev(NtpAvailable) && NoReference(h)))
  {
    var g := h + [x];
    NtpFirstStep(h, x);
    forall i: nat | i <= |h| ensures AwakeSince(g, i) <==> x != Wake && (i < |h| ==> AwakeSince(h, i)) {
      AwakeSinceStep(h, x, i);
    }
    if NtpNamed(h) {
      var i: nat :| i < |h| && NtpFirstAt(h, i) && AwakeSince(h, i);
      assert NtpFirstAt(g, i);
    }
  }

  lemma DttNamedStep(h: seq<Input>, x: Input)
    ensures DttNamed(h + [x]) <==>
            x != Wake && (DttNamed(h) || (x == Ev(DttTimeAvailable) && TimerSeen(h) && NoReference(h) && !DttSeen(h)))
  {
    var g := h + [x];
    DttFirstStep(h, x);
    forall i: nat | i <= |h| ensures AwakeSince(g, i) <==> x != Wake && (i < |h| ==> AwakeSince(h, i)) {
      AwakeSinceStep(h, x, i);
    }
    if DttNamed(h) {
      var i: nat :| i < |h| && DttFirstAt(h, i) && AwakeSince(h, i);
      assert DttFirstAt(g, i);
    }
  }

  function SourceOf(h: seq<Input>): string {
    if NtpNamed(h) then "NTP" else if DttNamed(h) then "DTT" else "Last Known"
  }

  lemma SourceStep(c: Core, x: Input)
    ensures Step(c, x).source ==
            if x == Wake then "Last Known"
            else if x == Ev(NtpAvailable) && c.state in {NtpWait, NtpFail, DttAcquired} then "NTP"
            else if x == Ev(DttTimeAvailable) && c.state == NtpFail then "DTT"
            else c.source
  {
  }

  lemma StatesWithoutReference(h: seq<Input>)
    ensures StateOf(h) in {NtpWait, NtpFail, DttAcquired} <==> NoReference(h)
    ensures StateOf(h) == NtpFail <==> TimerSeen(h) && NoReference(h) && !DttSeen(h)
  {
    if !NtpSeen(h) {
      SecureHeldWithoutNtp(h);
    }
  }

  lemma NamedLater(h: seq<Input>)
    ensures NtpNamed(h) ==> NtpSeen(h)
  {
    if NtpNamed(h) {
      var i: nat :| i < |h| && NtpFirstAt(h, i) && AwakeSince(h, i);
    }
  }

  lemma SourceOfStep(h: seq<Input>, x: Input)
    ensures SourceOf(h + [x]) ==
            if x == Wake then "Last Known"
            else if x == Ev(NtpAvailable) && StateOf(h) in {NtpWait, NtpFail, DttAcquired} then "NTP"
            else if x == Ev(DttTimeAvailable) && StateOf(h) == NtpFail then "DTT"
            else SourceOf(h)
  {
    NtpNamedStep(h, x);
    DttNamedStep(h, x);
    StatesWithoutReference(h);
    NamedLater(h);
  }

  /** The source named to listeners, over every history: NTP exactly if it came before all secure
      time, DTT if it came first after a timer expiry and NTP did not take over, and after a wake-up
      the last known time. So a RUNNING machine may name DTT or the last known time. */
  lemma {:induction false} SourceIsFirstComer(found: bool, h: seq<Input>)
    ensures At(found, h).source == SourceOf(h)
  {
    if h != [] {
      var g, x := h[..|h| - 1], h[|h| - 1];
      assert h == g + [x];
      SourceIsFirstComer(found, g);
      ReplayStep(InitialCore(found), g, x);
      StateIsHistory(found, g);
      SourceStep(At(found, g), x);
      SourceOfStep(g, x);
    }
  }

  /** RUNNING reached without a source of its own: secure time came before NTP. */
  lemma RunningCanNameNoSource(found: bool)
    ensures var c := At(found, [Ev(SecureTimeAvailable), Ev(NtpAvailable)]);
            c.state == Running && c.source == "Last Known"
  {
    var x, y := Ev(SecureTimeAvailable), Ev(NtpAvailable);
    assert [x, y] == [x] + [y] && [x] == [] + [x];
    ReplayStep(InitialCore(found), [], x);
    assert At(found, [x]).source == "Last Known";
    ReplayStep(InitialCore(found), [x], y);
  }

  /** The documented names "NTP + DRM" and "Secure" are never used. */
  lemma NamesInUse(found: bool, h: seq<Input>)
    ensures At(found, h).source in {"NTP", "DTT", "Last Known"}
  {
    SourceIsFirstComer(found, h);
  }

  // ---- Every broadcast ----

  /** The text of a broadcast. Only the first failure does not take it from the quality. */
  function TextOf(kind: PublishEvent, q: Quality): string {
    match (kind, q)
    case (NtpFailure, _) => "Poor"
    case (_, Poor) => "Poor"
    case (_, Good) => "Good"
    case (_, Secure) => "Secure"
    case (_, Unknown) => "Unknown"
  }

  /** The kind of broadcast that an input causes after a history, told without the machine. */
  function KindAfter(h: seq<Input>, x: Input): Option<PublishEvent> {
    match x
    case Wake => Some(DeepSleepOn)
    case Ev(TimerExpiry) => if NoReference(h) && !TimerSeen(h) then Some(NtpFailure) else None
    case Ev(NtpAvailable) =>
      if NtpSeen(h) then None else if SecureHeld(h) then Some(SecureTimeSuccess) else Some(NtpSuccess)
    case Ev(SecureTimeAvailable) => if NtpSeen(h) && !SecureHeld(h) then Some(SecureTimeSuccess) else None
    case Ev(DttTimeAvailable) => if TimerSeen(h) && NoReference(h) && !DttSeen(h) then Some(DttSuccess) else None
    case Ev(_) => None
  }

  /** The broadcasts of a history: each carries the quality and the source that hold once its input has
      been handled. */
  function BroadcastsOf(found: bool, h: seq<Input>): seq<TimerMsg> {
    if h == [] then if found then [TimerMsg(TimeInitial, Poor, "Last Known", "Poor")] else []
    else
      var g, x := h[..|h| - 1], h[|h| - 1];
      var q := QualityOf(found, StateOf(h));
      BroadcastsOf(found, g) +
      match KindAfter(g, x) case None => [] case Some(kind) => [TimerMsg(kind, q, SourceOf(h), TextOf(kind, q))]
  }

  lemma DttNeedsTimer(h: seq<Input>)
    ensures DttSeen(h) ==> TimerSeen(h)
  {
    if DttSeen(h) {
      var i: nat :| i < |h| && DttAt(h, i);
    }
  }

  lemma KindIsAnnounced(h: seq<Input>, x: Input)
    ensures KindAfter(h, x) == Announced(StateOf(h), x)
  {
    StatesWithoutReference(h);
    if !NtpSeen(h) {
      SecureHeldWithoutNtp(h);
    }
    if DttSeen(h) {
      DttNeedsTimer(h);
    }
  }

  /** What one step publishes, told of the core that it leaves. */
  lemma StepPublishesExactly(found: bool, c: Core, x: Input)
    requires c.state != Init && c.quality == QualityOf(found, c.state)
    ensures var d := Step(c, x);
            d.published == c.published +
              match Announced(c.state, x)
              case None => []
              case Some(kind) => [TimerMsg(kind, d.quality, d.source, TextOf(kind, d.quality))]
  {
  }

  /** Every broadcast ever made, in order and in all its fields, as a function of the history. */
  lemma {:induction false} EveryBroadcast(found: bool, h: seq<Input>)
    ensures At(found, h).published == BroadcastsOf(found, h)
  {
    if h != [] {
      var g, x := h[..|h| - 1], h[|h| - 1];
      assert h == g + [x];
      EveryBroadcast(found, g);
      ReplayStep(InitialCore(found), g, x);
      QualityMatchesState(found, g);
      StateIsHistory(found, g);
      StateIsHistory(found, h);
      SourceIsFirstComer(found, h);
      StepPublishesExactly(found, At(found, g), x);
      KindIsAnnounced(g, x);
    }
  }

  lemma SourceAnnounced(found: bool, c: Core, x: Input)
    requires c.state != Init && c.quality == QualityOf(found, c.state)
    ensures var d := Step(c, x);
            if d.published == c.published then d.source == c.source
            else d.published != [] && Last(d).timerSrc == d.source
  {
    StepPublishesExactly(found, c, x);
  }

  /** A change of the source is always announced: the last broadcast names the source held. */
  lemma {:induction false} LastBroadcastNamesSource(found: bool, h: seq<Input>)
    ensures At(found, h).published != [] ==> Last(At(found, h)).timerSrc == SourceOf(h)
    ensures At(found, h).published == [] ==> SourceOf(h) == "Last Known"
  {
    if h != [] {
      var g, x := h[..|h| - 1], h[|h| - 1];
      assert h == g + [x];
      LastBroadcastNamesSource(found, g);
      ReplayStep(InitialCore(found), g, x);
      StateIsHistory(found, g);
      SourceIsFirstComer(found, g);
      SourceIsFirstComer(found, h);
      SourceAnnounced(found, At(found, g), x);
    } else {
      SourceIsFirstComer(found, h);
    }
  }

  // ---- Which broadcasts are made ----

  function Wakes(h: seq<Input>): nat {
    if h == [] then 0 else Wakes(h[..|h| - 1]) + if h[|h| - 1] == Wake then 1 else 0
  }

  lemma FailureAnnounced(h: seq<Input>, x: Input)
    ensures Announced(StateOf(h), x) == Some(NtpFailure) <==> x == Ev(TimerExpiry) && NoReference(h) && !TimerFirst(h)
  {
    TimerFirstWhileWaiting(h);
    DttNeedsTimer(h);
    StatesWithoutReference(h);
  }

  /** Only the first NTP event can be the first comer, and only the first such DTT event. */
  lemma FirstComersAreOnce(h: seq<Input>)
    ensures NtpFirst(h) ==> NtpSeen(h)
    ensures DttFirst(h) ==> DttSeen(h)
  {
    if NtpFirst(h) {
      var i: nat :| i < |h| && NtpFirstAt(h, i);
    }
    if DttFirst(h) {
      var i: nat :| i < |h| && DttFirstAt(h, i);
      assert DttAt(h, i);
    }
  }

  /** How many broadcasts of a kind a history calls for, told without the machine's log. */
  function Expected(found: bool, h: seq<Input>, e: PublishEvent): nat {
    match e
    case TimeInitial => if found then 1 else 0
    case NtpFailure => if TimerFirst(h) then 1 else 0
    case NtpSuccess => if NtpFirst(h) then 1 else 0
    case DttSuccess => if DttFirst(h) then 1 else 0
    case DeepSleepOn => Wakes(h)
    case SecureTimeSuccess => WakesFromRunning(found, h) + if StateOf(h) == Running then 1 else 0
  }

  lemma ExpectedStep(found: bool, h: seq<Input>, x: Input, e: PublishEvent)
    requires e != SecureTimeSuccess
    ensures Expected(found, h + [x], e) == Expected(found, h, e) + if Announced(StateOf(h), x) == Some(e) then 1 else 0
  {
    match e
    case TimeInitial =>
    case NtpFailure => TimerFirstStep(h, x); FailureAnnounced(h, x);
    case NtpSuccess => NtpFirstStep(h, x); StatesWithoutReference(h); FirstComersAreOnce(h);
    case DttSuccess => DttFirstStep(h, x); StatesWithoutReference(h); FirstComersAreOnce(h);
    case DeepSleepOn => assert (h + [x])[..|h|] == h;
  }

  /** Every broadcast ever made, by kind: the failure, NTP and DTT broadcasts come at most once,
      exactly when the timer, NTP or DTT was the first comer, each wake-up is announced, and RUNNING
      is announced each time it is entered. */
  lemma {:induction false} BroadcastsExactly(found: bool, h: seq<Input>, e: PublishEvent)
    ensures CountOf(At(found, h).published, e) == Expected(found, h, e)
  {
    if e == SecureTimeSuccess {
      SecureBroadcastCount(found, h);
      StateIsHistory(found, h);
    } else if h == [] {
      PublishCounts(Core(NtpWait, Poor, "Last Known", []), TimeInitial, "Poor", e);
    } else {
      var g, x := h[..|h| - 1], h[|h| - 1];
      assert h == g + [x];
      BroadcastsExactly(found, g, e);
      ReplayStep(InitialCore(found), g, x);
      StateIsHistory(found, g);
      StepCounts(At(found, g), x, e);
      ExpectedStep(found, g, x, e);
    }
  }
}
