/** The last known good time: the object that holds and saves it, the bounds on what it holds, and
    what survives any number of reboots. */
module SavedTime {
  import opened TimeTypes
  import VersionFile

  /** Seconds added when an update is older than the time held. */
  const CATCH_UP := 600

  function Max(a: int, b: int): int { if a > b then a else b }

  /** The number read from the clock file, 0 when there is no file or no number in it. */
  function Saved(file: Option<int>): int {
    match file case None => 0 case Some(t) => t
  }

  /** The time an update stands for: 0 asks for the clock. */
  function Effective(locTime: int, now: int): int {
    if locTime == 0 then now else locTime
  }

  /** The time held after an update of u. */
  function Hold(held: int, u: int): int {
    if u >= held then u else held + CATCH_UP
  }

  class RdkDefaultTimeSync {
    var m_currentTime: int
    var clockFile: Option<int>

    constructor (file: Option<int>)
      ensures m_currentTime == 0 && clockFile == file
    {
      m_currentTime, clockFile := 0, file;
    }

    /** The later of the saved time and the build time, which is also held from now on. */
    method GetTime(version: Option<string>, parseTime: string -> Option<int>) returns (t: int)
      modifies this`m_currentTime
      ensures t == Max(Saved(clockFile), VersionFile.BuildTimeOf(version, parseTime))
      ensures t >= VersionFile.BuildTimeOf(version, parseTime) && (clockFile.Some? ==> t >= clockFile.value)
      ensures m_currentTime == t
    {
      var clockTime, verTime := 0, 0;
      if clockFile.Some? {
        clockTime := clockFile.value;
      }
      verTime := VersionFile.BuildTime(version, parseTime);
      if clockTime > verTime {
        m_currentTime := clockTime;
        return clockTime;
      }
      m_currentTime := verTime;
      return verTime;
    }

    /** What is written is the update, not the time held. */
    method UpdateTime(locTime: int, now: int, writable: bool)
      modifies this`m_currentTime, this`clockFile
      ensures m_currentTime == Hold(old(m_currentTime), Effective(locTime, now))
      ensures clockFile == if writable then Some(Effective(locTime, now)) else old(clockFile)
    {
      var updatetime := locTime;
      if updatetime == 0 {
        updatetime := now;
      }
      if updatetime >= m_currentTime {
        m_currentTime := updatetime;
      } else {
        m_currentTime := m_currentTime + 10 * 60;
      }
      if writable {
        clockFile := Some(updatetime);
      }
    }
  }

  // ---- Runs of updates ----

  /** The time held after the effective updates us. */
  function HeldAfter(start: int, us: seq<int>): int {
    if us == [] then start else Hold(HeldAfter(start, us[..|us| - 1]), us[|us| - 1])
  }

  /** The last update was older than the time held. */
  predicate LastStale(start: int, us: seq<int>) {
    us != [] && us[|us| - 1] < HeldAfter(start, us[..|us| - 1])
  }

  /** How many of the updates were stale when they came. */
  function StaleCount(start: int, us: seq<int>): nat {
    if us == [] then 0
    else StaleCount(start, us[..|us| - 1]) + if LastStale(start, us) then 1 else 0
  }

  function MaxOf(start: int, us: seq<int>): int {
    if us == [] then start else Max(MaxOf(start, us[..|us| - 1]), us[|us| - 1])
  }

  lemma {:induction false} MaxOfIsMaximum(start: int, us: seq<int>)
    ensures MaxOf(start, us) >= start && forall u :: u in us ==> MaxOf(start, us) >= u
    ensures MaxOf(start, us) == start || MaxOf(start, us) in us
  {
    if us != [] {
      var vs, u := us[..|us| - 1], us[|us| - 1];
      assert us == vs + [u];
      MaxOfIsMaximum(start, vs);
    }
  }

  /** The time held never decreases, and lies between the latest time seen (or 600 s per stale
      update, if that is more) and the latest time seen plus 600 s per stale update. */
  lemma {:induction false} HeldBounds(start: int, us: seq<int>)
    ensures var held, s := HeldAfter(start, us), StaleCount(start, us);
            && held >= MaxOf(start, us)
            && held >= start + 600 * s
            && held <= MaxOf(start, us) + 600 * s
    ensures us != [] ==> HeldAfter(start, us) >= HeldAfter(start, us[..|us| - 1])
  {
    if us != [] {
      HeldBounds(start, us[..|us| - 1]);
    }
  }

  /** After an update the file and the time held agree exactly when the update was not stale; a
      stale update leaves the file behind by at least 600 s. */
  lemma FileAgreesExactly(start: int, us: seq<int>)
    requires us != []
    ensures us[|us| - 1] == HeldAfter(start, us) <==> !LastStale(start, us)
    ensures LastStale(start, us) ==> us[|us| - 1] < HeldAfter(start, us) - 600
  {
  }

  predicate Ascending(start: int, us: seq<int>) {
    (us != [] ==> start <= us[0]) && forall i, j :: 0 <= i < j < |us| ==> us[i] <= us[j]
  }

  lemma AscendingStep(start: int, us: seq<int>, u: int)
    ensures Ascending(start, us + [u]) <==> Ascending(start, us) && (if us == [] then start else us[|us| - 1]) <= u
  {
    var more, n := us + [u], |us|;
    if Ascending(start, more) {
      forall i, j | 0 <= i < j < n ensures us[i] <= us[j] { assert more[i] <= more[j]; }
      assert n > 0 ==> more[0] == us[0] && more[n - 1] <= more[n];
    }
    if Ascending(start, us) && n > 0 && us[n - 1] <= u {
      forall i, j | 0 <= i < j < |more| ensures more[i] <= more[j] {
        assert i < n - 1 ==> us[i] <= us[n - 1];
      }
    }
  }

  /** No update is stale exactly when the updates ascend from the time held at the start. */
  lemma {:induction false} NoStaleExactly(start: int, us: seq<int>)
    ensures StaleCount(start, us) == 0 <==> Ascending(start, us)
    ensures StaleCount(start, us) == 0 ==> HeldAfter(start, us) == if us == [] then start else us[|us| - 1]
  {
    if us != [] {
      var vs, u := us[..|us| - 1], us[|us| - 1];
      assert us == vs + [u];
      NoStaleExactly(start, vs);
      AscendingStep(start, vs, u);
    }
  }

  /** What each update writes to the file is the time then held. */
  predicate FileFollows(start: int, us: seq<int>) {
    forall k :: 0 < k <= |us| ==> us[k - 1] == HeldAfter(start, us[..k])
  }

  /** The file follows the time held through all updates exactly if none of them is stale. */
  lemma {:induction false} FollowsExactly(start: int, us: seq<int>)
    ensures FileFollows(start, us) <==> StaleCount(start, us) == 0
  {
    if us != [] {
      var vs, n := us[..|us| - 1], |us|;
      FollowsExactly(start, vs);
      assert forall k :: 0 <= k < n ==> us[..k] == vs[..k];
      assert us[..n] == us;
      FileAgreesExactly(start, us);
      if FileFollows(start, us) {
        assert FileFollows(start, vs);
      }
    }
  }

  /** A reboot after an update loses time exactly when that update was stale and the build time
      does not make up for it. */
  lemma RebootRegressesExactly(start: int, us: seq<int>, build: int)
    requires us != []
    ensures Max(Saved(Some(us[|us| - 1])), build) < HeldAfter(start, us) <==>
            LastStale(start, us) && build < HeldAfter(start, us)
  {
  }

  /** A concrete loss: a clock one second behind the time held leaves 999 in the file while 1600 is
      held, so the next boot starts 601 s earlier. */
  lemma StaleUpdateIsLost()
    ensures HeldAfter(1000, [999]) == 1600 && LastStale(1000, [999])
    ensures Max(Saved(Some(999)), 0) == 999
  {
    assert [999][..0] == [];
  }

  // ---- Reboots ----

  /** One boot of a device whose only sync is this one: the hardware clock it starts with, the build
      time it finds, and the calls of updateTime with the clock of each moment. */
  datatype Update = Update(locTime: int, now: int)
  datatype Session = Session(hardwareClock: int, build: int, updates: seq<Update>)

  /** What setInitialTime makes of the clock, given the last time returned by a sync. */
  function ClockAfterInit(clock: int, loc: int): int {
    if loc == 0 || clock > loc then clock else loc
  }

  function Effectives(us: seq<Update>): seq<int> {
    seq(|us|, i requires 0 <= i < |us| => Effective(us[i].locTime, us[i].now))
  }

  lemma EffectivesAppend(us: seq<Update>, more: seq<Update>)
    ensures Effectives(us + more) == Effectives(us) + Effectives(more)
  {
  }

  function LoadedTime(file: Option<int>, s: Session): int {
    Max(Saved(file), s.build)
  }

  function BootClock(file: Option<int>, s: Session): int {
    ClockAfterInit(s.hardwareClock, LoadedTime(file, s))
  }

  /** What a boot loads: the later of file and build time, the build time or 0 without a file. */
  lemma LoadedExactly(file: Option<int>, s: Session)
    ensures match file
            case None => LoadedTime(file, s) == if s.build > 0 then s.build else 0
            case Some(t) =>
              LoadedTime(file, s) >= t && LoadedTime(file, s) >= s.build && LoadedTime(file, s) in {t, s.build}
  {
  }

  /** The effective updates of a session are readings of a clock that is not turned back: none is
      below the clock that setInitialTime left, and none below an earlier one. */
  predicate ClockNotTurnedBack(file: Option<int>, s: Session) {
    Ascending(BootClock(file, s), Effectives(s.updates))
  }

  /** The file at the end of a session, each write having succeeded. */
  function FileAfter(file: Option<int>, s: Session): Option<int> {
    if s.updates == [] then file else Some(Effectives(s.updates)[|s.updates| - 1])
  }

  /** The file that a number of boots leaves. */
  function FileAfterAll(file: Option<int>, ss: seq<Session>): Option<int> {
    if ss == [] then file else FileAfter(FileAfterAll(file, ss[..|ss| - 1]), ss[|ss| - 1])
  }

  /** The file that the k-th boot finds. */
  function FileAt(file: Option<int>, ss: seq<Session>, k: nat): Option<int>
    requires k <= |ss|
  {
    FileAfterAll(file, ss[..k])
  }

  /** Some saved or build time is found, or the hardware clock does not stand before 1970. */
  predicate Dated(file: Option<int>, s: Session) {
    LoadedTime(file, s) != 0 || s.hardwareClock >= 0
  }

  /** setInitialTime leaves the latest of the clock, the saved and the build time, exactly when
      some time was found or the clock does not stand before 1970. */
  lemma InitialClockIsLatest(file: Option<int>, s: Session)
    ensures BootClock(file, s) == Max(s.hardwareClock, Max(Saved(file), s.build)) <==> Dated(file, s)
  {
  }

  /** A boot without a stale update. */
  predicate Fresh(file: Option<int>, s: Session) {
    StaleCount(LoadedTime(file, s), Effectives(s.updates)) == 0 && Dated(file, s)
  }

  lemma FreshSession(file: Option<int>, s: Session)
    requires Fresh(file, s)
    ensures FileFollows(LoadedTime(file, s), Effectives(s.updates))
    ensures Saved(FileAfter(file, s)) >= Saved(file)
  {
    var us, loaded := Effectives(s.updates), LoadedTime(file, s);
    FollowsExactly(loaded, us);
    HeldBounds(loaded, us);
    assert us[..|us|] == us;
  }

  /** Within a session: no update is stale, the file holds what the object holds after each update,
      and both are at least what was loaded. */
  lemma SessionIsExact(file: Option<int>, s: Session)
    requires ClockNotTurnedBack(file, s) && Dated(file, s)
    ensures var us, loaded := Effectives(s.updates), LoadedTime(file, s);
            && StaleCount(loaded, us) == 0
            && FileFollows(loaded, us)
            && FileAfter(file, s) == (if s.updates == [] then file else Some(HeldAfter(loaded, us)))
            && Saved(FileAfter(file, s)) >= Saved(file)
  {
    var us, loaded := Effectives(s.updates), LoadedTime(file, s);
    assert Ascending(loaded, us);
    NoStaleExactly(loaded, us);
    FreshSession(file, s);
    assert us[..|us|] == us;
  }

  /** What a boot keeps, file being what the boots before it left. */
  predicate KeepsTime(first: Option<int>, file: Option<int>, s: Session) {
    && StaleCount(LoadedTime(file, s), Effectives(s.updates)) == 0
    && FileFollows(LoadedTime(file, s), Effectives(s.updates))
    && BootClock(file, s) == Max(s.hardwareClock, Max(Saved(file), s.build))
    && Saved(file) >= Saved(first)
  }

  predicate AllFresh(file: Option<int>, ss: seq<Session>) {
    forall k: nat | k < |ss| :: Fresh(FileAt(file, ss, k), ss[k])
  }

  /** The saved time never decreases from one boot to any later one. */
  predicate FileNeverDecreases(file: Option<int>, ss: seq<Session>) {
    forall j: nat, k: nat | j <= k <= |ss| :: Saved(FileAt(file, ss, j)) <= Saved(FileAt(file, ss, k))
  }

  lemma FileStep(file: Option<int>, ss: seq<Session>, k: nat)
    requires 0 < k <= |ss|
    ensures FileAt(file, ss, k) == FileAfter(FileAt(file, ss, k - 1), ss[k - 1])
  {
    assert ss[..k][..k - 1] == ss[..k - 1];
  }

  lemma {:induction false} FileGrows(file: Option<int>, ss: seq<Session>, j: nat, k: nat)
    requires AllFresh(file, ss) && j <= k <= |ss|
    ensures Saved(FileAt(file, ss, j)) <= Saved(FileAt(file, ss, k))
    decreases k
  {
    if j < k {
      FileGrows(file, ss, j, k - 1);
      FileStep(file, ss, k);
      FreshSession(FileAt(file, ss, k - 1), ss[k - 1]);
    }
  }

  lemma FreshKeepsTime(file: Option<int>, ss: seq<Session>, k: nat)
    requires AllFresh(file, ss) && k < |ss|
    ensures KeepsTime(file, FileAt(file, ss, k), ss[k])
  {
    FileGrows(file, ss, 0, k);
    FreshSession(FileAt(file, ss, k), ss[k]);
    InitialClockIsLatest(FileAt(file, ss, k), ss[k]);
  }

  lemma FreshRebootsKeepTime(file: Option<int>, ss: seq<Session>)
    requires AllFresh(file, ss)
    ensures forall k: nat | k < |ss| :: KeepsTime(file, FileAt(file, ss, k), ss[k])
    ensures FileNeverDecreases(file, ss)
  {
    forall k: nat | k < |ss| ensures KeepsTime(file, FileAt(file, ss, k), ss[k]) {
      FreshKeepsTime(file, ss, k);
    }
    forall j: nat, k: nat | j <= k <= |ss| ensures Saved(FileAt(file, ss, j)) <= Saved(FileAt(file, ss, k)) {
      FileGrows(file, ss, j, k);
    }
  }

  /** At every boot the clock is not turned back. */
  predicate AllRegular(file: Option<int>, ss: seq<Session>) {
    forall k: nat | k < |ss| :: ClockNotTurnedBack(FileAt(file, ss, k), ss[k]) && Dated(FileAt(file, ss, k), ss[k])
  }

  /** Saved time over any number of reboots, the hardware clock being anything at each boot: the
      saved time never decreases from one boot to any later one, no update is stale, after every
      update the file equals the time held, and every boot starts from the latest of its clock, the
      saved time and the build time. */
  lemma RebootsNeverLoseTime(file: Option<int>, ss: seq<Session>)
    requires AllRegular(file, ss)
    ensures forall k: nat | k < |ss| :: KeepsTime(file, FileAt(file, ss, k), ss[k])
    ensures FileNeverDecreases(file, ss)
  {
    forall k: nat | k < |ss| ensures Fresh(FileAt(file, ss, k), ss[k]) {
      SessionIsExact(FileAt(file, ss, k), ss[k]);
    }
    FreshRebootsKeepTime(file, ss);
  }
}
