/** The state shared by the Thunder callback and the network threads, with every section that runs
    under its mutex. */
module NetworkState {

  const FULLY_CONNECTED := "fully_connected"

  datatype Flags = Flags(internetUpPending: bool, stopProcessing: bool, lastStatus: string)

  /** What the processing thread does when its section ends: block on the condition variable, leave
      its loop, or process. */
  datatype Verdict = MustWait | MustStop | MustRun

  /** What the retry thread does when the section around its sleep ends: block until its deadline, end,
      or make another attempt. */
  datatype RetryVerdict = MustSleep | MustLeave | MustRetry

  /** The label that carries the status, its older name, or no status at all. */
  function StatusOf(params: map<string, string>): string {
    if "status" in params then params["status"]
    else if "internetStatus" in params then params["internetStatus"]
    else ""
  }

  /** std::tolower in the C locale. */
  function ToLower(c: char): char {
    if 'A' <= c <= 'Z' then ((c as int) + 32) as char else c
  }

  function Lower(s: string): string {
    seq(|s|, i requires 0 <= i < |s| => ToLower(s[i]))
  }

  /** Letters become lower-case ones, and nothing else changes. */
  lemma LowerExactly(s: string, i: nat)
    requires i < |s|
    ensures |Lower(s)| == |s|
    ensures 'A' <= s[i] <= 'Z' ==> 'a' <= Lower(s)[i] <= 'z' && Lower(s)[i] - 'a' == s[i] - 'A'
    ensures !('A' <= s[i] <= 'Z') ==> Lower(s)[i] == s[i]
  {
  }

  /** Which label carries the status. */
  lemma StatusLabels(params: map<string, string>, status: string)
    ensures StatusOf(params["status" := status]) == status
    ensures "status" !in params ==> StatusOf(params["internetStatus" := status]) == status
    ensures "status" !in params && "internetStatus" !in params ==> StatusOf(params) == ""
  {
  }

  /** A delivery that is signalled: the status is fully connected and was not just before. */
  predicate Rises(prev: string, status: string) {
    status == FULLY_CONNECTED && status != prev
  }

  /** A delivery is signalled exactly if its status is "fully_connected" in any case and the one before
      was not. */
  lemma RisesExactly(prev: string, status: string)
    ensures Rises(Lower(prev), Lower(status)) <==>
            Lower(status) == "fully_connected" && Lower(prev) != "fully_connected"
    ensures Rises("", Lower(status)) <==> Lower(status) == "fully_connected"
  {
  }

  function AfterStatus(f: Flags, status: string): Flags {
    Flags(f.internetUpPending || Rises(f.lastStatus, status), f.stopProcessing, status)
  }

  /** Being told to stop wins over pending work. */
  function VerdictOf(f: Flags): Verdict {
    if f.stopProcessing then MustStop
    else if f.internetUpPending then MustRun
    else MustWait
  }

  function AfterSection(f: Flags): Flags {
    if VerdictOf(f) == MustRun then f.(internetUpPending := false) else f
  }

  /** Being told to stop wins over another attempt, even after the deadline. */
  function RetryVerdictOf(f: Flags, timedOut: bool): RetryVerdict {
    if f.stopProcessing then MustLeave
    else if timedOut then MustRetry
    else MustSleep
  }

  class NetworkSharedState {
    var internetUpPending: bool
    var stopProcessing: bool
    var lastStatus: string

    function Snapshot(): Flags
      reads this
    {
      Flags(internetUpPending, stopProcessing, lastStatus)
    }

    constructor ()
      ensures Snapshot() == Flags(false, false, "")
    {
      internetUpPending, stopProcessing, lastStatus := false, false, "";
    }

    /** handle_internetStatusChange; notify says whether notify_one is called. */
    method HandleInternetStatusChange(params: map<string, string>) returns (notify: bool)
      modifies this
      ensures Snapshot() == AfterStatus(old(Snapshot()), Lower(StatusOf(params)))
      ensures notify == Rises(old(lastStatus), Lower(StatusOf(params)))
      ensures internetUpPending <==> old(internetUpPending) || notify
      ensures stopProcessing == old(stopProcessing)
    {
      var status := "";
      if "status" in params {
        status := params["status"];
      } else if "internetStatus" in params {
        status := params["internetStatus"];
      }
      var normalizedStatus := "";
      var i := 0;
      while i < |status|
        invariant 0 <= i <= |status|
        invariant normalizedStatus == Lower(status)[..i]
      {
        normalizedStatus := normalizedStatus + [ToLower(status[i])];
        i := i + 1;
      }
      assert normalizedStatus == Lower(status);
      var prev := lastStatus;
      lastStatus := normalizedStatus;
      if normalizedStatus != FULLY_CONNECTED || normalizedStatus == prev {
        return false;
      }
      internetUpPending := true;
      notify := true;
    }

    /** The section of runEventProcessingLoop, from taking the mutex to waiting or releasing it. */
    method ProcessingSection() returns (verdict: Verdict)
      modifies this`internetUpPending
      ensures verdict == VerdictOf(old(Snapshot())) && Snapshot() == AfterSection(old(Snapshot()))
      ensures verdict == MustStop <==> stopProcessing
      ensures verdict == MustRun <==> !stopProcessing && old(internetUpPending)
      ensures internetUpPending <==> old(internetUpPending) && stopProcessing
    {
      if !internetUpPending && !stopProcessing {
        return MustWait;
      }
      if stopProcessing {
        return MustStop;
      }
      internetUpPending := false;
      verdict := MustRun;
    }

    /** The section in front of each attempt to subscribe; exiting tells the retry thread to end. */
    method RetryCheck() returns (exiting: bool)
      ensures exiting <==> RetryVerdictOf(Snapshot(), true) == MustLeave
    {
      if stopProcessing {
        return true;
      }
      exiting := false;
    }

    /** The section around the sleep between attempts, from taking the mutex, on arrival or on return
        from the wait, to waiting again or releasing it. timedOut says that the wait reached its deadline. */
    method RetrySleepSection(timedOut: bool) returns (verdict: RetryVerdict)
      ensures verdict == RetryVerdictOf(Snapshot(), timedOut)
      ensures verdict == MustLeave <==> stopProcessing
      ensures verdict == MustRetry <==> !stopProcessing && timedOut
    {
      if !stopProcessing && !timedOut {
        return MustSleep;
      }
      if stopProcessing {
        return MustLeave;
      }
      verdict := MustRetry;
    }

    /** The destructor's section. */
    method RequestStop()
      modifies this`stopProcessing
      ensures Snapshot() == old(Snapshot()).(stopProcessing := true)
    {
      stopProcessing := true;
    }
  }

  // ---- Rising edges of a sequence of deliveries ----

  predicate IsRising(delivered: seq<string>, i: nat)
    requires i < |delivered|
  {
    Lower(delivered[i]) == FULLY_CONNECTED && (i > 0 ==> Lower(delivered[i - 1]) != FULLY_CONNECTED)
  }

  function RisingPositions(delivered: seq<string>): set<nat> {
    set i: nat | i < |delivered| && IsRising(delivered, i)
  }

  lemma RisingPrefix(delivered: seq<string>, status: string)
    ensures forall i: nat | i < |delivered| :: IsRising(delivered + [status], i) == IsRising(delivered, i)
  {
    var longer := delivered + [status];
    forall i: nat | i < |delivered| ensures IsRising(longer, i) == IsRising(delivered, i) {
      assert longer[i] == delivered[i];
      if i > 0 {
        assert longer[i - 1] == delivered[i - 1];
      }
    }
  }

  lemma RisingStep(delivered: seq<string>, status: string)
    ensures |RisingPositions(delivered + [status])| ==
            |RisingPositions(delivered)| +
            if Rises(if delivered == [] then "" else Lower(delivered[|delivered| - 1]), Lower(status)) then 1 else 0
  {
    var longer, n := delivered + [status], |delivered|;
    var before, after := RisingPositions(delivered), RisingPositions(longer);
    RisingPrefix(delivered, status);
    assert n !in before;
    assert after == if IsRising(longer, n) then before + {n} else before;
    assert IsRising(longer, n) <==> Rises(if n == 0 then "" else Lower(delivered[n - 1]), Lower(status)) by {
      assert longer[n] == status;
      if n > 0 {
        assert longer[n - 1] == delivered[n - 1];
      }
    }
  }
}
