/** The threads around the manager as atomic steps: any number of senders, the thread that runs
    processMsg, and any number of threads that take g_state_mutex alone (power and query). Steps
    are cut where a mutex is taken, released or waited with; waits wake spuriously. */
module MessageQueue {
  import opened TimeTypes
  import opened StateMachine
  import opened Broadcasts

  datatype Operation = WakeOperation | QueryOperation

  /** A thread inside or outside sendMessage. SPushed has released the mutex but not notified. */
  datatype Sender = SIdle | SAtLock(event: Event) | SLocked(event: Event) | SPushed

  /** The thread of processMsg. CBlocked waits un-notified; a notified waiter is at the lock again.
      CDispatch, CRun and CDone hold the queue mutex; CRun holds the state mutex too. */
  datatype Consumer = CAtLock | CLocked | CBlocked | CDispatch(event: Event) | CRun(event: Event) | CDone

  /** A thread inside or outside deepsleepoff or getTimeStatus; since is how much history had been
      handled when it was called. */
  datatype Caller = TIdle | TAtLock(op: Operation, since: nat) | TLocked(op: Operation, since: nat)

  datatype Owner = Nobody | Worker | Helper(id: nat)

  /** A reply to a status query, and how much history had been handled when the query was made and when
      the reply was given. */
  datatype Answer = Answer(since: nat, after: nat, quality: Quality, source: string)

  datatype Sys = Sys(
    found: bool,
    queue: seq<Event>, queueOwner: Owner, stateOwner: Owner,
    senders: seq<Sender>, consumer: Consumer, callers: seq<Caller>,
    core: Core, pushed: seq<Event>, ran: seq<Event>, history: seq<Input>,
    answers: seq<Answer>)

  datatype Action =
    | Send(i: nat, event: Event)
    | LockToPush(i: nat)
    | Push(i: nat)
    | Notify(i: nat)
    | LockQueue
    | Wait
    | SpuriousWake
    | Pop
    | LockState
    | RunEvent
    | UnlockQueue
    | Call(j: nat, op: Operation)
    | LockForCall(j: nat)
    | RunCall(j: nat)

  predicate Enabled(s: Sys, a: Action) {
    match a
    case Send(i, e) => i < |s.senders| && s.senders[i] == SIdle
    case LockToPush(i) => i < |s.senders| && s.senders[i].SAtLock? && s.queueOwner == Nobody
    case Push(i) => i < |s.senders| && s.senders[i].SLocked?
    case Notify(i) => i < |s.senders| && s.senders[i] == SPushed
    case LockQueue => s.consumer == CAtLock && s.queueOwner == Nobody
    case Wait => s.consumer == CLocked && s.queue == []
    case SpuriousWake => s.consumer == CBlocked
    case Pop => s.consumer == CLocked && s.queue != []
    case LockState => s.consumer.CDispatch? && s.stateOwner == Nobody
    case RunEvent => s.consumer.CRun?
    case UnlockQueue => s.consumer == CDone
    case Call(j, op) => j < |s.callers| && s.callers[j] == TIdle
    case LockForCall(j) => j < |s.callers| && s.callers[j].TAtLock? && s.stateOwner == Nobody
    case RunCall(j) => j < |s.callers| && s.callers[j].TLocked?
  }

  function Next(s: Sys, a: Action): Sys
    requires Enabled(s, a)
  {
    match a
    case Send(i, e) => s.(senders := s.senders[i := SAtLock(e)])
    case LockToPush(i) => s.(senders := s.senders[i := SLocked(s.senders[i].event)], queueOwner := Helper(i))
    case Push(i) =>
      s.(queue := s.queue + [s.senders[i].event], pushed := s.pushed + [s.senders[i].event],
         senders := s.senders[i := SPushed], queueOwner := Nobody)
    case Notify(i) =>
      s.(senders := s.senders[i := SIdle], consumer := if s.consumer == CBlocked then CAtLock else s.consumer)
    case LockQueue => s.(consumer := CLocked, queueOwner := Worker)
    case Wait => s.(consumer := CBlocked, queueOwner := Nobody)
    case SpuriousWake => s.(consumer := CAtLock)
    case Pop => s.(consumer := CDispatch(s.queue[0]), queue := s.queue[1..])
    case LockState => s.(consumer := CRun(s.consumer.event), stateOwner := Worker)
    case RunEvent =>
      var x := Ev(s.consumer.event);
      s.(consumer := CDone, stateOwner := Nobody, ran := s.ran + [s.consumer.event],
         core := Step(s.core, x), history := s.history + [x])
    case UnlockQueue => s.(consumer := CAtLock, queueOwner := Nobody)
    case Call(j, op) => s.(callers := s.callers[j := TAtLock(op, |s.history|)])
    case LockForCall(j) =>
      s.(callers := s.callers[j := TLocked(s.callers[j].op, s.callers[j].since)], stateOwner := Helper(j))
    case RunCall(j) =>
      var t := s.(callers := s.callers[j := TIdle], stateOwner := Nobody);
      match s.callers[j].op
      case WakeOperation => t.(core := Step(s.core, Wake), history := s.history + [Wake])
      case QueryOperation =>
        t.(answers := s.answers + [Answer(s.callers[j].since, |s.history|, s.core.quality, s.core.source)])
  }

  predicate ValidRun(s: Sys, run: seq<Action>)
    decreases |run|
  {
    run == [] || (Enabled(s, run[0]) && ValidRun(Next(s, run[0]), run[1..]))
  }

  function Exec(s: Sys, run: seq<Action>): Sys
    requires ValidRun(s, run)
    decreases |run|
  {
    if run == [] then s else Exec(Next(s, run[0]), run[1..])
  }

  /** The threads start once initialize has returned. */
  function Start(found: bool, senders: nat, callers: nat): Sys {
    Sys(found, [], Nobody, Nobody, seq(senders, _ => SIdle), CAtLock, seq(callers, _ => TIdle),
        InitialCore(found), [], [], [], [])
  }

  /** The event taken from the queue and not yet run. */
  function InHand(c: Consumer): seq<Event> {
    match c
    case CDispatch(e) => [e]
    case CRun(e) => [e]
    case _ => []
  }

  function EventsIn(x: Input): seq<Event> {
    match x case Ev(e) => [e] case Wake => []
  }

  function EventsOf(h: seq<Input>): seq<Event> {
    if h == [] then []
    else EventsOf(h[..|h| - 1]) + EventsIn(h[|h| - 1])
  }

  lemma EventsOfAppend(h: seq<Input>, x: Input)
    ensures EventsOf(h + [x]) == EventsOf(h) + EventsIn(x)
  {
    assert (h + [x])[..|h|] == h;
  }

  // ---- The invariant ----

  /** The queue mutex is held by the thread that thinks it holds it. */
  predicate QueueLockAgrees(s: Sys) {
    && (s.queueOwner == Worker <==>
          s.consumer == CLocked || s.consumer.CDispatch? || s.consumer.CRun? || s.consumer == CDone)
    && (forall i :: 0 <= i < |s.senders| ==> (s.senders[i].SLocked? <==> s.queueOwner == Helper(i)))
    && (s.queueOwner.Helper? ==> s.queueOwner.id < |s.senders|)
  }

  /** So is the state mutex. */
  predicate StateLockAgrees(s: Sys) {
    && (s.stateOwner == Worker <==> s.consumer.CRun?)
    && (forall j :: 0 <= j < |s.callers| ==> (s.callers[j].TLocked? <==> s.stateOwner == Helper(j)))
    && (s.stateOwner.Helper? ==> s.stateOwner.id < |s.callers|)
  }

  predicate LocksAgree(s: Sys) {
    QueueLockAgrees(s) && StateLockAgrees(s)
  }

  /** Every event pushed is run once, in order. */
  predicate Conserved(s: Sys) {
    s.ran + InHand(s.consumer) + s.queue == s.pushed
  }

  predicate SomePushed(s: Sys) {
    exists i :: 0 <= i < |s.senders| && s.senders[i] == SPushed
  }

  /** No lost wake-up: a blocked consumer with work has a notification on its way. */
  predicate NotForgotten(s: Sys) {
    s.consumer == CBlocked && s.queue != [] ==> SomePushed(s)
  }

  /** The core is the replay of a history, whose events are those that ran. */
  predicate IsReplay(found: bool, core: Core, history: seq<Input>, ran: seq<Event>) {
    core == At(found, history) && EventsOf(history) == ran
  }

  /** The machine is the replay of what ran, in the order the state mutex was held. */
  predicate Refines(s: Sys) {
    IsReplay(s.found, s.core, s.history, s.ran)
  }

  /** The input that a step has the machine handle, if any. */
  function Handled(s: Sys, a: Action): Option<Input>
    requires Enabled(s, a)
  {
    if a.RunEvent? then Some(Ev(s.consumer.event))
    else if a.RunCall? && s.callers[a.j].op == WakeOperation then Some(Wake)
    else None
  }

  predicate TrueAnswer(s: Sys, a: Answer) {
    && a.since <= a.after <= |s.history|
    && a.quality == At(s.found, s.history[..a.after]).quality
    && a.source == At(s.found, s.history[..a.after]).source
  }

  /** Every answer given was the truth at one moment of the history, not before its query. */
  predicate AnswersTrue(s: Sys) {
    forall k :: 0 <= k < |s.answers| ==> TrueAnswer(s, s.answers[k])
  }

  /** Calls were made in the past. */
  predicate CallsDated(s: Sys) {
    forall j :: 0 <= j < |s.callers| && s.callers[j] != TIdle ==> s.callers[j].since <= |s.history|
  }

  predicate Inv(s: Sys) {
    LocksAgree(s) && Conserved(s) && NotForgotten(s) && Refines(s) && CallsDated(s) && AnswersTrue(s)
  }

  lemma StartInv(found: bool, senders: nat, callers: nat)
    ensures Inv(Start(found, senders, callers))
  {
  }

  lemma QueueLockStep(s: Sys, a: Action)
    requires QueueLockAgrees(s) && Enabled(s, a)
    ensures QueueLockAgrees(Next(s, a))
  {
  }

  lemma StateLockStep(s: Sys, a: Action)
    requires StateLockAgrees(s) && Enabled(s, a)
    ensures StateLockAgrees(Next(s, a))
  {
  }

  lemma ConservedStep(s: Sys, a: Action)
    requires Conserved(s) && Enabled(s, a)
    ensures Conserved(Next(s, a))
  {
    if a.Pop? {
      assert s.queue == [s.queue[0]] + s.queue[1..];
    }
  }

  lemma NotForgottenStep(s: Sys, a: Action)
    requires NotForgotten(s) && Enabled(s, a)
    ensures NotForgotten(Next(s, a))
  {
    var t := Next(s, a);
    if a.Push? {
      assert t.senders[a.i] == SPushed;
    } else if s.consumer == CBlocked && s.queue != [] && !a.Notify? && !a.SpuriousWake? {
      var i :| 0 <= i < |s.senders| && s.senders[i] == SPushed;
      assert t.senders[i] == SPushed;
    }
  }

  lemma RefinesAppend(found: bool, core: Core, history: seq<Input>, ran: seq<Event>, x: Input)
    requires IsReplay(found, core, history, ran)
    ensures IsReplay(found, Step(core, x), history + [x], ran + EventsIn(x))
  {
    ReplayStep(InitialCore(found), history, x);
    EventsOfAppend(history, x);
  }

  /** What a step does to the machine and to the histories. */
  lemma MachineStep(s: Sys, a: Action)
    requires Enabled(s, a)
    ensures var t := Next(s, a);
            && t.found == s.found
            && match Handled(s, a)
               case None => t.core == s.core && t.history == s.history && t.ran == s.ran
               case Some(x) => t.core == Step(s.core, x) && t.history == s.history + [x] && t.ran == s.ran + EventsIn(x)
  {
  }

  lemma RefinesStep(s: Sys, a: Action)
    requires Refines(s) && Enabled(s, a)
    ensures Refines(Next(s, a))
  {
    MachineStep(s, a);
    match Handled(s, a)
    case None =>
    case Some(x) => RefinesAppend(s.found, s.core, s.history, s.ran, x);
  }

  lemma CallsDatedStep(s: Sys, a: Action)
    requires CallsDated(s) && Enabled(s, a)
    ensures CallsDated(Next(s, a))
  {
  }

  /** What a step adds to the history and to the answers. */
  lemma AnswersStep(s: Sys, a: Action)
    requires Refines(s) && CallsDated(s) && Enabled(s, a)
    ensures var t := Next(s, a);
            && t.found == s.found && s.history <= t.history && s.answers <= t.answers
            && |t.answers| <= |s.answers| + 1
            && (|t.answers| > |s.answers| ==> t.history == s.history && TrueAnswer(s, t.answers[|s.answers|]))
  {
    assert s.history[..|s.history|] == s.history;
  }

  lemma TrueAnswerStays(s: Sys, t: Sys, a: Answer)
    requires TrueAnswer(s, a) && t.found == s.found && s.history <= t.history
    ensures TrueAnswer(t, a)
  {
    assert t.history[..a.after] == s.history[..a.after];
  }

  lemma AnswersTrueStep(s: Sys, a: Action)
    requires Refines(s) && CallsDated(s) && AnswersTrue(s) && Enabled(s, a)
    ensures AnswersTrue(Next(s, a))
  {
    var t := Next(s, a);
    AnswersStep(s, a);
    forall k | 0 <= k < |t.answers| ensures TrueAnswer(t, t.answers[k]) {
      if k < |s.answers| {
        assert TrueAnswer(s, s.answers[k]);
      }
      TrueAnswerStays(s, t, t.answers[k]);
    }
  }

  lemma InvStep(s: Sys, a: Action)
    requires Inv(s) && Enabled(s, a)
    ensures Inv(Next(s, a))
  {
    QueueLockStep(s, a);
    StateLockStep(s, a);
    ConservedStep(s, a);
    NotForgottenStep(s, a);
    RefinesStep(s, a);
    CallsDatedStep(s, a);
    AnswersTrueStep(s, a);
  }

  lemma {:induction false} InvRun(s: Sys, run: seq<Action>)
    requires Inv(s) && ValidRun(s, run)
    ensures Inv(Exec(s, run))
    decreases |run|
  {
    if run != [] {
      var t := Next(s, run[0]);
      InvStep(s, run[0]);
      InvRun(t, run[1..]);
    }
  }

  lemma {:induction false} FoundStays(s: Sys, run: seq<Action>)
    requires ValidRun(s, run)
    ensures Exec(s, run).found == s.found
    decreases |run|
  {
    if run != [] {
      FoundStays(Next(s, run[0]), run[1..]);
    }
  }

  /** Message queue correctness over every interleaving: what ran is a prefix of what was pushed,
      and a consumer blocked on a non-empty queue has a sender between its push and its notify. */
  lemma QueueIsFifo(found: bool, senders: nat, callers: nat, run: seq<Action>)
    requires ValidRun(Start(found, senders, callers), run)
    ensures var s := Exec(Start(found, senders, callers), run);
            && s.ran <= s.pushed
            && (s.consumer == CBlocked && s.queue != [] ==>
                  exists i :: 0 <= i < |s.senders| && s.senders[i] == SPushed)
  {
    StartInv(found, senders, callers);
    InvRun(Start(found, senders, callers), run);
  }

  /** The closed forms of modules StateMachine and Broadcasts hold of every interleaving: what other
      components see is a function of the events that ran and of the wake-ups, in the order in
      which the state mutex was held. */
  lemma StateOverInterleavings(found: bool, senders: nat, callers: nat, run: seq<Action>)
    requires ValidRun(Start(found, senders, callers), run)
    ensures var s := Exec(Start(found, senders, callers), run);
            && EventsOf(s.history) <= s.pushed
            && s.core.state == StateOf(s.history)
            && s.core.quality == QualityOf(found, StateOf(s.history))
            && (found ==> Honest(s.core) && (Last(s.core).quality != s.core.quality <==> SilentUpgrade(s.history)))
  {
    StartInv(found, senders, callers);
    InvRun(Start(found, senders, callers), run);
    FoundStays(Start(found, senders, callers), run);
    StateIsHistory(found, Exec(Start(found, senders, callers), run).history);
    LastBroadcastIsHonest(Exec(Start(found, senders, callers), run).history);
  }

  /** Queries are linearisable: each reply carries the quality and the source that the closed forms
      give for the history handled up to some moment between the query and its reply. */
  lemma AnswersOverInterleavings(found: bool, senders: nat, callers: nat, run: seq<Action>, k: nat)
    requires ValidRun(Start(found, senders, callers), run)
    requires k < |Exec(Start(found, senders, callers), run).answers|
    ensures var s := Exec(Start(found, senders, callers), run);
            var a := s.answers[k];
            && a.since <= a.after <= |s.history|
            && a.quality == QualityOf(found, StateOf(s.history[..a.after]))
            && a.source == SourceOf(s.history[..a.after])
  {
    StartInv(found, senders, callers);
    InvRun(Start(found, senders, callers), run);
    FoundStays(Start(found, senders, callers), run);
    var s := Exec(Start(found, senders, callers), run);
    assert TrueAnswer(s, s.answers[k]);
    StateIsHistory(found, s.history[..s.answers[k].after]);
    SourceIsFirstComer(found, s.history[..s.answers[k].after]);
  }

  // ---- Calls and their effects ----

  /** Calls of a kind in a run. */
  function CallsIn(run: seq<Action>, op: Operation): nat {
    if run == [] then 0
    else (if run[0].Call? && run[0].op == op then 1 else 0) + CallsIn(run[1..], op)
  }

  /** Calls of a kind that have begun and have not had their effect. */
  function BegunCalls(ts: seq<Caller>, op: Operation): nat {
    if ts == [] then 0 else (if ts[0] != TIdle && ts[0].op == op then 1 else 0) + BegunCalls(ts[1..], op)
  }

  lemma {:induction false} BegunCallsUpdate(ts: seq<Caller>, j: nat, t: Caller, op: Operation)
    requires j < |ts|
    ensures BegunCalls(ts[j := t], op) + (if ts[j] != TIdle && ts[j].op == op then 1 else 0) ==
            BegunCalls(ts, op) + (if t != TIdle && t.op == op then 1 else 0)
  {
    if j == 0 {
      assert ts[j := t][1..] == ts[1..];
    } else {
      BegunCallsUpdate(ts[1..], j - 1, t, op);
      assert ts[j := t][1..] == ts[1..][j - 1 := t];
    }
  }

  lemma {:induction false} NoCallsBegun(n: nat, op: Operation)
    ensures BegunCalls(seq(n, _ => TIdle), op) == 0
  {
    if n > 0 {
      var ts := seq(n, _ => TIdle);
      assert ts[1..] == seq(n - 1, _ => TIdle);
      NoCallsBegun(n - 1, op);
    }
  }

  lemma WakesAppend(h: seq<Input>, x: Input)
    ensures Wakes(h + [x]) == Wakes(h) + if x == Wake then 1 else 0
  {
    assert (h + [x])[..|h|] == h;
  }

  /** Wake-ups handled, or answers given. */
  function Effects(s: Sys, op: Operation): nat {
    match op case WakeOperation => Wakes(s.history) case QueryOperation => |s.answers|
  }

  lemma EffectsStep(s: Sys, a: Action, op: Operation)
    requires Enabled(s, a)
    ensures Effects(Next(s, a), op) == Effects(s, op) + if a.RunCall? && s.callers[a.j].op == op then 1 else 0
  {
    if a.RunCall? {
      WakesAppend(s.history, Wake);
    } else if a.RunEvent? {
      WakesAppend(s.history, Ev(s.consumer.event));
    }
  }

  lemma BegunStep(s: Sys, a: Action, op: Operation)
    requires Enabled(s, a)
    ensures BegunCalls(Next(s, a).callers, op) + (if a.RunCall? && s.callers[a.j].op == op then 1 else 0) ==
            BegunCalls(s.callers, op) + (if a.Call? && a.op == op then 1 else 0)
  {
    if a.Call? || a.LockForCall? || a.RunCall? {
      BegunCallsUpdate(s.callers, a.j, Next(s, a).callers[a.j], op);
    }
  }

  lemma {:induction false} CallsRun(s: Sys, run: seq<Action>, op: Operation)
    requires ValidRun(s, run)
    ensures var t := Exec(s, run);
            Effects(t, op) + BegunCalls(t.callers, op) == Effects(s, op) + BegunCalls(s.callers, op) + CallsIn(run, op)
    decreases |run|
  {
    if run != [] {
      EffectsStep(s, run[0], op);
      BegunStep(s, run[0], op);
      CallsRun(Next(s, run[0]), run[1..], op);
    }
  }

  /** Every call has its effect: in every interleaving the wake-ups in the history and the answers given
      are the calls made, except those still under way. */
  lemma CallsAccounted(found: bool, senders: nat, callers: nat, run: seq<Action>)
    requires ValidRun(Start(found, senders, callers), run)
    ensures var s := Exec(Start(found, senders, callers), run);
            && Wakes(s.history) + BegunCalls(s.callers, WakeOperation) == CallsIn(run, WakeOperation)
            && |s.answers| + BegunCalls(s.callers, QueryOperation) == CallsIn(run, QueryOperation)
  {
    NoCallsBegun(callers, WakeOperation);
    NoCallsBegun(callers, QueryOperation);
    CallsRun(Start(found, senders, callers), run, WakeOperation);
    CallsRun(Start(found, senders, callers), run, QueryOperation);
  }

  /** Calls of sendMessage with an event. */
  function SendsIn(run: seq<Action>, e: Event): nat {
    if run == [] then 0
    else (if run[0].Send? && run[0].event == e then 1 else 0) + SendsIn(run[1..], e)
  }

  /** The sender is to push the event and has not done so. */
  predicate Holds(t: Sender, e: Event) {
    t == SAtLock(e) || t == SLocked(e)
  }

  function Unpushed(ts: seq<Sender>, e: Event): nat {
    if ts == [] then 0 else (if Holds(ts[0], e) then 1 else 0) + Unpushed(ts[1..], e)
  }

  lemma {:induction false} UnpushedUpdate(ts: seq<Sender>, i: nat, t: Sender, e: Event)
    requires i < |ts|
    ensures Unpushed(ts[i := t], e) + (if Holds(ts[i], e) then 1 else 0) ==
            Unpushed(ts, e) + (if Holds(t, e) then 1 else 0)
  {
    if i == 0 {
      assert ts[i := t][1..] == ts[1..];
    } else {
      UnpushedUpdate(ts[1..], i - 1, t, e);
      assert ts[i := t][1..] == ts[1..][i - 1 := t];
    }
  }

  lemma {:induction false} NothingUnpushed(n: nat, e: Event)
    ensures Unpushed(seq(n, _ => SIdle), e) == 0
  {
    if n > 0 {
      var ts := seq(n, _ => SIdle);
      assert ts[1..] == seq(n - 1, _ => SIdle);
      NothingUnpushed(n - 1, e);
    }
  }

  lemma SendStep(s: Sys, a: Action, e: Event)
    requires Enabled(s, a)
    ensures multiset(Next(s, a).pushed)[e] + Unpushed(Next(s, a).senders, e) ==
            multiset(s.pushed)[e] + Unpushed(s.senders, e) + if a.Send? && a.event == e then 1 else 0
  {
    if a.Send? || a.LockToPush? || a.Push? || a.Notify? {
      UnpushedUpdate(s.senders, a.i, Next(s, a).senders[a.i], e);
    }
  }

  lemma {:induction false} SendsRun(s: Sys, run: seq<Action>, e: Event)
    requires ValidRun(s, run)
    ensures var t := Exec(s, run);
            multiset(t.pushed)[e] + Unpushed(t.senders, e) ==
            multiset(s.pushed)[e] + Unpushed(s.senders, e) + SendsIn(run, e)
    decreases |run|
  {
    if run != [] {
      SendStep(s, run[0], e);
      SendsRun(Next(s, run[0]), run[1..], e);
    }
  }

  /** Every event sent is pushed, once: in every interleaving each event was pushed as often as
      sendMessage was called with it, except for the calls still under way. */
  lemma SendsAccounted(found: bool, senders: nat, callers: nat, run: seq<Action>, e: Event)
    requires ValidRun(Start(found, senders, callers), run)
    ensures var s := Exec(Start(found, senders, callers), run);
            multiset(s.pushed)[e] + Unpushed(s.senders, e) == SendsIn(run, e)
  {
    NothingUnpushed(senders, e);
    SendsRun(Start(found, senders, callers), run, e);
  }

  // ---- Answers and their queries ----

  lemma Prepend(s: Sys, a: Action, rest: seq<Action>) returns (run: seq<Action>)
    requires Enabled(s, a) && ValidRun(Next(s, a), rest)
    ensures ValidRun(s, run) && Exec(s, run) == Exec(Next(s, a), rest)
  {
    run := [a] + rest;
    assert run[1..] == rest;
  }

  lemma {:induction false} Join(s: Sys, before: seq<Action>, after: seq<Action>)
    requires ValidRun(s, before) && ValidRun(Exec(s, before), after)
    ensures ValidRun(s, before + after) && Exec(s, before + after) == Exec(Exec(s, before), after)
    decreases |before|
  {
    if before == [] {
      assert before + after == after;
    } else {
      assert (before + after)[1..] == before[1..] + after;
      Join(Next(s, before[0]), before[1..], after);
    }
  }

  /** The i-th step is the call that caller t is in, made after so much history. */
  predicate CalledAt(s: Sys, run: seq<Action>, i: nat, t: nat, op: Operation, since: nat)
    requires i < |run|
  {
    && run[i] == Call(t, op) && RunCall(t) !in run[i..]
    && ValidRun(s, run[..i]) && |Exec(s, run[..i]).history| == since
  }

  predicate Called(s: Sys, run: seq<Action>, t: nat, op: Operation, since: nat) {
    exists i: nat | i < |run| :: CalledAt(s, run, i, t, op, since)
  }

  predicate Tells(a: Answer, n: Sys) {
    a.quality == n.core.quality && a.source == n.core.source && a.after == |n.history|
  }

  /** The j-th step gives the answer and ends a query of its caller: the answer tells what is held at that
      step, and how much history there was then and when the query was made. */
  predicate AnsweredAt(s: Sys, run: seq<Action>, j: nat, a: Answer)
    requires j < |run|
  {
    && run[j].RunCall? && Called(s, run[..j], run[j].j, QueryOperation, a.since)
    && ValidRun(s, run[..j]) && Tells(a, Exec(s, run[..j]))
  }

  predicate Answered(s: Sys, run: seq<Action>, a: Answer) {
    exists j: nat | j < |run| :: AnsweredAt(s, run, j, a)
  }

  lemma CalledAppend(s: Sys, front: seq<Action>, a: Action, t: nat, op: Operation, since: nat)
    requires Called(s, front, t, op, since) && a != RunCall(t)
    ensures Called(s, front + [a], t, op, since)
  {
    var i: nat :| i < |front| && CalledAt(s, front, i, t, op, since);
    assert (front + [a])[i..] == front[i..] + [a];
    assert (front + [a])[..i] == front[..i];
    assert CalledAt(s, front + [a], i, t, op, since);
  }

  lemma CallIsCalled(s: Sys, front: seq<Action>, t: nat, op: Operation)
    requires ValidRun(s, front)
    ensures Called(s, front + [Call(t, op)], t, op, |Exec(s, front).history|)
  {
    assert (front + [Call(t, op)])[..|front|] == front;
    assert CalledAt(s, front + [Call(t, op)], |front|, t, op, |Exec(s, front).history|);
  }

  lemma AnsweredAppend(s: Sys, front: seq<Action>, a: Action, answer: Answer)
    requires Answered(s, front, answer)
    ensures Answered(s, front + [a], answer)
  {
    var j: nat :| j < |front| && AnsweredAt(s, front, j, answer);
    assert (front + [a])[..j] == front[..j];
    assert AnsweredAt(s, front + [a], j, answer);
  }

  /** Each caller inside a call has made it. */
  predicate CallersKnown(s: Sys, run: seq<Action>, n: Sys) {
    forall t: nat | t < |n.callers| && n.callers[t] != TIdle ::
      Called(s, run, t, n.callers[t].op, n.callers[t].since)
  }

  /** Each answer was given at the end of a query. */
  predicate AnswersKnown(s: Sys, run: seq<Action>, n: Sys) {
    forall k: nat | k < |n.answers| :: Answered(s, run, n.answers[k])
  }

  lemma CallersKnownStep(s: Sys, front: seq<Action>, n: Sys, a: Action)
    requires ValidRun(s, front) && n == Exec(s, front) && CallersKnown(s, front, n) && Enabled(n, a)
    ensures CallersKnown(s, front + [a], Next(n, a))
  {
    var m := Next(n, a);
    forall t: nat | t < |m.callers| && m.callers[t] != TIdle
      ensures Called(s, front + [a], t, m.callers[t].op, m.callers[t].since)
    {
      if a.Call? && a.j == t {
        CallIsCalled(s, front, t, a.op);
      } else {
        CalledAppend(s, front, a, t, n.callers[t].op, n.callers[t].since);
      }
    }
  }

  lemma AnswerAdded(n: Sys, a: Action)
    requires Enabled(n, a)
    ensures var m := Next(n, a);
            && n.answers <= m.answers && |m.answers| <= |n.answers| + 1
            && (|m.answers| > |n.answers| ==>
                  && a.RunCall? && n.callers[a.j] != TIdle && n.callers[a.j].op == QueryOperation
                  && m.answers[|n.answers|].since == n.callers[a.j].since && Tells(m.answers[|n.answers|], n))
  {
  }

  lemma AnswerEndsQuery(s: Sys, front: seq<Action>, j: nat, answer: Answer)
    requires ValidRun(s, front) && Called(s, front, j, QueryOperation, answer.since) && Tells(answer, Exec(s, front))
    ensures Answered(s, front + [RunCall(j)], answer)
  {
    assert (front + [RunCall(j)])[..|front|] == front;
    assert AnsweredAt(s, front + [RunCall(j)], |front|, answer);
  }

  lemma AnswersKnownStep(s: Sys, front: seq<Action>, n: Sys, a: Action)
    requires ValidRun(s, front) && n == Exec(s, front) && Enabled(n, a)
    requires CallersKnown(s, front, n) && AnswersKnown(s, front, n)
    ensures AnswersKnown(s, front + [a], Next(n, a))
  {
    var m := Next(n, a);
    AnswerAdded(n, a);
    forall k: nat | k < |m.answers| ensures Answered(s, front + [a], m.answers[k]) {
      if k < |n.answers| {
        AnsweredAppend(s, front, a, n.answers[k]);
      } else {
        AnswerEndsQuery(s, front, a.j, m.answers[k]);
      }
    }
  }

  lemma OneStep(s: Sys, a: Action)
    requires Enabled(s, a)
    ensures ValidRun(s, [a]) && Exec(s, [a]) == Next(s, a)
  {
    assert [a][1..] == [];
  }

  /** A run with one more step behind. */
  lemma Snoc(s: Sys, front: seq<Action>, a: Action)
    requires ValidRun(s, front) && Enabled(Exec(s, front), a)
    ensures ValidRun(s, front + [a]) && Exec(s, front + [a]) == Next(Exec(s, front), a)
  {
    OneStep(Exec(s, front), a);
    Join(s, front, [a]);
  }

  lemma {:induction false} CallsKnownRun(s: Sys, front: seq<Action>, rest: seq<Action>)
    requires ValidRun(s, front) && ValidRun(Exec(s, front), rest)
    requires CallersKnown(s, front, Exec(s, front)) && AnswersKnown(s, front, Exec(s, front))
    ensures CallersKnown(s, front + rest, Exec(Exec(s, front), rest))
    ensures AnswersKnown(s, front + rest, Exec(Exec(s, front), rest))
    decreases |rest|
  {
    if rest == [] {
      assert front + rest == front;
    } else {
      var n, a := Exec(s, front), rest[0];
      CallersKnownStep(s, front, n, a);
      AnswersKnownStep(s, front, n, a);
      Snoc(s, front, a);
      assert front + rest == front + [a] + rest[1..];
      CallsKnownRun(s, front + [a], rest[1..]);
    }
  }

  /** Every answer was given by some step of the run that ended a query of the same caller, and carries
      the quality and the source held at that step. */
  lemma AnswersEndQueries(found: bool, senders: nat, callers: nat, run: seq<Action>, k: nat)
    requires ValidRun(Start(found, senders, callers), run)
    requires k < |Exec(Start(found, senders, callers), run).answers|
    ensures Answered(Start(found, senders, callers), run, Exec(Start(found, senders, callers), run).answers[k])
  {
    assert [] + run == run;
    CallsKnownRun(Start(found, senders, callers), [], run);
  }

  // ---- Every history happens ----

  /** One sender, one caller and the consumer, none of them inside anything. */
  predicate Ready(s: Sys) {
    && s.queue == [] && s.queueOwner == Nobody && s.stateOwner == Nobody
    && s.senders == [SIdle] && s.callers == [TIdle] && s.consumer == CAtLock
  }

  /** The consumer waits, wakes without cause, and waits again. */
  lemma ConsumerWaits(s: Sys) returns (run: seq<Action>)
    requires Ready(s)
    ensures ValidRun(s, run) && Exec(s, run) == s.(consumer := CBlocked)
  {
    var s1 := Next(s, LockQueue);
    var s2 := Next(s1, Wait);
    run := Prepend(s1, Wait, []);
    run := Prepend(s, LockQueue, run);
    run := Prepend(s2, SpuriousWake, run);
    run := Prepend(s1, Wait, run);
    run := Prepend(s, LockQueue, run);
  }

  /** A sender pushes and notifies the waiting consumer. */
  lemma SenderSends(s: Sys, e: Event) returns (run: seq<Action>)
    requires Ready(s.(consumer := CAtLock)) && s.consumer == CBlocked
    ensures ValidRun(s, run)
    ensures Exec(s, run) == s.(consumer := CAtLock, queue := [e], pushed := s.pushed + [e])
  {
    var s1 := Next(s, Send(0, e));
    var s2 := Next(s1, LockToPush(0));
    var s3 := Next(s2, Push(0));
    run := Prepend(s3, Notify(0), []);
    run := Prepend(s2, Push(0), run);
    run := Prepend(s1, LockToPush(0), run);
    run := Prepend(s, Send(0, e), run);
  }

  lemma PopAndRun(s: Sys, e: Event) returns (run: seq<Action>)
    requires s.consumer == CLocked && s.queueOwner == Worker && s.stateOwner == Nobody
    requires s.queue == [e] && s.senders == [SIdle] && s.callers == [TIdle]
    ensures ValidRun(s, run)
    ensures var t := Exec(s, run); Ready(t) && t.history == s.history + [Ev(e)]
  {
    var s1 := Next(s, Pop);
    var s2 := Next(s1, LockState);
    var s3 := Next(s2, RunEvent);
    run := Prepend(s3, UnlockQueue, []);
    run := Prepend(s2, RunEvent, run);
    run := Prepend(s1, LockState, run);
    run := Prepend(s, Pop, run);
  }

  /** An event goes all the way from sendMessage to its handler. */
  lemma EventGoesThrough(s: Sys, e: Event) returns (run: seq<Action>)
    requires Ready(s)
    ensures ValidRun(s, run)
    ensures var t := Exec(s, run); Ready(t) && t.history == s.history + [Ev(e)]
  {
    var waits := ConsumerWaits(s);
    var sends := SenderSends(Exec(s, waits), e);
    Join(s, waits, sends);
    var t := Exec(s, waits + sends);
    var locked := Next(t, LockQueue);
    var rest := PopAndRun(locked, e);
    rest := Prepend(t, LockQueue, rest);
    Join(s, waits + sends, rest);
    run := waits + sends + rest;
  }

  lemma WakeGoesThrough(s: Sys) returns (run: seq<Action>)
    requires Ready(s)
    ensures ValidRun(s, run)
    ensures var t := Exec(s, run); Ready(t) && t.history == s.history + [Wake]
  {
    var s1 := Next(s, Call(0, WakeOperation));
    var s2 := Next(s1, LockForCall(0));
    run := Prepend(s2, RunCall(0), []);
    run := Prepend(s1, LockForCall(0), run);
    run := Prepend(s, Call(0, WakeOperation), run);
  }

  lemma InputGoesThrough(s: Sys, x: Input) returns (run: seq<Action>)
    requires Ready(s)
    ensures ValidRun(s, run)
    ensures var t := Exec(s, run); Ready(t) && t.history == s.history + [x]
  {
    match x {
      case Ev(e) => run := EventGoesThrough(s, e);
      case Wake => run := WakeGoesThrough(s);
    }
  }

  /** Nothing is ruled out: one sender and one caller suffice for any history of events and wake-ups. */
  lemma {:induction false} EveryHistoryHappens(found: bool, h: seq<Input>) returns (run: seq<Action>)
    ensures ValidRun(Start(found, 1, 1), run)
    ensures Ready(Exec(Start(found, 1, 1), run)) && Exec(Start(found, 1, 1), run).history == h
  {
    run := [];
    if h != [] {
      var before := EveryHistoryHappens(found, h[..|h| - 1]);
      var after := InputGoesThrough(Exec(Start(found, 1, 1), before), h[|h| - 1]);
      Join(Start(found, 1, 1), before, after);
      run := before + after;
    }
  }

  // ---- Progress ----

  /** A step that continues what some thread has begun, other than a wake-up without cause. */
  predicate Internal(a: Action) {
    !a.Send? && !a.Call? && !a.SpuriousWake?
  }

  predicate Quiet(s: Sys) {
    && s.consumer == CBlocked && s.queue == []
    && (forall i :: 0 <= i < |s.senders| ==> s.senders[i] == SIdle)
    && (forall j :: 0 <= j < |s.callers| ==> s.callers[j] == TIdle)
  }

  ghost predicate CanMove(s: Sys) {
    exists a :: Internal(a) && Enabled(s, a)
  }

  /** The holder of a mutex is never stuck, although processMsg holds the queue mutex while it
      waits for the state mutex. */
  lemma HolderMoves(s: Sys)
    requires LocksAgree(s) && (s.queueOwner != Nobody || s.stateOwner != Nobody)
    ensures CanMove(s)
  {
    if s.stateOwner == Worker {
      assert Enabled(s, RunEvent);
    } else if s.stateOwner.Helper? {
      assert Enabled(s, RunCall(s.stateOwner.id));
    } else if s.queueOwner.Helper? {
      assert Enabled(s, Push(s.queueOwner.id));
    } else if s.consumer == CLocked {
      assert Enabled(s, Pop) || Enabled(s, Wait);
    } else {
      assert Enabled(s, LockState) || Enabled(s, UnlockQueue);
    }
  }

  lemma StuckExactly(s: Sys)
    requires Inv(s)
    ensures Quiet(s) <==> !CanMove(s)
  {
    if !Quiet(s) {
      if s.queueOwner != Nobody || s.stateOwner != Nobody {
        HolderMoves(s);
      } else if i :| 0 <= i < |s.senders| && s.senders[i] != SIdle {
        assert Enabled(s, LockToPush(i)) || Enabled(s, Notify(i));
      } else if j :| 0 <= j < |s.callers| && s.callers[j] != TIdle {
        assert Enabled(s, LockForCall(j));
      } else {
        assert Enabled(s, LockQueue);
      }
    }
  }

  /** No deadlock: at the end of every run some thread can go on, unless everything is at rest with an
      empty queue. */
  lemma NoDeadlock(found: bool, senders: nat, callers: nat, run: seq<Action>)
    requires ValidRun(Start(found, senders, callers), run)
    ensures var s := Exec(Start(found, senders, callers), run); Quiet(s) <==> !CanMove(s)
  {
    StartInv(found, senders, callers);
    InvRun(Start(found, senders, callers), run);
    StuckExactly(Exec(Start(found, senders, callers), run));
  }

  function SenderWork(t: Sender): nat {
    match t case SIdle => 0 case SAtLock(_) => 15 case SLocked(_) => 14 case SPushed => 3
  }

  function CallerWork(t: Caller): nat {
    match t case TIdle => 0 case TAtLock(_, _) => 2 case TLocked(_, _) => 1
  }

  function ConsumerWork(c: Consumer): nat {
    match c
    case CBlocked => 0
    case CLocked => 1
    case CAtLock => 2
    case CDone => 3
    case CRun(_) => 4
    case CDispatch(_) => 5
  }

  function SendersWork(ts: seq<Sender>): nat {
    if ts == [] then 0 else SenderWork(ts[0]) + SendersWork(ts[1..])
  }

  function CallersWork(ts: seq<Caller>): nat {
    if ts == [] then 0 else CallerWork(ts[0]) + CallersWork(ts[1..])
  }

  lemma {:induction false} SendersWorkUpdate(ts: seq<Sender>, i: nat, t: Sender)
    requires i < |ts|
    ensures SendersWork(ts[i := t]) == SendersWork(ts) - SenderWork(ts[i]) + SenderWork(t)
  {
    if i == 0 {
      assert ts[i := t][1..] == ts[1..];
    } else {
      SendersWorkUpdate(ts[1..], i - 1, t);
      assert ts[i := t][1..] == ts[1..][i - 1 := t];
    }
  }

  lemma {:induction false} CallersWorkUpdate(ts: seq<Caller>, j: nat, t: Caller)
    requires j < |ts|
    ensures CallersWork(ts[j := t]) == CallersWork(ts) - CallerWork(ts[j]) + CallerWork(t)
  {
    if j == 0 {
      assert ts[j := t][1..] == ts[1..];
    } else {
      CallersWorkUpdate(ts[1..], j - 1, t);
      assert ts[j := t][1..] == ts[1..][j - 1 := t];
    }
  }

  function Work(s: Sys): nat {
    10 * |s.queue| + ConsumerWork(s.consumer) + SendersWork(s.senders) + CallersWork(s.callers)
  }

  lemma WorkDecreases(s: Sys, a: Action)
    requires Enabled(s, a) && Internal(a)
    ensures Work(Next(s, a)) < Work(s)
  {
    match a
    case LockToPush(i) => SendersWorkUpdate(s.senders, i, SLocked(s.senders[i].event));
    case Push(i) => SendersWorkUpdate(s.senders, i, SPushed);
    case Notify(i) => SendersWorkUpdate(s.senders, i, SIdle);
    case LockForCall(j) => CallersWorkUpdate(s.callers, j, TLocked(s.callers[j].op, s.callers[j].since));
    case RunCall(j) => CallersWorkUpdate(s.callers, j, TIdle);
    case _ =>
  }

  lemma {:induction false} DrainsFrom(s: Sys, run: seq<Action>)
    requires Inv(s) && ValidRun(s, run) && forall a :: a in run ==> Internal(a)
    ensures |run| <= Work(s)
    ensures !CanMove(Exec(s, run)) ==> Exec(s, run).ran == Exec(s, run).pushed
    decreases |run|
  {
    if run == [] {
      StuckExactly(s);
    } else {
      assert run[0] in run;
      InvStep(s, run[0]);
      WorkDecreases(s, run[0]);
      DrainsFrom(Next(s, run[0]), run[1..]);
    }
  }

  /** Every push is handled: after any run, once no new calls arrive, the threads can make no more than
      Work further steps, and when they can make none every pushed event has run. */
  lemma Drains(found: bool, senders: nat, callers: nat, before: seq<Action>, after: seq<Action>)
    requires ValidRun(Start(found, senders, callers), before)
    requires ValidRun(Exec(Start(found, senders, callers), before), after) && forall a :: a in after ==> Internal(a)
    ensures var s := Exec(Start(found, senders, callers), before);
            var t := Exec(s, after);
            |after| <= Work(s) && (!CanMove(t) ==> t.ran == t.pushed)
  {
    StartInv(found, senders, callers);
    InvRun(Start(found, senders, callers), before);
    DrainsFrom(Exec(Start(found, senders, callers), before), after);
  }
}
