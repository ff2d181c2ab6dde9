/** The queue of power events, its producer and its two-lock consumer, and the deep-sleep messages
    that the events turn into. */
module PowerEvents {
  import opened TimeTypes

  datatype PowerState = StateUnknown | Off | Standby | On | LightSleep | DeepSleep

  datatype PowerEvent = PowerEvent(currentState: PowerState, newState: PowerState)

  datatype Message = SleepOn | SleepOff

  /** What sysTimeMgrHandlePwrEventData passes on, if anything. */
  function MessageOf(e: PowerEvent): Option<Message> {
    match e.newState
    case Off => Some(SleepOn)
    case DeepSleep => Some(SleepOn)
    case On => if e.currentState == DeepSleep then Some(SleepOff) else None
    case LightSleep => if e.currentState == DeepSleep then Some(SleepOff) else None
    case Standby => if e.currentState == DeepSleep then Some(SleepOff) else None
    case StateUnknown => None
  }

  function MessagesOf(es: seq<PowerEvent>): seq<Message> {
    if es == [] then []
    else MessagesOf(es[..|es| - 1]) + match MessageOf(es[|es| - 1]) case None => [] case Some(m) => [m]
  }

  /** For every event: a wake-up is sent exactly if the device leaves deep sleep for a state in which it
      is not off, a sleep exactly if it turns off or goes to deep sleep. */
  lemma MessageExactly(e: PowerEvent)
    ensures MessageOf(e) == Some(SleepOff) <==>
            e.currentState == DeepSleep && (e.newState == On || e.newState == LightSleep || e.newState == Standby)
    ensures MessageOf(e) == Some(SleepOn) <==> e.newState == Off || e.newState == DeepSleep
  {
  }

  /** Events of a sequence that leave deep sleep. */
  function Wakings(es: seq<PowerEvent>): nat {
    if es == [] then 0
    else
      var e := es[|es| - 1];
      Wakings(es[..|es| - 1]) + if e.currentState == DeepSleep && e.newState in {On, LightSleep, Standby} then 1 else 0
  }

  /** Events of a sequence that turn off or go to deep sleep. */
  function Sleeps(es: seq<PowerEvent>): nat {
    if es == [] then 0
    else Sleeps(es[..|es| - 1]) + if es[|es| - 1].newState in {Off, DeepSleep} then 1 else 0
  }

  /** No message is dropped or invented: there is one for every event that calls for it. */
  lemma {:induction false} MessagesCounted(es: seq<PowerEvent>)
    ensures multiset(MessagesOf(es))[SleepOff] == Wakings(es)
    ensures multiset(MessagesOf(es))[SleepOn] == Sleeps(es)
  {
    if es != [] {
      MessagesCounted(es[..|es| - 1]);
      MessageExactly(es[|es| - 1]);
    }
  }

  /** The messages keep the order of their events. */
  lemma {:induction false} MessagesInOrder(es: seq<PowerEvent>, more: seq<PowerEvent>)
    ensures MessagesOf(es + more) == MessagesOf(es) + MessagesOf(more)
  {
    if more == [] {
      assert es + more == es;
    } else {
      var init := more[..|more| - 1];
      assert (es + more)[..|es + more| - 1] == es + init;
      MessagesInOrder(es, init);
    }
  }

  function Flatten(bursts: seq<seq<PowerEvent>>): seq<PowerEvent> {
    if bursts == [] then [] else bursts[0] + Flatten(bursts[1..])
  }

  lemma {:induction false} FlattenSnoc(bursts: seq<seq<PowerEvent>>, last: seq<PowerEvent>)
    ensures Flatten(bursts + [last]) == Flatten(bursts) + last
  {
    if bursts == [] {
      assert [last][1..] == [];
    } else {
      assert (bursts + [last])[1..] == bursts[1..] + [last];
      FlattenSnoc(bursts[1..], last);
    }
  }

  /** What has been pushed while the first count events of a pass were handled. */
  function Arrived(arrivals: seq<seq<PowerEvent>>, count: nat): seq<PowerEvent> {
    Flatten(if count <= |arrivals| then arrivals[..count] else arrivals)
  }

  lemma ArrivedStep(arrivals: seq<seq<PowerEvent>>, count: nat)
    ensures Arrived(arrivals, count + 1) ==
            Arrived(arrivals, count) + if count < |arrivals| then arrivals[count] else []
  {
    if count < |arrivals| {
      FlattenSnoc(arrivals[..count], arrivals[count]);
      assert arrivals[..count] + [arrivals[count]] == arrivals[..count + 1];
    } else {
      assert arrivals[..|arrivals|] == arrivals;
    }
  }

  /** The messages of a pass stand behind those sent before. */
  lemma SentInPass(before: seq<PowerEvent>, queued: seq<PowerEvent>, came: seq<PowerEvent>)
    ensures MessagesOf(before + queued + came) == MessagesOf(before) + MessagesOf(queued + came)
  {
    assert before + queued + came == before + (queued + came);
    MessagesInOrder(before, queued + came);
  }

  // ---- The object ----

  class IpowerControllerSubscriber {
    var m_pwrEvtQueue: seq<PowerEvent>
    var sent: seq<Message>
    ghost var handled: seq<PowerEvent>

    ghost predicate Valid()
      reads this
    {
      sent == MessagesOf(handled)
    }

    constructor ()
      ensures Valid() && m_pwrEvtQueue == [] && handled == []
    {
      m_pwrEvtQueue, sent, handled := [], [], [];
    }

    /** The section of sysTimeMgrPwrEventHandler. */
    method PwrEventHandler(currentState: PowerState, newState: PowerState)
      requires Valid()
      modifies this`m_pwrEvtQueue
      ensures Valid() && m_pwrEvtQueue == old(m_pwrEvtQueue) + [PowerEvent(currentState, newState)]
    {
      m_pwrEvtQueue := m_pwrEvtQueue + [PowerEvent(currentState, newState)];
    }

    method HandlePwrEventData(currentState: PowerState, newState: PowerState)
      requires Valid()
      modifies this`sent, this`handled
      ensures Valid() && handled == old(handled) + [PowerEvent(currentState, newState)]
      ensures sent == old(sent) +
                      if newState == Off || newState == DeepSleep then [SleepOn]
                      else if currentState == DeepSleep && newState != StateUnknown then [SleepOff]
                      else []
    {
      ghost var event := PowerEvent(currentState, newState);
      assert (handled + [event])[..|handled|] == handled;
      handled := handled + [event];
      match newState {
        case Off => sent := sent + [SleepOn];
        case DeepSleep => sent := sent + [SleepOn];
        case StateUnknown =>
        case _ =>
          if currentState == DeepSleep {
            sent := sent + [SleepOff];
          }
      }
    }

    /** One drain pass. The queue is unlocked while an event is handled; arrivals[k] is what the
        producers push while the k-th event of the pass is handled. */
    method Drain(arrivals: seq<seq<PowerEvent>>) returns (count: nat)
      requires Valid()
      modifies this
      ensures Valid() && m_pwrEvtQueue == []
      ensures handled == old(handled) + old(m_pwrEvtQueue) + Arrived(arrivals, count)
      ensures count == |handled| - |old(handled)|
      ensures sent == old(sent) + MessagesOf(old(m_pwrEvtQueue) + Arrived(arrivals, count))
    {
      count := 0;
      while m_pwrEvtQueue != []
        invariant Valid()
        invariant handled + m_pwrEvtQueue == old(handled) + old(m_pwrEvtQueue) + Arrived(arrivals, count)
        invariant count == |handled| - |old(handled)|
        decreases if count < |arrivals| then |arrivals| - count else 0, |m_pwrEvtQueue|
      {
        ghost var done, waiting := handled, m_pwrEvtQueue;
        var event := m_pwrEvtQueue[0];
        m_pwrEvtQueue := m_pwrEvtQueue[1..];
        HandlePwrEventData(event.currentState, event.newState);
        assert handled + m_pwrEvtQueue == done + waiting;
        ArrivedStep(arrivals, count);
        if count < |arrivals| {
          ghost var rest := m_pwrEvtQueue;
          m_pwrEvtQueue := m_pwrEvtQueue + arrivals[count];
          assert handled + m_pwrEvtQueue == handled + rest + arrivals[count];
        }
        count := count + 1;
      }
      assert handled + m_pwrEvtQueue == handled;
      SentInPass(old(handled), old(m_pwrEvtQueue), Arrived(arrivals, count));
    }
  }

  // ---- Deep sleep and waking alternate ----

  /** Each event starts in the state where the one before ended, the first not in deep sleep. */
  predicate Chained(es: seq<PowerEvent>) {
    && (es != [] ==> es[0].currentState != DeepSleep)
    && forall i | 0 < i < |es| :: es[i].currentState == es[i - 1].newState
  }

  /** Which events wake the manager: exactly those right after a report of deep sleep, and so of a
      sleep message, that lead to a state in which the device is not off or asleep. */
  lemma WakeFollowsSleep(es: seq<PowerEvent>, i: nat)
    requires Chained(es) && i < |es|
    ensures MessageOf(es[i]) == Some(SleepOff) <==>
            i > 0 && es[i - 1].newState == DeepSleep && es[i].newState !in {StateUnknown, Off, DeepSleep}
    ensures MessageOf(es[i]) == Some(SleepOff) ==> MessageOf(es[i - 1]) == Some(SleepOn)
    ensures MessageOf(es[i]) == Some(SleepOn) <==> es[i].newState in {Off, DeepSleep}
  {
  }

  /** In what is sent, each wake-up stands right behind a sleep, so there are never two in a row. */
  predicate Alternates(ms: seq<Message>) {
    forall i | 0 <= i < |ms| :: ms[i] == SleepOff ==> i > 0 && ms[i - 1] == SleepOn
  }

  lemma {:induction false} MessagesAlternate(es: seq<PowerEvent>)
    requires Chained(es)
    ensures Alternates(MessagesOf(es))
    ensures es != [] && es[|es| - 1].newState == DeepSleep ==>
              MessagesOf(es) != [] && MessagesOf(es)[|MessagesOf(es)| - 1] == SleepOn
  {
    if es != [] {
      var init, last := es[..|es| - 1], es[|es| - 1];
      MessagesAlternate(init);
      if MessageOf(last) == Some(SleepOff) {
        WakeFollowsSleep(es, |es| - 1);
        assert init[|init| - 1] == es[|es| - 2];
      }
    }
  }

  // ---- The threads ----

  /** KCheck evaluates the wait predicate; KGap has found the queue empty and has not blocked yet;
      KBlocked waits un-notified; KDrain is about to lock the queue; KHandle handles an event. */
  datatype Consumer = KCheck | KGap | KBlocked | KDrain | KHandle(event: PowerEvent)

  /** pending counts the producers between their push and their notify. */
  datatype Power = Power(
    queue: seq<PowerEvent>, consumer: Consumer, pending: nat, pushed: seq<PowerEvent>, handled: seq<PowerEvent>)

  datatype Action = Push(event: PowerEvent) | Notify | Check | Block | Spurious | Lock | Handled

  predicate Enabled(p: Power, a: Action) {
    match a
    case Push(_) => true
    case Notify => p.pending > 0
    case Check => p.consumer == KCheck
    case Block => p.consumer == KGap
    case Spurious => p.consumer == KBlocked
    case Lock => p.consumer == KDrain
    case Handled => p.consumer.KHandle?
  }

  /** The loop head of the drain, under the queue lock. */
  function TakeNext(p: Power): Power {
    if p.queue == [] then p.(consumer := KCheck)
    else p.(consumer := KHandle(p.queue[0]), queue := p.queue[1..])
  }

  function Next(p: Power, a: Action): Power
    requires Enabled(p, a)
  {
    match a
    case Push(e) => p.(queue := p.queue + [e], pushed := p.pushed + [e], pending := p.pending + 1)
    case Notify => p.(pending := p.pending - 1, consumer := if p.consumer == KBlocked then KCheck else p.consumer)
    case Check => if p.queue == [] then p.(consumer := KGap) else p.(consumer := KDrain)
    case Block => p.(consumer := KBlocked)
    case Spurious => p.(consumer := KCheck)
    case Lock => TakeNext(p)
    case Handled => TakeNext(p.(handled := p.handled + [p.consumer.event]))
  }

  predicate ValidRun(p: Power, run: seq<Action>)
    decreases |run|
  {
    run == [] || (Enabled(p, run[0]) && ValidRun(Next(p, run[0]), run[1..]))
  }

  function Exec(p: Power, run: seq<Action>): Power
    requires ValidRun(p, run)
    decreases |run|
  {
    if run == [] then p else Exec(Next(p, run[0]), run[1..])
  }

  lemma Prepend(p: Power, a: Action, rest: seq<Action>) returns (run: seq<Action>)
    requires Enabled(p, a) && ValidRun(Next(p, a), rest)
    ensures ValidRun(p, run) && Exec(p, run) == Exec(Next(p, a), rest)
  {
    run := [a] + rest;
    assert run[1..] == rest;
  }

  /** A run cut in two. */
  lemma {:induction false} Cut(p: Power, run: seq<Action>, k: nat)
    requires ValidRun(p, run) && k <= |run|
    ensures ValidRun(p, run[..k]) && ValidRun(Exec(p, run[..k]), run[k..])
    ensures Exec(p, run) == Exec(Exec(p, run[..k]), run[k..])
    decreases |run|
  {
    if k == 0 {
      assert run[..0] == [] && run[0..] == run;
    } else {
      Cut(Next(p, run[0]), run[1..], k - 1);
      assert run[..k][1..] == run[1..][..k - 1];
      assert run[k..] == run[1..][k - 1..];
    }
  }

  const IDLE := Power([], KCheck, 0, [], [])

  // ---- Order and conservation ----

  function InHand(k: Consumer): seq<PowerEvent> {
    match k case KHandle(e) => [e] case _ => []
  }

  predicate Conserved(p: Power) {
    p.handled + InHand(p.consumer) + p.queue == p.pushed
  }

  lemma ConservedStep(p: Power, a: Action)
    requires Conserved(p) && Enabled(p, a)
    ensures Conserved(Next(p, a))
  {
    if p.queue != [] {
      assert p.queue == [p.queue[0]] + p.queue[1..];
    }
  }

  lemma {:induction false} ConservedRun(p: Power, run: seq<Action>)
    requires Conserved(p) && ValidRun(p, run)
    ensures Conserved(Exec(p, run))
    decreases |run|
  {
    if run != [] {
      ConservedStep(p, run[0]);
      ConservedRun(Next(p, run[0]), run[1..]);
    }
  }

  /** The events of the pushes of a run, in order. */
  function Pushes(run: seq<Action>): seq<PowerEvent> {
    if run == [] then [] else (if run[0].Push? then [run[0].event] else []) + Pushes(run[1..])
  }

  /** Every push reaches the queue, once and in order. */
  lemma {:induction false} PushesAccounted(p: Power, run: seq<Action>)
    requires ValidRun(p, run)
    ensures Exec(p, run).pushed == p.pushed + Pushes(run)
    decreases |run|
  {
    if run != [] {
      PushesAccounted(Next(p, run[0]), run[1..]);
    }
  }

  /** Conservation: in every interleaving each pushed event is handled, in hand or queued, in order
      and once. */
  lemma NothingLostOrReordered(run: seq<Action>)
    requires ValidRun(IDLE, run)
    ensures var p := Exec(IDLE, run); p.handled + InHand(p.consumer) + p.queue == p.pushed == Pushes(run)
  {
    PushesAccounted(IDLE, run);
    ConservedRun(IDLE, run);
  }

  /** A drain pass ends only on an empty queue, with everything pushed so far handled. */
  lemma DrainEndsEmpty(run: seq<Action>, a: Action)
    requires ValidRun(IDLE, run) && Enabled(Exec(IDLE, run), a)
    requires var p := Exec(IDLE, run); p.consumer == KDrain || p.consumer.KHandle?
    requires Next(Exec(IDLE, run), a).consumer !in {KDrain} && !Next(Exec(IDLE, run), a).consumer.KHandle?
    ensures var q := Next(Exec(IDLE, run), a); q.queue == [] && q.handled == q.pushed
  {
    ConservedRun(IDLE, run);
    ConservedStep(Exec(IDLE, run), a);
  }

  // ---- Missed wake-ups ----

  /** The consumer has looked and has not been woken since. */
  predicate Waiting(k: Consumer) { k == KGap || k == KBlocked }

  /** The step ends a wait. */
  predicate Wakes(p: Power, a: Action) {
    p.consumer == KBlocked && (a == Notify || a == Spurious)
  }

  predicate WakesAt(run: seq<Action>, j: nat)
    requires j < |run|
  {
    ValidRun(IDLE, run[..j]) && Wakes(Exec(IDLE, run[..j]), run[j])
  }

  /** The i-th step notifies a consumer that has found the queue empty and not blocked yet, although
      work has come in between; no later step wakes it. */
  predicate MissedAt(run: seq<Action>, i: nat)
    requires ValidRun(IDLE, run) && i < |run|
  {
    && ValidRun(IDLE, run[..i])
    && run[i] == Notify && Exec(IDLE, run[..i]).consumer == KGap && Exec(IDLE, run[..i]).queue != []
    && forall j: nat | i < j < |run| :: !WakesAt(run, j)
  }

  predicate Missed(run: seq<Action>)
    requires ValidRun(IDLE, run)
  {
    exists i: nat | i < |run| :: MissedAt(run, i)
  }

  /** The run without its last step. */
  lemma Front(run: seq<Action>) returns (front: seq<Action>, a: Action)
    requires ValidRun(IDLE, run) && run != []
    ensures run == front + [a] && ValidRun(IDLE, front) && Enabled(Exec(IDLE, front), a)
    ensures Exec(IDLE, run) == Next(Exec(IDLE, front), a)
  {
    var n := |run| - 1;
    front, a := run[..n], run[n];
    Cut(IDLE, run, n);
    assert run[n..] == [a] && run[n..][1..] == [];
  }

  lemma MissedStep(front: seq<Action>, a: Action)
    requires ValidRun(IDLE, front) && ValidRun(IDLE, front + [a])
    ensures Missed(front + [a]) <==>
            var p := Exec(IDLE, front);
            (Missed(front) && !Wakes(p, a)) || (a == Notify && p.consumer == KGap && p.queue != [])
  {
    var run, n := front + [a], |front|;
    forall j: nat | j <= n ensures run[..j] == front[..j] { AppendSlice(front, a, j); }
    assert front[..n] == front;
    forall j: nat | j < n ensures WakesAt(run, j) == WakesAt(front, j) { assert run[..j] == front[..j]; }
    assert WakesAt(run, n) == Wakes(Exec(IDLE, front), a);
    forall i: nat | i < n ensures MissedAt(run, i) <==> MissedAt(front, i) && !WakesAt(run, n) {
      assert run[..i] == front[..i];
      if MissedAt(run, i) {
        forall j: nat | i < j < n ensures !WakesAt(front, j) { assert !WakesAt(run, j); }
      }
    }
    assert MissedAt(run, n) <==> a == Notify && Exec(IDLE, front).consumer == KGap && Exec(IDLE, front).queue != [];
    if Missed(front) && !Wakes(Exec(IDLE, front), a) {
      var i: nat :| i < n && MissedAt(front, i);
      assert MissedAt(run, i);
    }
  }

  /** Notifications still to come cover the queued events, except after a missed one. */
  lemma {:induction false} MissedOverRun(run: seq<Action>)
    requires ValidRun(IDLE, run)
    ensures var p := Exec(IDLE, run);
            && (Missed(run) ==> Waiting(p.consumer) && p.queue != [])
            && (Waiting(p.consumer) && p.queue != [] ==> p.pending > 0 || Missed(run))
    decreases |run|
  {
    if run != [] {
      var front, a := Front(run);
      MissedOverRun(front);
      MissedStep(front, a);
    }
  }

  /** A consumer that waits on work nobody is about to announce: exactly when a notification came
      between its look at the queue and its block, after the push, and no wake since. */
  lemma ForgottenExactly(run: seq<Action>)
    requires ValidRun(IDLE, run)
    ensures var p := Exec(IDLE, run);
            p.consumer == KBlocked && p.pending == 0 ==> (p.queue != [] <==> Missed(run))
  {
    MissedOverRun(run);
  }

  /** The run that forgets: wait, wake without cause, look, push, notify, block. */
  lemma WakeUpCanBeMissed(e: PowerEvent) returns (run: seq<Action>)
    ensures ValidRun(IDLE, run)
    ensures var p := Exec(IDLE, run); p.consumer == KBlocked && p.pending == 0 && p.queue == [e] && p.handled == []
  {
    var p1 := Next(IDLE, Check);
    var p2 := Next(p1, Push(e));
    var p3 := Next(p2, Notify);
    run := Prepend(p3, Block, []);
    run := Prepend(p2, Notify, run);
    run := Prepend(p1, Push(e), run);
    run := Prepend(IDLE, Check, run);
    var blocked := Next(p1, Block);
    run := Prepend(blocked, Spurious, run);
    run := Prepend(p1, Block, run);
    run := Prepend(IDLE, Check, run);
  }

  // ---- Progress ----

  /** Steps of the consumer itself, other than waking without cause. */
  predicate Own(a: Action) {
    a == Check || a == Block || a == Lock || a == Handled
  }

  function OwnSteps(run: seq<Action>): nat {
    if run == [] then 0 else (if Own(run[0]) then 1 else 0) + OwnSteps(run[1..])
  }

  /** Own steps until the consumer has handled the next event. */
  function StepsToHandle(k: Consumer): nat {
    match k
    case KHandle(_) => 1
    case KDrain => 2
    case KCheck => 3
    case KBlocked => 3
    case KGap => 4
  }

  /** The events pushed and not handled yet, in order. */
  function Unhandled(p: Power): seq<PowerEvent> {
    InHand(p.consumer) + p.queue
  }

  lemma HandledGrows(p: Power, a: Action)
    requires Enabled(p, a)
    ensures p.handled <= Next(p, a).handled
  {
  }

  lemma {:induction false} HandledGrowsOverRun(p: Power, run: seq<Action>)
    requires ValidRun(p, run)
    ensures p.handled <= Exec(p, run).handled
    decreases |run|
  {
    if run != [] {
      HandledGrows(p, run[0]);
      HandledGrowsOverRun(Next(p, run[0]), run[1..]);
    }
  }

  lemma UnhandledStep(p: Power, a: Action)
    requires Enabled(p, a) && Unhandled(p) != [] && a != Handled
    ensures Next(p, a).handled == p.handled && Unhandled(p) <= Unhandled(Next(p, a))
    ensures StepsToHandle(Next(p, a).consumer) + (if Own(a) then 1 else 0) <= StepsToHandle(p.consumer)
  {
    if p.queue != [] {
      assert p.queue == [p.queue[0]] + p.queue[1..];
    }
  }

  /** The oldest unhandled event is handled next, within four own steps of the consumer, whatever the
      producers do meanwhile. */
  lemma {:induction false} HandledSoon(p: Power, run: seq<Action>)
    requires ValidRun(p, run) && Unhandled(p) != [] && OwnSteps(run) >= StepsToHandle(p.consumer)
    ensures p.handled + [Unhandled(p)[0]] <= Exec(p, run).handled
    decreases |run|
  {
    var a, q := run[0], Next(p, run[0]);
    if a == Handled {
      HandledGrowsOverRun(q, run[1..]);
    } else {
      UnhandledStep(p, a);
      HandledSoon(q, run[1..]);
    }
  }

  /** Until the first wake only producers move. */
  lemma {:induction false} AsleepUntil(p: Power, run: seq<Action>, w: nat)
    requires ValidRun(p, run) && p.consumer == KBlocked
    requires w < |run| && (run[w] == Notify || run[w] == Spurious)
    requires forall j :: 0 <= j < w ==> run[j] != Notify && run[j] != Spurious
    ensures ValidRun(p, run[..w + 1])
    ensures var q := Exec(p, run[..w + 1]); q.consumer == KCheck && q.handled == p.handled && p.queue <= q.queue
    decreases |run|
  {
    Cut(p, run, w + 1);
    assert run[..w + 1][1..] == run[1..][..w];
    if w == 0 {
      assert run[..1] == [run[0]];
    } else {
      assert run[0].Push?;
      assert forall j :: 0 <= j < w - 1 ==> run[1..][j] == run[j + 1];
      AsleepUntil(Next(p, run[0]), run[1..], w - 1);
    }
  }

  /** A missed wake-up is only a delay: whatever happens afterwards, the first notify or spurious wake
      lets the consumer go on, and three own steps then suffice for the forgotten event to be handled,
      before any other. */
  lemma MissedIsOnlyDelayed(before: seq<Action>, after: seq<Action>, w: nat)
    requires ValidRun(IDLE, before) && ValidRun(Exec(IDLE, before), after)
    requires var p := Exec(IDLE, before); p.consumer == KBlocked && p.queue != []
    requires w < |after| && (after[w] == Notify || after[w] == Spurious)
    requires forall j :: 0 <= j < w ==> after[j] != Notify && after[j] != Spurious
    ensures var p := Exec(IDLE, before);
            && (OwnSteps(after[w + 1..]) >= 3 ==> p.handled + [p.queue[0]] <= Exec(p, after).handled)
            && ValidRun(p, after[..w + 1]) && Exec(p, after[..w + 1]).consumer == KCheck
            && Exec(p, after[..w + 1]).handled == p.handled && p.queue <= Exec(p, after[..w + 1]).queue
  {
    var p := Exec(IDLE, before);
    AsleepUntil(p, after, w);
    Cut(p, after, w + 1);
    var q := Exec(p, after[..w + 1]);
    if OwnSteps(after[w + 1..]) >= 3 {
      HandledSoon(q, after[w + 1..]);
    }
  }

  /** A step that continues what has begun, other than a wake-up without cause. */
  predicate Internal(a: Action) {
    !a.Push? && a != Spurious
  }

  ghost predicate CanMove(p: Power) {
    exists a :: Internal(a) && Enabled(p, a)
  }

  function ConsumerWork(p: Power): nat {
    match p.consumer
    case KBlocked => 0
    case KGap => 1
    case KCheck => if p.queue == [] then 2 else 4
    case KDrain => 3
    case KHandle(_) => 3
  }

  function Work(p: Power): nat {
    5 * p.pending + |p.queue| + ConsumerWork(p)
  }

  lemma WorkDecreases(p: Power, a: Action)
    requires Enabled(p, a) && Internal(a)
    ensures Work(Next(p, a)) < Work(p)
  {
  }

  lemma StuckExactly(p: Power)
    ensures !CanMove(p) <==> p.consumer == KBlocked && p.pending == 0
  {
    match p.consumer
    case KCheck => assert Enabled(p, Check);
    case KGap => assert Enabled(p, Block);
    case KDrain => assert Enabled(p, Lock);
    case KHandle(_) => assert Enabled(p, Handled);
    case KBlocked => if p.pending > 0 { assert Enabled(p, Notify); }
  }

  lemma {:induction false} InternalIsBounded(p: Power, run: seq<Action>)
    requires ValidRun(p, run) && forall a :: a in run ==> Internal(a)
    ensures |run| + Work(Exec(p, run)) <= Work(p)
    decreases |run|
  {
    if run != [] {
      assert run[0] in run;
      WorkDecreases(p, run[0]);
      InternalIsBounded(Next(p, run[0]), run[1..]);
    }
  }

  lemma {:induction false} Join(p: Power, before: seq<Action>, after: seq<Action>)
    requires ValidRun(p, before) && ValidRun(Exec(p, before), after)
    ensures ValidRun(p, before + after) && Exec(p, before + after) == Exec(Exec(p, before), after)
    decreases |before|
  {
    if before == [] {
      assert before + after == after;
    } else {
      assert (before + after)[1..] == before[1..] + after;
      Join(Next(p, before[0]), before[1..], after);
    }
  }

  /** Without new events the threads make no more than Work further steps, and when they can make none
      every pushed event has been handled, exactly unless a wake-up was missed. */
  lemma DrainsExactly(before: seq<Action>, after: seq<Action>)
    requires ValidRun(IDLE, before) && ValidRun(Exec(IDLE, before), after)
    requires forall a :: a in after ==> Internal(a)
    ensures |after| <= Work(Exec(IDLE, before))
    ensures ValidRun(IDLE, before + after) && Exec(IDLE, before + after) == Exec(Exec(IDLE, before), after)
    ensures var p := Exec(IDLE, before + after);
            !CanMove(p) ==> (p.handled == p.pushed <==> !Missed(before + after))
  {
    InternalIsBounded(Exec(IDLE, before), after);
    Join(IDLE, before, after);
    StuckExactly(Exec(IDLE, before + after));
    ForgottenExactly(before + after);
    ConservedRun(IDLE, before + after);
  }
}
