/**
 Every accepted scancode is delivered, while interrupts keep coming and other tasks keep
 waking each other: the operations needed are bounded by what was queued at the start.
 */
module WakeupDelivery {
  import opened Options
  import opened WakeupMachine
  import opened WakeupSafety
  import opened WakeupTheorems
  import opened WakeupProgress

  // Position of the first copy of an id, or the length.
  function First(q: seq<TaskId>, id: TaskId): (i: nat)
    ensures i <= |q| && (i < |q| <==> id in q)
  {
    if q == [] || q[0] == id then 0 else 1 + First(q[1..], id)
  }

  lemma {:induction false} FirstPush(q: seq<TaskId>, x: TaskId, id: TaskId)
    requires id in q
    ensures First(q + [x], id) == First(q, id)
  {
    if q[0] != id {
      assert (q + [x])[1..] == q[1..] + [x];
      FirstPush(q[1..], x, id);
    }
  }

  // Operations from here to the next KbReady, not counting the ids queued before kb.
  function Delay(s: State): nat {
    match s.pc
    case Boot => 0
    case LoopHead => 3
    case Popped(id) => if id == s.kb then 2 else 5
    case KbInit => 2
    case KbPop1 => 1
    case KbRegister => 3
    case KbPop2 => 2
    case KbTake(_) => 1
    case KbReady(_) => 0
    case OtherPoll(_) => 4
    case SleepEntry => 6
    case CheckIdle => 5
    case GoHalt => 0
    case GoEnable => 4
    case Halted => 0
  }

  // An upper bound on the operations left before n scancodes were delivered.
  function Cost(s: State, n: nat): nat {
    if |s.hist.delivered| >= n then 0
    else 2 * (n - |s.hist.delivered|) + Delay(s) + if KbPolling(s) then 0 else 3 * First(s.taskQueue, s.kb)
  }

  function CountWorks(events: seq<Event>): nat {
    if events == [] then 0 else (if Works(events[0]) then 1 else 0) + CountWorks(events[1..])
  }

  ghost predicate Owes(s: State, n: nat) {
    Running(s) && |s.hist.delivered| < n <= |s.hist.accepted|
  }

  // Something accepted is on its way: taken out, or queued with the id of its reader.
  lemma {:induction false} OwedIsOnItsWay(s: State, n: nat)
    requires Owes(s, n)
    ensures InFlight(s.pc) != [] || Queued(s) != []
    ensures !KbPolling(s) ==> s.kb in s.taskQueue
    ensures !s.pc.KbInit? && !s.pc.GoHalt? && !s.pc.Halted?
  {
  }

  lemma {:induction false} WorkLowersCost(s: State, choice: Choice, n: nat)
    requires Owes(s, n) && !choice.Wake?
    ensures Cost(MainStep(s, choice), n) < Cost(s, n)
  {
    OwedIsOnItsWay(s, n);
    hide Inv;
  }

  // Pushes go to the back: neither interrupts nor wakes move the keyboard id away.
  lemma {:induction false} PushKeepsCost(s: State, id: TaskId, p: Panic, n: nat)
    requires KbPolling(s) || s.kb in s.taskQueue
    ensures Cost(PushTask(s, id, p), n) == Cost(s, n)
  {
    hide First;
    if s.kb in s.taskQueue {
      FirstPush(s.taskQueue, id, s.kb);
    }
    var s' := PushTask(s, id, p);
    assert s'.pc == s.pc && s'.kb == s.kb && s'.hist.delivered == s.hist.delivered;
  }

  lemma {:induction false} KeypressKeepsCost(s: State, code: Scancode, n: nat)
    requires Owes(s, n)
    ensures Cost(Resume(AddScancode(s, code)), n) == Cost(s, n)
  {
    OwedIsOnItsWay(s, n);
    hide Inv;
    if s.scancodes.Some? && s.waker.Some? {
      var s1 := Accept(s, s.scancodes.value, code).(waker := None);
      PushKeepsCost(s1, s.waker.value, WakeQueueFull, n);
    }
  }

  lemma {:induction false} StepLowersCost(s: State, e: Event, n: nat)
    requires Owes(s, n)
    ensures Cost(Step(s, e), n) + (if Works(e) then 1 else 0) <= Cost(s, n)
  {
    OwedIsOnItsWay(s, n);
    match e
    case Keypress(code) => KeypressKeepsCost(s, code, n);
    case Main(choice) =>
      if !choice.Wake? {
        WorkLowersCost(s, choice, n);
      } else if s.pc.OtherPoll? {
        PushKeepsCost(s, choice.id, WakeQueueFull, n);
      } else {
        WorkLowersCost(s, ReturnPending, n);
        assert MainStep(s, choice) == MainStep(s, ReturnPending);
      }
    case _ =>
  }

  lemma {:induction false} StepAccepts(s: State, e: Event)
    ensures s.hist.accepted <= Step(s, e).hist.accepted
  {
    if e.Main? {
      assert MainStep(s, e.choice).hist.accepted == s.hist.accepted;
    }
  }

  lemma {:induction false} RunAccepts(s: State, events: seq<Event>)
    ensures s.hist.accepted <= Run(s, events).hist.accepted
    decreases |events|
  {
    hide Step;
    if events == [] {
    } else {
      StepAccepts(s, events[0]);
      RunAccepts(Step(s, events[0]), events[1..]);
    }
  }

  lemma {:induction false} StepDelivers(s: State, e: Event)
    ensures |s.hist.delivered| <= |Step(s, e).hist.delivered|
  {
    if e.Main? && !s.pc.KbReady? {
      assert MainStep(s, e.choice).hist.delivered == s.hist.delivered;
    }
  }

  lemma {:induction false} PanicStays(s: State, events: seq<Event>)
    requires s.panic.Some?
    ensures Run(s, events) == s
    decreases |events|
  {
    if events == [] {
    } else {
      PanicStays(s, events[1..]);
    }
  }

  lemma {:induction false} StepKeepsRunning(s: State, e: Event)
    requires Running(s)
    ensures Step(s, e).panic.Some? || Running(Step(s, e))
  {
    StepKeeps(s, e);
    StepNeverUndoes(s, e);
    StepFixesKeyboardId(s, e);
    hide Step, Inv;
  }

  lemma {:induction false} CostIsZero(s: State, n: nat)
    ensures Cost(s, n) == 0 <==> |s.hist.delivered| >= n
  {
  }

  lemma {:induction false} RunDelivers(s: State, events: seq<Event>, n: nat)
    requires Running(s) && n <= |s.hist.accepted| && CountWorks(events) >= Cost(s, n)
    ensures Run(s, events).panic.Some? || |Run(s, events).hist.delivered| >= n
    decreases |events|
  {
    hide Running, Step, Cost;
    CostIsZero(s, n);
    if events == [] {
    } else {
      var s' := Step(s, events[0]);
      StepKeepsRunning(s, events[0]);
      if s'.panic.Some? {
        PanicStays(s', events[1..]);
      } else {
        StepAccepts(s, events[0]);
        StepDelivers(s, events[0]);
        CostIsZero(s', n);
        if |s.hist.delivered| < n {
          StepLowersCost(s, events[0], n);
        }
        RunDelivers(s', events[1..], n);
      }
    }
  }

  // From any point of any run, whatever interrupts land and whatever other futures wake:
  // after so many operations everything accepted up to that point was delivered, in
  // order, unless a waker found the queue full.
  lemma {:induction false} AcceptedIsDelivered(kb: TaskId, events: seq<Event>, more: seq<Event>)
    requires var s := Reached(kb, events); s.panic.None? && !s.pc.Boot? && kb in s.tasks
    requires CountWorks(more) >= Cost(Reached(kb, events), |Reached(kb, events).hist.accepted|)
    ensures var s := Reached(kb, events);
      var s' := Run(s, more);
      s'.panic == Some(WakeQueueFull) || s.hist.accepted <= s'.hist.delivered
  {
    var s := Reached(kb, events);
    var s' := Run(s, more);
    ReachedInv(kb, events);
    RunDelivers(s, more, |s.hist.accepted|);
    RunConcat(Init(kb), events, more);
    RunAccepts(s, more);
    StreamIsFaithful(kb, events + more);
    OnlyOnePanicIsLeft(kb, events + more);
    RunNeverReturns(kb, events, events + more);
  }

  // At most 101 scancodes and 100 ids are ever waiting: 505 operations always suffice.
  const ENOUGH: nat := 2 * (SCANCODE_CAPACITY + 1) + 6 + 3 * (TASK_CAPACITY - 1)

  lemma {:induction false} CostIsBounded(s: State)
    requires Running(s)
    ensures Cost(s, |s.hist.accepted|) <= ENOUGH
  {
    if |s.hist.delivered| < |s.hist.accepted| {
      OwedIsOnItsWay(s, |s.hist.accepted|);
    }
  }

  lemma {:induction false} DeliveredSoon(kb: TaskId, events: seq<Event>, more: seq<Event>)
    requires var s := Reached(kb, events); s.panic.None? && !s.pc.Boot? && kb in s.tasks
    requires CountWorks(more) >= 505
    ensures var s := Reached(kb, events);
      var s' := Run(s, more);
      s'.panic == Some(WakeQueueFull) || s.hist.accepted <= s'.hist.delivered
  {
    ReachedInv(kb, events);
    CostIsBounded(Reached(kb, events));
    AcceptedIsDelivered(kb, events, more);
  }
}
