/**
 The promises of the keyboard stream and the executor, for every schedule of
 operations and interrupts.
 */
module WakeupTheorems {
  import opened Options
  import opened WakeupMachine
  import opened WakeupSafety

  function Reached(kb: TaskId, events: seq<Event>): State {
    Run(Init(kb), events)
  }

  lemma {:induction false} ReachedInv(kb: TaskId, events: seq<Event>)
    ensures Inv(Reached(kb, events)) && Reached(kb, events).kb == kb
  {
    InitInv(kb);
    RunInv(Init(kb), events);
  }

  // While the keyboard task waits, its id is queued, or its waker is stored and
  // there is nothing to read.
  lemma {:induction false} NoWakeupIsLost(kb: TaskId, events: seq<Event>)
    ensures var s := Reached(kb, events);
      s.panic.None? && kb in s.tasks && !KbPolling(s) ==>
        kb in s.taskQueue || (s.waker == Some(kb) && s.scancodes == Some([]))
  {
    ReachedInv(kb, events);
  }

  // The CPU sleeps only when every accepted scancode was delivered and the next one
  // will wake the keyboard task.
  lemma {:induction false} SleepIsSafe(kb: TaskId, events: seq<Event>)
    ensures var s := Reached(kb, events);
      s.panic.None? && s.pc.Halted? ==>
        && s.taskQueue == []
        && (kb in s.tasks ==>
              && s.scancodes == Some([])
              && s.waker == Some(kb)
              && s.hist.delivered == s.hist.accepted)
  {
    ReachedInv(kb, events);
    var s := Reached(kb, events);
    if s.panic.None? && s.pc.Halted? && kb in s.tasks {
      assert s.hist.delivered + [] + [] == s.hist.delivered;
    }
  }

  // A keyboard future that was started is never removed: print_keypresses does not end.
  lemma {:induction false} KeyboardStaysSpawned(kb: TaskId, events: seq<Event>)
    ensures var s := Reached(kb, events);
      s.kbStarted || s.scancodes.Some? || KbPolling(s) ==> kb in s.tasks
  {
    ReachedInv(kb, events);
  }

  // poll_next holds a reference to the initialised queue from its first operation on.
  lemma {:induction false} PollingIsInitialised(kb: TaskId, events: seq<Event>)
    ensures var s := Reached(kb, events);
      KbPolling(s) && !s.pc.Popped? && !s.pc.KbInit? ==> s.scancodes.Some?
  {
    ReachedInv(kb, events);
  }

  lemma {:induction false} NothingPolledAtBoot(kb: TaskId, events: seq<Event>)
    ensures var s := Reached(kb, events); s.pc.Boot? ==> s.hist.log == []
  {
    ReachedInv(kb, events);
  }

  // Between the operations named in Pc, interrupts are disabled only inside sleep_if_idle.
  lemma {:induction false} InterruptsStayEnabled(kb: TaskId, events: seq<Event>)
    ensures var s := Reached(kb, events);
      s.irqEnabled <==> !(s.pc.CheckIdle? || s.pc.GoHalt? || s.pc.GoEnable?)
  {
    ReachedInv(kb, events);
  }

  // Accepted scancodes are delivered once each, in order, and a Ready poll leaves no
  // waker behind.
  lemma {:induction false} StreamIsFaithful(kb: TaskId, events: seq<Event>)
    ensures var s := Reached(kb, events);
      && s.hist.accepted == s.hist.delivered + InFlight(s.pc) + Queued(s)
      && |Queued(s)| <= 100
      && (s.pc.KbReady? ==> s.waker.None?)
  {
    ReachedInv(kb, events);
  }

  // A key press is lost exactly when the stream does not exist yet, or when exactly 100
  // accepted scancodes have not been taken out yet.
  lemma {:induction false} DropsExactlyWhenFull(kb: TaskId, events: seq<Event>, code: Scancode)
    requires Reached(kb, events).panic.None? && Reached(kb, events).irqEnabled
    ensures var s := Reached(kb, events);
      var s' := Step(s, Keypress(code));
      var taken := |s.hist.delivered| + |InFlight(s.pc)|;
      if !s.kbStarted || |s.hist.accepted| - taken == 100
      then s'.hist.dropped == s.hist.dropped + [code] && s'.hist.accepted == s.hist.accepted
      else s'.hist.dropped == s.hist.dropped && s'.hist.accepted == s.hist.accepted + [code]
  {
    ReachedInv(kb, events);
  }

  // Duplicate wakeups are paid for by races the second pop won.
  lemma {:induction false} DuplicatesAreBounded(kb: TaskId, events: seq<Event>)
    ensures var s := Reached(kb, events);
      Count(s.taskQueue, kb) + (if s.waker == Some(kb) then 1 else 0) <= 1 + s.hist.raceWins
  {
    ReachedInv(kb, events);
  }

  // No future is polled after it returned Ready, however many stale ids are queued; a
  // stored waker is always cached too, so waking it never frees memory in a handler.
  lemma {:induction false} PollsEndAtReady(kb: TaskId, events: seq<Event>)
    ensures var s := Reached(kb, events);
      && NoPollAfterReady(s.hist.log)
      && s.wakerCache <= s.tasks
      && (s.waker.Some? ==> s.waker.value in s.wakerCache)
  {
    ReachedInv(kb, events);
  }

  // The two expects of the stream never fail; once run() has begun, the only panic left
  // is a waker that finds the queue full.
  lemma {:induction false} OnlyOnePanicIsLeft(kb: TaskId, events: seq<Event>)
    ensures var s := Reached(kb, events);
      && s.panic != Some(InitTwice)
      && s.panic != Some(NotInitialized)
      && (s.panic.Some? && !s.pc.Boot? ==> s.panic == Some(WakeQueueFull))
  {
    ReachedInv(kb, events);
    var s := Reached(kb, events);
    if s.panic.Some? {
      match s.panic.value
      case SpawnSameId =>
      case SpawnQueueFull =>
      case WakeQueueFull =>
      case InitTwice =>
      case NotInitialized =>
    }
  }

  // -------- the queue of woken ids is first in, first out --------

  lemma {:induction false} MainOnlyAppends(s: State, choice: Choice)
    ensures s.hist.pushed <= MainStep(s, choice).hist.pushed
  {
    match s.pc
    case OtherPoll(_) =>
    case _ => assert MainStep(s, choice).hist.pushed == s.hist.pushed;
  }

  lemma {:induction false} StepOnlyAppends(s: State, e: Event)
    ensures s.hist.pushed <= Step(s, e).hist.pushed
  {
    if e.Main? {
      MainOnlyAppends(s, e.choice);
    }
  }

  lemma {:induction false} RunOnlyAppends(s: State, events: seq<Event>)
    ensures s.hist.pushed <= Run(s, events).hist.pushed
    decreases |events|
  {
    hide Step;
    if events == [] {
    } else {
      StepOnlyAppends(s, events[0]);
      RunOnlyAppends(Step(s, events[0]), events[1..]);
    }
  }

  // Whatever is woken meanwhile, the id at position k is the result of the (k+1)-th pop
  // from now on.
  lemma {:induction false} PopsFollowTheQueue(kb: TaskId, events: seq<Event>, more: seq<Event>, k: nat)
    requires k < |Reached(kb, events).taskQueue|
    requires var s := Reached(kb, events); |Run(s, more).hist.popped| > |s.hist.popped| + k
    ensures var s := Reached(kb, events);
      Run(s, more).hist.popped[|s.hist.popped| + k] == s.taskQueue[k]
  {
    var s := Reached(kb, events);
    var s' := Run(s, more);
    ReachedInv(kb, events);
    RunInv(s, more);
    RunOnlyAppends(s, more);
    var n := |s.hist.popped| + k;
    assert s'.hist.popped[n] == s'.hist.pushed[n] == s.hist.pushed[n];
  }

  // How task_queue changes, for every event that does not panic: an accepted key press with
  // a stored waker queues the keyboard id, a wake queues the id it names, spawn the new id,
  // all at the back; the executor takes the front; nothing else touches it.
  lemma {:induction false} QueueMoves(kb: TaskId, events: seq<Event>, e: Event)
    requires Reached(kb, events).panic.None? && Step(Reached(kb, events), e).panic.None?
    ensures var s := Reached(kb, events);
      var queue := Step(s, e).taskQueue;
      if e.Keypress? && s.irqEnabled && s.waker.Some? && |Queued(s)| < 100 then queue == s.taskQueue + [kb]
      else if e.Main? && s.pc.OtherPoll? && e.choice.Wake? && e.choice.id != kb
      then queue == s.taskQueue + [e.choice.id]
      else if e.Spawn? && s.pc.Boot? then queue == s.taskQueue + [e.id]
      else if e.Main? && s.pc.LoopHead? && s.taskQueue != [] then queue == s.taskQueue[1..]
      else queue == s.taskQueue
  {
    ReachedInv(kb, events);
    hide Reached;
    StepMovesQueue(Reached(kb, events), e);
  }

  lemma {:induction false} StepMovesQueue(s: State, e: Event)
    requires Inv(s) && s.panic.None? && Step(s, e).panic.None?
    ensures var queue := Step(s, e).taskQueue;
      if e.Keypress? && s.irqEnabled && s.waker.Some? && |Queued(s)| < 100 then queue == s.taskQueue + [s.kb]
      else if e.Main? && s.pc.OtherPoll? && e.choice.Wake? && e.choice.id != s.kb
      then queue == s.taskQueue + [e.choice.id]
      else if e.Spawn? && s.pc.Boot? then queue == s.taskQueue + [e.id]
      else if e.Main? && s.pc.LoopHead? && s.taskQueue != [] then queue == s.taskQueue[1..]
      else queue == s.taskQueue
  {
    assert StreamInv(s) && WakerInv(s);
    hide Inv, NoPollAfterReady;
    if e.Main? && !s.pc.LoopHead? && !(s.pc.OtherPoll? && e.choice.Wake?) {
      assert MainStep(s, e.choice).taskQueue == s.taskQueue;
    }
  }

  // -------- what a run never undoes --------

  lemma {:induction false} StepNeverUndoes(s: State, e: Event)
    requires Inv(s)
    ensures s.kb in s.tasks ==> s.kb in Step(s, e).tasks
    ensures !s.pc.Boot? ==> !Step(s, e).pc.Boot?
  {
  }

  lemma {:induction false} RunNeverUndoes(s: State, events: seq<Event>)
    requires Inv(s)
    ensures s.kb in s.tasks ==> s.kb in Run(s, events).tasks
    ensures !s.pc.Boot? ==> !Run(s, events).pc.Boot?
    decreases |events|
  {
    hide Inv, Step;
    if events == [] {
    } else {
      StepNeverUndoes(s, events[0]);
      StepFixesKeyboardId(s, events[0]);
      StepKeeps(s, events[0]);
      RunNeverUndoes(Step(s, events[0]), events[1..]);
    }
  }

  // print_keypresses is never removed, and kernel_main never gets past Executor::run.
  lemma {:induction false} RunNeverReturns(kb: TaskId, before: seq<Event>, after: seq<Event>)
    requires before <= after
    ensures kb in Reached(kb, before).tasks ==> kb in Reached(kb, after).tasks
    ensures !Reached(kb, before).pc.Boot? ==> !Reached(kb, after).pc.Boot?
  {
    assert after == before + after[|before|..];
    RunConcat(Init(kb), before, after[|before|..]);
    ReachedInv(kb, before);
    RunNeverUndoes(Reached(kb, before), after[|before|..]);
  }

  // -------- when "task queue full" happens --------

  // The expect in wake_task fails exactly when the queue is full and somebody wakes: an
  // accepted key press that finds a stored waker, or another future that calls one. A key
  // press that is itself dropped wakes nobody, so it is harmless even then.
  lemma {:induction false} OverflowExactly(kb: TaskId, events: seq<Event>, e: Event)
    requires Reached(kb, events).panic.None?
    ensures var s := Reached(kb, events);
      Step(s, e).panic == Some(WakeQueueFull) <==>
        && |s.taskQueue| == 100
        && (|| (e.Keypress? && s.irqEnabled && s.waker.Some? && |Queued(s)| < 100)
            || (e.Main? && s.pc.OtherPoll? && e.choice.Wake? && e.choice.id != kb))
  {
    ReachedInv(kb, events);
    hide Reached;
    OverflowsExactly(Reached(kb, events), e);
  }

  lemma {:induction false} OverflowsExactly(s: State, e: Event)
    requires Inv(s) && s.panic.None?
    ensures Step(s, e).panic == Some(WakeQueueFull) <==>
            && |s.taskQueue| == TASK_CAPACITY
            && (|| (e.Keypress? && s.irqEnabled && s.waker.Some? && |Queued(s)| < SCANCODE_CAPACITY)
                || (e.Main? && s.pc.OtherPoll? && e.choice.Wake? && e.choice.id != s.kb))
  {
    assert StreamInv(s) && QueueInv(s) && WakerInv(s) && MembershipInv(s);
    hide Inv, NoPollAfterReady;
  }

  predicate SpawnOnly(e: Event) {
    !(e.Main? && e.choice.Wake?)
  }

  ghost predicate OverflowInv(s: State) {
    && |s.taskQueue| <= Count(s.taskQueue, s.kb) + s.hist.others
    && (s.panic == Some(WakeQueueFull) ==> s.hist.raceWins + s.hist.others >= TASK_CAPACITY)
  }

  lemma {:induction false} OverflowMain(s: State, choice: Choice)
    requires OverflowInv(s) && s.panic.None? && !choice.Wake?
    ensures OverflowInv(MainStep(s, choice))
  {
    if !s.pc.LoopHead? {
      OnlyLoopHeadPops(s, choice);
      hide MainStep, Count;
    }
  }

  lemma {:induction false} OnlyLoopHeadPops(s: State, choice: Choice)
    requires s.panic.None? && !choice.Wake? && !s.pc.LoopHead?
    ensures var s' := MainStep(s, choice);
      && s'.taskQueue == s.taskQueue && s'.hist.others == s.hist.others && s'.kb == s.kb
      && s'.panic != Some(WakeQueueFull)
  {
  }

  lemma {:induction false} OverflowKeypress(s: State, code: nat)
    requires Inv(s) && OverflowInv(s) && s.panic.None?
    ensures OverflowInv(Step(s, Keypress(code)))
  {
    CountPush(s.taskQueue, s.kb, s.kb);
  }

  lemma {:induction false} OverflowStep(s: State, e: Event)
    requires Inv(s) && OverflowInv(s) && SpawnOnly(e) && s.panic.None?
    ensures OverflowInv(Step(s, e))
  {
    hide Inv, MainStep;
    match e
    case Keypress(code) => OverflowKeypress(s, code);
    case Timer =>
    case Spawn(id) => CountPush(s.taskQueue, id, s.kb);
    case StartRun =>
    case Main(choice) => OverflowMain(s, choice);
  }

  lemma {:induction false} OverflowRun(s: State, events: seq<Event>)
    requires Inv(s) && OverflowInv(s)
    requires forall i :: 0 <= i < |events| ==> SpawnOnly(events[i])
    ensures OverflowInv(Run(s, events))
    decreases |events|
  {
    if events == [] {
    } else {
      StepKeeps(s, events[0]);
      if s.panic.None? {
        OverflowStep(s, events[0]);
      }
      OverflowRun(Step(s, events[0]), events[1..]);
    }
  }

  // With m other tasks that are queued only by spawn, a waker finds the queue full only
  // after at least 100 - m races.
  lemma {:induction false} OverflowNeedsRaces(kb: TaskId, events: seq<Event>)
    requires forall i :: 0 <= i < |events| ==> SpawnOnly(events[i])
    requires Reached(kb, events).panic == Some(WakeQueueFull)
    ensures Reached(kb, events).hist.raceWins >= 100 - Reached(kb, events).hist.others
  {
    InitInv(kb);
    OverflowRun(Init(kb), events);
  }
}
