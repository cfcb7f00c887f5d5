/**
 What every reachable state of the wakeup protocol satisfies, whatever points the
 interrupts land on.
 */
module WakeupSafety {
  import opened Options
  import opened WakeupMachine

  function Count(q: seq<TaskId>, id: TaskId): (n: nat)
    ensures n <= |q|
  {
    if q == [] then 0 else (if q[0] == id then 1 else 0) + Count(q[1..], id)
  }

  lemma {:induction false} CountPush(q: seq<TaskId>, x: TaskId, id: TaskId)
    ensures Count(q + [x], id) == Count(q, id) + if x == id then 1 else 0
  {
    if q == [] {
      assert q + [x] == [x];
    } else {
      assert (q + [x])[0] == q[0] && (q + [x])[1..] == q[1..] + [x];
      CountPush(q[1..], x, id);
    }
  }

  lemma {:induction false} CountAbsent(q: seq<TaskId>, id: TaskId)
    requires id !in q
    ensures Count(q, id) == 0
  {
    if q == [] {
    } else {
      CountAbsent(q[1..], id);
    }
  }

  // A scancode that left the queue but has not been handed to the consumer yet.
  function InFlight(pc: Pc): seq<Scancode> {
    match pc
    case KbTake(code) => [code]
    case KbReady(code) => [code]
    case _ => []
  }

  // The executor is between popping the keyboard id and the return of its poll.
  predicate KbPolling(s: State) {
    match s.pc
    case Popped(id) => id == s.kb
    case KbInit => true
    case KbPop1 => true
    case KbRegister => true
    case KbPop2 => true
    case KbTake(_) => true
    case KbReady(_) => true
    case _ => false
  }

  // Copies of the keyboard id that are queued or that the stored waker can still queue.
  function Tokens(s: State): nat {
    Count(s.taskQueue, s.kb) + if s.waker.Some? then 1 else 0
  }

  // -------- the invariant, one concern at a time --------

  ghost predicate StreamInv(s: State) {
    && s.hist.accepted == s.hist.delivered + InFlight(s.pc) + Queued(s)
    && |Queued(s)| <= SCANCODE_CAPACITY
    && (s.kbStarted <==> s.scancodes.Some?)
    && (s.pc.KbInit? ==> !s.kbStarted)
    && (KbPolling(s) && !s.pc.Popped? && !s.pc.KbInit? ==> s.kbStarted)
  }

  ghost predicate QueueInv(s: State) {
    && s.hist.pushed == s.hist.popped + s.taskQueue
    && |s.taskQueue| <= TASK_CAPACITY
    && (s.irqEnabled <==> !(s.pc.CheckIdle? || s.pc.GoHalt? || s.pc.GoEnable?))
    && (s.pc.GoHalt? || s.pc.Halted? ==> s.taskQueue == [])
  }

  // Who may be known to the executor: the keyboard id only if it was spawned.
  ghost predicate MembershipInv(s: State) {
    && (s.pc.OtherPoll? ==> s.pc.id in s.tasks && s.pc.id != s.kb)
    && (s.kb in s.taskQueue || KbPolling(s) || s.waker.Some? || s.kbStarted ==> s.kb in s.tasks)
    && s.wakerCache <= s.tasks
  }

  ghost predicate LogInv(s: State) {
    && (s.pc.Boot? ==> s.hist.log == [])
    && (forall i :: 0 <= i < |s.hist.log| && s.hist.log[i].PollReady? ==> s.hist.log[i].id !in s.tasks)
    && NoPollAfterReady(s.hist.log)
  }

  ghost predicate NoPollAfterReady(log: seq<Entry>) {
    forall i, j :: 0 <= i < j < |log| && log[i].PollReady? ==> log[j].id != log[i].id
  }

  ghost predicate WakerInv(s: State) {
    && (s.waker.Some? ==> s.waker.value == s.kb && s.kb in s.wakerCache)
    && (s.waker.Some? && !s.pc.KbPop2? && !s.pc.KbTake? ==> s.scancodes == Some([]))
    && (KbPolling(s) && !s.pc.Popped? ==> s.kb in s.wakerCache)
    && (s.pc.KbReady? ==> s.waker.None?)
    && (s.panic.None? && s.pc.KbPop2? ==>
          s.waker.Some? || (s.kb in s.taskQueue && Queued(s) != []))
  }

  ghost predicate NoLostWakeup(s: State) {
    s.panic.None? && s.kb in s.tasks && !KbPolling(s) ==>
      s.kb in s.taskQueue || (s.waker == Some(s.kb) && s.scancodes == Some([]))
  }

  ghost predicate TokenInv(s: State) {
    Tokens(s) <= s.hist.raceWins + if KbPolling(s) && !s.pc.KbPop2? then 0 else 1
  }

  ghost predicate PanicInv(s: State) {
    && s.panic != Some(InitTwice)
    && s.panic != Some(NotInitialized)
    && (s.panic == Some(SpawnSameId) || s.panic == Some(SpawnQueueFull) ==> s.pc.Boot?)
  }

  ghost predicate Inv(s: State) {
    && StreamInv(s)
    && QueueInv(s)
    && MembershipInv(s)
    && LogInv(s)
    && WakerInv(s)
    && NoLostWakeup(s)
    && TokenInv(s)
    && PanicInv(s)
  }

  lemma {:induction false} InitInv(kb: TaskId)
    ensures Inv(Init(kb))
  {
  }

  // -------- every atomic operation keeps it --------

  // No waker is stored, or the scancode is dropped: nothing is woken.
  lemma {:induction false} QuietKeypressKeeps(s: State, code: Scancode)
    requires Inv(s) && s.panic.None? && s.irqEnabled
    requires s.waker.None? || s.scancodes.None? || |Queued(s)| >= SCANCODE_CAPACITY
    ensures Inv(Resume(AddScancode(s, code)))
  {
    var s' := AddScancode(s, code);
    if s.scancodes.Some? && |Queued(s)| < SCANCODE_CAPACITY {
      assert s.hist.accepted + [code] == s.hist.delivered + InFlight(s.pc) + (Queued(s) + [code]);
    }
    assert StreamInv(Resume(s'));
  }

  // The scancode is queued and the stored waker pushes the keyboard id.
  lemma {:induction false} WakingKeypressKeeps(s: State, code: Scancode)
    requires Inv(s) && s.panic.None? && s.irqEnabled
    requires s.waker.Some? && s.scancodes.Some? && |Queued(s)| < SCANCODE_CAPACITY
    ensures Inv(Resume(AddScancode(s, code)))
  {
    var s' := Resume(AddScancode(s, code));
    assert StreamInv(s') by {
      assert s.hist.accepted + [code] == s.hist.delivered + InFlight(s.pc) + (Queued(s) + [code]);
    }
    assert s'.hist.log == s.hist.log && s'.tasks == s.tasks;
    assert TokenInv(s') by {
      CountPush(s.taskQueue, s.kb, s.kb);
    }
    assert s'.panic.None? ==> s'.kb in s'.taskQueue;
  }

  lemma {:induction false} SpawnKeeps(s: State, id: TaskId)
    requires Inv(s) && s.panic.None? && s.pc.Boot?
    ensures Inv(SpawnTask(s, id))
  {
    var s' := SpawnTask(s, id);
    assert s'.hist.log == [] && s'.waker == s.waker && s'.wakerCache == s.wakerCache;
    assert TokenInv(s') by {
      CountPush(s.taskQueue, id, s.kb);
      if s.kb !in s.tasks {
        CountAbsent(s.taskQueue, s.kb);
      }
    }
    assert MembershipInv(s');
  }

  lemma {:induction false} PopTaskKeeps(s: State)
    requires Inv(s) && s.panic.None? && s.pc.LoopHead?
    ensures Inv(PopTask(s))
  {
    if s.taskQueue != [] {
      assert s.taskQueue == [s.taskQueue[0]] + s.taskQueue[1..];
    }
  }

  lemma {:induction false} BeginPollKeeps(s: State)
    requires Inv(s) && s.panic.None? && s.pc.Popped?
    ensures Inv(BeginPoll(s, s.pc.id))
  {
  }

  lemma {:induction false} PollOtherKeeps(s: State, choice: Choice)
    requires Inv(s) && s.panic.None? && s.pc.OtherPoll?
    ensures Inv(PollOther(s, s.pc.id, choice))
  {
    if choice.Wake? {
      OtherWakeKeeps(s, choice.id);
    } else if choice.ReturnReady? {
      OtherReadyKeeps(s);
    }
  }

  lemma {:induction false} OtherWakeKeeps(s: State, id: TaskId)
    requires Inv(s) && s.panic.None? && s.pc.OtherPoll?
    ensures Inv(PollOther(s, s.pc.id, Wake(id)))
  {
    CountPush(s.taskQueue, id, s.kb);
    hide Count, NoPollAfterReady;
  }

  lemma {:induction false} OtherReadyKeeps(s: State)
    requires Inv(s) && s.panic.None? && s.pc.OtherPoll?
    ensures Inv(PollOther(s, s.pc.id, ReturnReady))
  {
    hide Count;
  }

  lemma {:induction false} InitStreamKeeps(s: State)
    requires Inv(s) && s.panic.None? && s.pc.KbInit?
    ensures Inv(InitStream(s))
  {
  }

  lemma {:induction false} FirstPopKeeps(s: State)
    requires Inv(s) && s.panic.None? && s.pc.KbPop1?
    ensures Inv(FirstPop(s))
  {
    var q := Queued(s);
    if q != [] {
      assert s.hist.delivered + [] + q == s.hist.delivered + [q[0]] + q[1..];
    }
  }

  lemma {:induction false} SecondPopKeeps(s: State)
    requires Inv(s) && s.panic.None? && s.pc.KbPop2?
    ensures Inv(SecondPop(s))
  {
    var q := Queued(s);
    if q != [] {
      assert s.hist.delivered + [] + q == s.hist.delivered + [q[0]] + q[1..];
    }
  }

  lemma {:induction false} RegisterAndTakeKeep(s: State, choice: Choice)
    requires Inv(s) && s.panic.None? && (s.pc.KbRegister? || s.pc.KbTake?)
    ensures Inv(MainStep(s, choice))
  {
  }

  lemma {:induction false} DeliverKeeps(s: State)
    requires Inv(s) && s.panic.None? && s.pc.KbReady?
    ensures Inv(Deliver(s, s.pc.code))
  {
  }

  lemma {:induction false} SleepKeeps(s: State, choice: Choice)
    requires Inv(s) && s.panic.None?
    requires s.pc.SleepEntry? || s.pc.CheckIdle? || s.pc.GoHalt? || s.pc.GoEnable?
    ensures Inv(MainStep(s, choice))
  {
  }

  lemma {:induction false} MainKeeps(s: State, choice: Choice)
    requires Inv(s) && s.panic.None?
    ensures Inv(MainStep(s, choice))
  {
    match s.pc
    case Boot =>
    case LoopHead => PopTaskKeeps(s);
    case Popped(_) => BeginPollKeeps(s);
    case KbInit => InitStreamKeeps(s);
    case KbPop1 => FirstPopKeeps(s);
    case KbRegister => RegisterAndTakeKeep(s, choice);
    case KbPop2 => SecondPopKeeps(s);
    case KbTake(_) => RegisterAndTakeKeep(s, choice);
    case KbReady(_) => DeliverKeeps(s);
    case OtherPoll(_) => PollOtherKeeps(s, choice);
    case Halted =>
    case _ => SleepKeeps(s, choice);
  }

  lemma {:induction false} StepKeeps(s: State, e: Event)
    requires Inv(s)
    ensures Inv(Step(s, e))
  {
    if s.panic.None? {
      match e
      case Keypress(code) =>
        if s.irqEnabled {
          if s.waker.Some? && s.scancodes.Some? && |Queued(s)| < SCANCODE_CAPACITY {
            WakingKeypressKeeps(s, code);
          } else {
            QuietKeypressKeeps(s, code);
          }
        }
      case Timer =>
      case Spawn(id) =>
        if s.pc.Boot? {
          SpawnKeeps(s, id);
        }
      case StartRun =>
      case Main(choice) => MainKeeps(s, choice);
    }
  }

  lemma {:induction false} StepFixesKeyboardId(s: State, e: Event)
    ensures Step(s, e).kb == s.kb
  {
  }

  lemma {:induction false} RunInv(s: State, events: seq<Event>)
    requires Inv(s)
    ensures Inv(Run(s, events)) && Run(s, events).kb == s.kb
    decreases |events|
  {
    hide Inv, Step;
    if events == [] {
    } else {
      StepKeeps(s, events[0]);
      StepFixesKeyboardId(s, events[0]);
      RunInv(Step(s, events[0]), events[1..]);
    }
  }
}
