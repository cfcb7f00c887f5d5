/**
 The keyboard interrupt, the scancode stream and the waker-based executor as one
 transition system.

 The main context runs `Executor::run` one atomic operation at a time; `Pc` names
 the operation it performs next. A keyboard interrupt runs `add_scancode` as a whole
 between two such operations, whenever the interrupt flag is set. Handlers do not
 nest. A failed `expect` ends the run: the state keeps a panic reason and no event
 changes it any more.
 */
module WakeupMachine {
  import opened Options

  type TaskId = nat
  type Scancode = nat

  // ArrayQueue::new(100), both for the scancodes and for the woken ids.
  const SCANCODE_CAPACITY: nat := 100
  const TASK_CAPACITY: nat := 100

  datatype Pc =
    | Boot                     // kernel_main, before Executor::run
    | LoopHead                 // run_ready_tasks: task_queue.pop()
    | Popped(id: TaskId)       // an id was popped: look it up and start the poll
    | KbInit                   // print_keypresses: ScancodeStream::new()
    | KbPop1                   // poll_next: first queue.pop()
    | KbRegister               // poll_next: WAKER.register()
    | KbPop2                   // poll_next: second queue.pop()
    | KbTake(code: Scancode)   // poll_next: WAKER.take()
    | KbReady(code: Scancode)  // poll_next returned Ready(Some(code))
    | OtherPoll(id: TaskId)    // inside the poll of any other future
    | SleepEntry               // sleep_if_idle: interrupts::disable()
    | CheckIdle                // sleep_if_idle: task_queue.is_empty()
    | GoHalt                   // sleep_if_idle: enable_and_hlt()
    | GoEnable                 // sleep_if_idle: interrupts::enable()
    | Halted                   // the CPU sleeps in hlt

  datatype Panic =
    | SpawnSameId      // "task with same ID already in tasks"
    | SpawnQueueFull   // "queue full"
    | WakeQueueFull    // "task queue full"
    | InitTwice        // "ScancodeStream::new should only be called once"
    | NotInitialized   // "not initialized"

  // What executions leave behind: a poll that begins, a poll that returned Ready.
  datatype Entry = PollStart(id: TaskId) | PollReady(id: TaskId)

  // Records of a run; no operation of the kernel reads them.
  datatype History = History(
    accepted: seq<Scancode>,
    dropped: seq<Scancode>,
    delivered: seq<Scancode>,
    pushed: seq<TaskId>,      // ids in the order they entered task_queue
    popped: seq<TaskId>,      // ids in the order they left it
    log: seq<Entry>,
    raceWins: nat,            // successes of the second pop
    others: nat               // spawned tasks other than kb
  )

  datatype State = State(
    pc: Pc,
    panic: Option<Panic>,
    irqEnabled: bool,
    scancodes: Option<seq<Scancode>>,  // SCANCODE_QUEUE: OnceCell<ArrayQueue<u8>>
    waker: Option<TaskId>,             // WAKER: AtomicWaker
    taskQueue: seq<TaskId>,
    tasks: set<TaskId>,                // the keys of Executor.tasks
    wakerCache: set<TaskId>,           // the keys of Executor.waker_cache
    kb: TaskId,                        // id of the print_keypresses task
    kbStarted: bool,                   // that future is past ScancodeStream::new()
    hist: History
  )

  // What the poll of a future other than print_keypresses does next.
  datatype Choice = Wake(id: TaskId) | ReturnPending | ReturnReady

  datatype Event =
    | Keypress(code: Scancode)  // keyboard interrupt
    | Timer                     // an interrupt whose handler touches none of this state
    | Spawn(id: TaskId)         // Executor::spawn, from kernel_main
    | StartRun                  // Executor::run is called
    | Main(choice: Choice)      // one operation of the main context

  function Init(kb: TaskId): State {
    State(Boot, None, true, None, None, [], {}, {}, kb, false, History([], [], [], [], [], [], 0, 0))
  }

  function Fail(s: State, p: Panic): State {
    s.(panic := Some(p))
  }

  function Queued(s: State): seq<Scancode> {
    if s.scancodes.Some? then s.scancodes.value else []
  }

  // task_queue.push(id).expect(..)
  function PushTask(s: State, id: TaskId, onFull: Panic): State {
    if |s.taskQueue| >= TASK_CAPACITY then Fail(s, onFull)
    else s.(taskQueue := s.taskQueue + [id], hist := s.hist.(pushed := s.hist.pushed + [id]))
  }

  // TaskWaker::wake_task
  function WakeTask(s: State, id: TaskId): State {
    PushTask(s, id, WakeQueueFull)
  }

  // AtomicWaker::wake: take the stored waker, if any, and call it.
  function WakeSlot(s: State): State {
    match s.waker
    case None => s
    case Some(id) => WakeTask(s.(waker := None), id)
  }

  function Drop(s: State, code: Scancode): State {
    s.(hist := s.hist.(dropped := s.hist.dropped + [code]))
  }

  function Accept(s: State, q: seq<Scancode>, code: Scancode): State {
    s.(scancodes := Some(q + [code]), hist := s.hist.(accepted := s.hist.accepted + [code]))
  }

  function AddScancode(s: State, code: Scancode): State {
    match s.scancodes
    case None => Drop(s, code)
    case Some(q) =>
      if |q| >= SCANCODE_CAPACITY then Drop(s, code) else WakeSlot(Accept(s, q, code))
  }

  // An interrupt ends hlt: sleep_if_idle returns and run() loops.
  function Resume(s: State): State {
    if s.pc.Halted? then s.(pc := LoopHead) else s
  }

  // Executor::spawn
  function SpawnTask(s: State, id: TaskId): State {
    if id in s.tasks then Fail(s, SpawnSameId)
    else
      var more := if id == s.kb then 0 else 1;
      var s1 := s.(tasks := s.tasks + {id}, hist := s.hist.(others := s.hist.others + more));
      PushTask(s1, id, SpawnQueueFull)
  }

  function Log(s: State, entry: Entry): State {
    s.(hist := s.hist.(log := s.hist.log + [entry]))
  }

  // run_ready_tasks: task_queue.pop()
  function PopTask(s: State): State {
    if s.taskQueue == [] then s.(pc := SleepEntry)
    else
      var id := s.taskQueue[0];
      s.(taskQueue := s.taskQueue[1..], pc := Popped(id), hist := s.hist.(popped := s.hist.popped + [id]))
  }

  // run_ready_tasks: tasks.get_mut, waker_cache.entry, and the jump into the future.
  function BeginPoll(s: State, id: TaskId): State {
    if id !in s.tasks then s.(pc := LoopHead)
    else
      var entry := if id != s.kb then OtherPoll(id) else if s.kbStarted then KbPop1 else KbInit;
      Log(s.(wakerCache := s.wakerCache + {id}, pc := entry), PollStart(id))
  }

  // The poll of a future that only holds its own waker and those of other such futures.
  function PollOther(s: State, id: TaskId, choice: Choice): State {
    match choice
    case Wake(t) => if t == s.kb then s else WakeTask(s, t)
    case ReturnPending => s.(pc := LoopHead)
    case ReturnReady =>
      Log(s.(tasks := s.tasks - {id}, wakerCache := s.wakerCache - {id}, pc := LoopHead), PollReady(id))
  }

  // SCANCODE_QUEUE.try_init_once(..).expect(..)
  function InitStream(s: State): State {
    if s.scancodes.Some? then Fail(s, InitTwice)
    else s.(scancodes := Some([]), kbStarted := true, pc := KbPop1)
  }

  function FirstPop(s: State): State {
    match s.scancodes
    case None => Fail(s, NotInitialized)
    case Some(q) =>
      if q == [] then s.(pc := KbRegister)
      else s.(scancodes := Some(q[1..]), pc := KbReady(q[0]))
  }

  function SecondPop(s: State): State {
    match s.scancodes
    case None => Fail(s, NotInitialized)
    case Some(q) =>
      if q == [] then s.(pc := LoopHead)  // Poll::Pending
      else
        s.(scancodes := Some(q[1..]), pc := KbTake(q[0]),
        hist := s.hist.(raceWins := s.hist.raceWins + 1))
  }

  // print_keypresses received a scancode and asks for the next one.
  function Deliver(s: State, code: Scancode): State {
    s.(pc := KbPop1, hist := s.hist.(delivered := s.hist.delivered + [code]))
  }

  function MainStep(s: State, choice: Choice): State {
    match s.pc
    case Boot => s
    case LoopHead => PopTask(s)
    case Popped(id) => BeginPoll(s, id)
    case KbInit => InitStream(s)
    case KbPop1 => FirstPop(s)
    case KbRegister => s.(waker := Some(s.kb), pc := KbPop2)
    case KbPop2 => SecondPop(s)
    case KbTake(code) => s.(waker := None, pc := KbReady(code))
    case KbReady(code) => Deliver(s, code)
    case OtherPoll(id) => PollOther(s, id, choice)
    case SleepEntry => s.(irqEnabled := false, pc := CheckIdle)
    case CheckIdle => s.(pc := if s.taskQueue == [] then GoHalt else GoEnable)
    case GoHalt => s.(irqEnabled := true, pc := Halted)
    case GoEnable => s.(irqEnabled := true, pc := LoopHead)
    case Halted => s
  }

  // An event that cannot happen in `s` leaves it as it is.
  function Step(s: State, e: Event): State {
    if s.panic.Some? then s
    else
      match e
      case Keypress(code) => if s.irqEnabled then Resume(AddScancode(s, code)) else s
      case Timer => if s.irqEnabled then Resume(s) else s
      case Spawn(id) => if s.pc.Boot? then SpawnTask(s, id) else s
      case StartRun => if s.pc.Boot? then s.(pc := LoopHead) else s
      case Main(choice) => MainStep(s, choice)
  }

  function Run(s: State, events: seq<Event>): State
    decreases |events|
  {
    if events == [] then s else Run(Step(s, events[0]), events[1..])
  }

  lemma {:induction false} RunConcat(s: State, a: seq<Event>, b: seq<Event>)
    ensures Run(s, a + b) == Run(Run(s, a), b)
    decreases |a|
  {
    if a == [] {
      assert a + b == b;
    } else {
      assert (a + b)[0] == a[0] && (a + b)[1..] == a[1..] + b;
      RunConcat(Step(s, a[0]), a[1..], b);
    }
  }

  // An operation of the main context whose future, if one is polled, returns Pending.
  const STEP: Event := Main(ReturnPending)

  // What an operation of the main context is at each point of the code. These lemmas name
  // branches of Step, so that Kernel and SimpleExecutor can leave Step itself folded.

  lemma {:induction false} StepPopsScancode(s: State)
    requires s.panic.None?
    ensures s.pc.KbPop1? ==> Step(s, STEP) == FirstPop(s)
    ensures s.pc.KbPop2? ==> Step(s, STEP) == SecondPop(s)
  {
  }

  lemma {:induction false} StepChangesWaker(s: State)
    requires s.panic.None?
    ensures s.pc.KbRegister? ==> Step(s, STEP) == s.(waker := Some(s.kb), pc := KbPop2)
    ensures s.pc.KbTake? ==> Step(s, STEP) == s.(waker := None, pc := KbReady(s.pc.code))
  {
  }

  lemma {:induction false} StepConsumes(s: State)
    requires s.panic.None?
    ensures s.pc.KbInit? ==> Step(s, STEP) == InitStream(s)
    ensures s.pc.KbReady? ==> Step(s, STEP) == Deliver(s, s.pc.code)
  {
  }

  lemma {:induction false} StepSchedules(s: State)
    requires s.panic.None?
    ensures s.pc.LoopHead? ==> Step(s, STEP) == PopTask(s)
    ensures s.pc.Popped? ==> Step(s, STEP) == BeginPoll(s, s.pc.id)
  {
  }

  lemma {:induction false} StepPollsOther(s: State, choice: Choice)
    requires s.panic.None? && s.pc.OtherPoll?
    ensures Step(s, Main(choice)) == PollOther(s, s.pc.id, choice)
  {
  }

  lemma {:induction false} StepSleeps(s: State)
    requires s.panic.None?
    ensures s.pc.SleepEntry? ==> Step(s, STEP) == s.(irqEnabled := false, pc := CheckIdle)
    ensures s.pc.CheckIdle? ==> Step(s, STEP) == s.(pc := if s.taskQueue == [] then GoHalt else GoEnable)
    ensures s.pc.GoHalt? ==> Step(s, STEP) == s.(irqEnabled := true, pc := Halted)
    ensures s.pc.GoEnable? ==> Step(s, STEP) == s.(irqEnabled := true, pc := LoopHead)
  {
  }

  lemma {:induction false} StepSpawns(s: State, id: TaskId)
    requires s.panic.None? && s.pc.Boot?
    ensures Step(s, Spawn(id)) == SpawnTask(s, id)
  {
  }

  lemma {:induction false} RunThree(s: State, a: Event, b: Event, c: Event)
    ensures Run(s, [a, b, c]) == Step(Step(Step(s, a), b), c)
  {
    hide Step;
    assert [a, b, c][1..] == [b, c] && [b, c][1..] == [c];
    var s1 := Step(s, a);
    assert Run(s1, [b, c]) == Run(Step(s1, b), [c]);
  }

  lemma {:induction false} RunFour(s: State, a: Event, b: Event, c: Event, d: Event)
    ensures Run(s, [a, b, c, d]) == Step(Step(Step(Step(s, a), b), c), d)
  {
    hide Step;
    assert [a, b, c, d][1..] == [b, c, d];
    RunThree(Step(s, a), b, c, d);
  }
}
