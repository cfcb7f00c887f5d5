/**
 Progress of the wakeup protocol: once interrupts pause, everything accepted is
 delivered and the CPU goes to sleep within a computed number of operations. And the
 duplicate bound is tight: the overflow it allows does happen.
 */
module WakeupProgress {
  import opened Options
  import opened WakeupMachine
  import opened WakeupSafety
  import opened WakeupTheorems

  // An operation of the main context that is not one more wake by some other future.
  predicate Works(e: Event) {
    e.Main? && !e.choice.Wake?
  }

  function Rank(s: State): nat {
    match s.pc
    case Boot => 0
    case LoopHead => 4
    case Popped(_) => 10
    case KbInit => 9
    case KbPop1 => 8
    case KbRegister => 7
    case KbPop2 => 6
    case KbTake(_) => 10
    case KbReady(_) => 9
    case OtherPoll(_) => 5
    case SleepEntry => if s.taskQueue == [] then 3 else 7
    case CheckIdle => if s.taskQueue == [] then 2 else 6
    case GoHalt => 1
    case GoEnable => 5
    case Halted => 0
  }

  // An upper bound on the operations left before the CPU halts.
  function Work(s: State): nat {
    7 * |s.taskQueue| + 6 * |Queued(s)| + Rank(s)
  }

  ghost predicate Running(s: State) {
    Inv(s) && s.panic.None? && !s.pc.Boot? && s.kb in s.tasks
  }

  // Such an operation panics never and uses up work, with or without a keyboard task.
  lemma {:induction false} WorkShrinks(s: State, choice: Choice)
    requires Inv(s) && s.panic.None? && !s.pc.Boot? && !s.pc.Halted? && !choice.Wake?
    ensures var s' := MainStep(s, choice);
      s'.panic.None? && !s'.pc.Boot? && Work(s') < Work(s)
  {
    assert StreamInv(s) && QueueInv(s) && WakerInv(s) && MembershipInv(s);
    hide Inv, NoPollAfterReady, Count;
  }

  lemma {:induction false} SilentStepWorks(s: State, e: Event)
    requires Running(s) && Works(e) && !s.pc.Halted?
    ensures Running(Step(s, e))
    ensures Step(s, e).hist.accepted == s.hist.accepted
    ensures Work(Step(s, e)) < Work(s)
  {
    StepKeeps(s, e);
    StepNeverUndoes(s, e);
    StepFixesKeyboardId(s, e);
    WorkShrinks(s, e.choice);
    hide Inv, Work;
  }

  lemma {:induction false} SilentRunHalts(s: State, events: seq<Event>)
    requires Running(s)
    requires forall i :: 0 <= i < |events| ==> Works(events[i])
    requires |events| >= Work(s)
    ensures Running(Run(s, events)) && Run(s, events).pc.Halted?
    ensures Run(s, events).hist.accepted == s.hist.accepted
    decreases |events|
  {
    if events == [] {
    } else {
      if !s.pc.Halted? {
        SilentStepWorks(s, events[0]);
      }
      SilentRunHalts(Step(s, events[0]), events[1..]);
    }
  }

  // From any point of any run: if no interrupt arrives and no other task wakes itself,
  // every scancode accepted so far is delivered, and then the CPU sleeps.
  lemma {:induction false} QuietKernelSleeps(kb: TaskId, events: seq<Event>, silence: seq<Event>)
    requires var s := Reached(kb, events); s.panic.None? && !s.pc.Boot? && kb in s.tasks
    requires forall i :: 0 <= i < |silence| ==> Works(silence[i])
    requires |silence| >= Work(Reached(kb, events))
    ensures var s := Reached(kb, events);
      var s' := Run(s, silence);
      s'.pc.Halted? && s'.panic.None? && s'.hist.delivered == s.hist.accepted
  {
    ReachedInv(kb, events);
    SilentRunHalts(Reached(kb, events), silence);
    RunConcat(Init(kb), events, silence);
    SleepIsSafe(kb, events + silence);
  }

  // -------- the overflow bound is attained --------

  // One lost race: the key arrives between WAKER.register and the second pop.
  const RACE: seq<Event> := [STEP, STEP, Keypress(0), STEP, STEP, STEP]

  function Races(n: nat): seq<Event> {
    if n == 0 then [] else RACE + Races(n - 1)
  }

  // Spawn ids 0 to m; id 0 is the keyboard task.
  function Spawns(m: nat): seq<Event> {
    if m == 0 then [Spawn(0)] else Spawns(m - 1) + [Spawn(m)]
  }

  function OverflowSchedule(m: nat): seq<Event>
    requires m < TASK_CAPACITY
  {
    Spawns(m) + [StartRun, STEP, STEP, STEP] + Races(TASK_CAPACITY - m) + [STEP, STEP, Keypress(0)]
  }

  ghost predicate Booted(s: State, m: nat) {
    && s.pc.Boot? && s.panic.None? && s.irqEnabled && s.kb == 0 && !s.kbStarted
    && s.scancodes.None? && s.waker.None?
    && |s.taskQueue| == m + 1 && s.taskQueue[0] == 0
    && 0 in s.tasks && (forall id :: id in s.tasks ==> id <= m)
    && s.hist.others == m && s.hist.raceWins == 0
  }

  lemma {:induction false} SpawnsBoot(m: nat)
    requires m < TASK_CAPACITY
    ensures Booted(Reached(0, Spawns(m)), m)
  {
    if m == 0 {
      assert Reached(0, Spawns(0)) == Run(Step(Init(0), Spawn(0)), []);
    } else {
      SpawnsBoot(m - 1);
      var s := Reached(0, Spawns(m - 1));
      RunConcat(Init(0), Spawns(m - 1), [Spawn(m)]);
      assert Run(s, [Spawn(m)]) == Run(Step(s, Spawn(m)), []);
    }
  }

  // The keyboard future is about to try its first pop on an empty queue.
  ghost predicate Racing(s: State, kb: TaskId, queue: seq<TaskId>, wins: nat, others: nat) {
    && s.pc.KbPop1? && s.panic.None? && s.irqEnabled && s.kbStarted && s.kb == kb
    && s.scancodes == Some([]) && s.waker.None?
    && s.taskQueue == queue && s.hist.raceWins == wins && s.hist.others == others
  }

  function Copies(id: TaskId, n: nat): (q: seq<TaskId>)
    ensures |q| == n && Count(q, id) == n
  {
    if n == 0 then [] else [id] + Copies(id, n - 1)
  }

  lemma {:induction false} StartRacing(s: State, m: nat)
    requires Booted(s, m)
    ensures Racing(Run(s, [StartRun, STEP, STEP, STEP]), 0, s.taskQueue[1..], 0, m)
  {
    assert [StartRun, STEP, STEP, STEP] == [StartRun] + [STEP, STEP, STEP];
    RunConcat(s, [StartRun], [STEP, STEP, STEP]);
    var s1 := Step(s, StartRun);
    assert Run(s, [StartRun]) == Run(s1, []);
    RunThree(s1, STEP, STEP, STEP);
    var s2 := Step(s1, STEP);
    assert s2.pc == Popped(0);
    var s3 := Step(s2, STEP);
    assert s3.pc == KbInit;
  }

  // The key arrives after WAKER.register: the stored waker queues the id.
  lemma {:induction false} RaceLost(s: State, kb: TaskId, queue: seq<TaskId>, wins: nat, others: nat)
    requires Racing(s, kb, queue, wins, others) && |queue| < TASK_CAPACITY
    ensures var s' := Run(s, [STEP, STEP, Keypress(0)]);
      && s'.pc.KbPop2? && s'.panic.None? && s'.irqEnabled && s'.kbStarted && s'.kb == kb
      && s'.scancodes == Some([0]) && s'.waker.None?
      && s'.taskQueue == queue + [kb] && s'.hist.raceWins == wins && s'.hist.others == others
      && s'.tasks == s.tasks && s'.hist.delivered == s.hist.delivered
  {
    RunThree(s, STEP, STEP, Keypress(0));
    assert [] + [0] == [0];
  }

  // One race delivers its scancode and leaves one stale id behind.
  lemma {:induction false} OneRace(s: State, kb: TaskId, queue: seq<TaskId>, wins: nat, others: nat)
    requires Racing(s, kb, queue, wins, others) && |queue| < TASK_CAPACITY
    ensures Racing(Run(s, RACE), kb, queue + [kb], wins + 1, others)
    ensures Run(s, RACE).tasks == s.tasks && Run(s, RACE).hist.delivered == s.hist.delivered + [0]
  {
    assert RACE == [STEP, STEP, Keypress(0)] + [STEP, STEP, STEP];
    RunConcat(s, [STEP, STEP, Keypress(0)], [STEP, STEP, STEP]);
    RaceLost(s, kb, queue, wins, others);
    RunThree(Run(s, [STEP, STEP, Keypress(0)]), STEP, STEP, STEP);
    assert [0][1..] == [];
  }

  // n lost races put n copies of the keyboard id at the back of the queue; no task comes
  // or goes, and the stream is as empty as before.
  lemma {:induction false} ManyRaces(s: State, n: nat, kb: TaskId, queue: seq<TaskId>, wins: nat, others: nat)
    requires Racing(s, kb, queue, wins, others) && |queue| + n <= TASK_CAPACITY
    ensures Racing(Run(s, Races(n)), kb, queue + Copies(kb, n), wins + n, others)
    ensures Run(s, Races(n)).tasks == s.tasks
    ensures |Run(s, Races(n)).hist.delivered| == |s.hist.delivered| + n
    decreases n
  {
    hide Racing, Step;
    if n == 0 {
      assert queue + Copies(kb, 0) == queue;
    } else {
      OneRace(s, kb, queue, wins, others);
      RunConcat(s, RACE, Races(n - 1));
      ManyRaces(Run(s, RACE), n - 1, kb, queue + [kb], wins + 1, others);
      assert queue + [kb] + Copies(kb, n - 1) == queue + Copies(kb, n);
    }
  }

  lemma {:induction false} LastRace(s: State, kb: TaskId, queue: seq<TaskId>, wins: nat, others: nat)
    requires Racing(s, kb, queue, wins, others) && |queue| == TASK_CAPACITY
    ensures var s' := Run(s, [STEP, STEP, Keypress(0)]);
      s'.panic == Some(WakeQueueFull) && s'.hist.raceWins == wins && s'.hist.others == others
  {
    RunThree(s, STEP, STEP, Keypress(0));
    var s1 := Step(s, STEP);
    assert s1.pc == KbRegister;
  }

  // For every number m of other spawned tasks, 100 - m races do fill the queue: the bound
  // of OverflowNeedsRaces cannot be improved, and the expect in wake_task can fail.
  lemma {:induction false} OverflowHappens(m: nat)
    requires m < 100
    ensures var s := Reached(0, OverflowSchedule(m));
      && s.panic == Some(WakeQueueFull)
      && s.hist.others == m
      && s.hist.raceWins == 100 - m
  {
    var boot := Spawns(m);
    var start := [StartRun, STEP, STEP, STEP];
    var races := Races(TASK_CAPACITY - m);
    var last := [STEP, STEP, Keypress(0)];
    SpawnsBoot(m);
    var s1 := Reached(0, boot);
    StartRacing(s1, m);
    var s2 := Run(s1, start);
    var queue := s1.taskQueue[1..];
    ManyRaces(s2, TASK_CAPACITY - m, 0, queue, 0, m);
    LastRace(Run(s2, races), 0, queue + Copies(0, TASK_CAPACITY - m), TASK_CAPACITY - m, m);
    RunConcat(Init(0), boot, start);
    RunConcat(Init(0), boot + start, races);
    RunConcat(Init(0), boot + start + races, last);
  }
}
