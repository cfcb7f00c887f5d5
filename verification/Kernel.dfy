/**
 keyboard.rs and executor.rs as the code they are: an object whose fields the
 interrupt handler and the executor update in place.

 `device` holds the interrupts still to come, one batch per operation of the main
 context; it is arbitrary, so a statement about a method covers every way interrupts
 can land inside it. `trace` records what happened. `Valid` says that the fields are
 exactly the state which the transition system reaches on that trace, that the interrupts
 in the trace are those the device no longer holds, and that wakes and results of polls
 in it are those the futures were spawned with.
 */
module Kernel {
  import opened Options
  import opened WakeupMachine
  import opened WakeupTheorems
  import opened KernelTrace

  datatype Poll = Ready(code: Scancode) | Pending

  function Polling(pc: Pc): Option<TaskId> {
    if pc.OtherPoll? then Some(pc.id) else None
  }

  lemma {:induction false} Extend(kb: TaskId, trace: seq<Event>, e: Event)
    ensures Reached(kb, trace + [e]) == Step(Reached(kb, trace), e)
  {
    var s := Reached(kb, trace);
    RunConcat(Init(kb), trace, [e]);
    assert Run(s, [e]) == Run(Step(s, e), []);
  }

  // Polls left before every future with a list of polls is done.
  ghost function Effort(tasks: map<TaskId, seq<Turn>>): nat
    decreases |tasks|
  {
    if tasks == map[] then 0
    else
      var id :| id in tasks;
      1 + |tasks[id]| + Effort(tasks - {id})
  }

  lemma {:induction false} EffortSplit(tasks: map<TaskId, seq<Turn>>, id: TaskId)
    requires id in tasks
    ensures Effort(tasks) == 1 + |tasks[id]| + Effort(tasks - {id})
    decreases |tasks|
  {
    var first :| first in tasks && Effort(tasks) == 1 + |tasks[first]| + Effort(tasks - {first});
    if first != id {
      EffortSplit(tasks - {first}, id);
      EffortSplit(tasks - {id}, first);
      assert tasks - {first} - {id} == tasks - {id} - {first};
    }
  }

  lemma {:induction false} RemovesKey(tasks: map<TaskId, seq<Turn>>, id: TaskId)
    ensures (tasks - {id}).Keys == tasks.Keys - {id}
  {
  }

  lemma {:induction false} AddsKey(tasks: map<TaskId, seq<Turn>>, id: TaskId, turns: seq<Turn>)
    ensures tasks[id := turns].Keys == tasks.Keys + {id}
  {
  }

  lemma {:induction false} NextWake(said: seq<TaskId>, wakes: seq<TaskId>, i: nat)
    requires i < |wakes|
    ensures wakes[i..] == [wakes[i]] + wakes[i + 1..]
    ensures said + wakes[..i] + [wakes[i]] == said + wakes[..i + 1] <= said + wakes
  {
    assert wakes[..i + 1] == wakes[..i] + [wakes[i]];
    assert said + wakes == said + wakes[..i + 1] + wakes[i + 1..];
  }

  // The wakes since a point of the run.
  lemma {:induction false} WakesOfRest(before: seq<Event>, after: seq<Event>, wakes: seq<TaskId>)
    requires before <= after && WakesIn(after) <= WakesIn(before) + wakes
    ensures var rest := WakesIn(after[|before|..]);
      rest <= wakes && (WakesIn(after) == WakesIn(before) + wakes ==> rest == wakes)
  {
    assert after == before + after[|before|..];
    WakesConcat(before, after[|before|..]);
    var a, b := WakesIn(before), WakesIn(after[|before|..]);
    assert (a + b)[|a|..] == b && (a + wakes)[|a|..] == wakes;
    assert b == wakes[..|b|];
  }

  lemma {:induction false} SaidStill(scripts: Scripts, log: seq<Entry>, kb: TaskId, trace: seq<Event>,
                                     trace': seq<Event>, polling: Option<TaskId>)
    requires Said(scripts, log, kb, trace, polling) && WakesIn(trace') == WakesIn(trace)
    ensures Said(scripts, log, kb, trace', polling)
  {
  }

  lemma {:induction false} StepInterrupts(s: State, i: Irq)
    requires s.panic.None? && s.irqEnabled
    ensures Step(s, IrqEvent(i)) == Resume(if i.KeyIrq? then AddScancode(s, i.code) else s)
  {
  }

  // The handler leaves the main context where it is.
  lemma {:induction false} HandlerStays(s: State, code: Scancode)
    ensures var s' := AddScancode(s, code);
      s'.pc == s.pc && s'.irqEnabled == s.irqEnabled && s'.hist.log == s.hist.log
  {
  }

  // What Valid says of the futures between two polls.
  lemma {:induction false} Outcomes(scripts: Scripts, tasks: Scripts, log: seq<Entry>, kb: TaskId, trace: seq<Event>)
    requires Obeys(scripts, tasks, log, kb, None) && Said(scripts, log, kb, trace, None)
    ensures forall id :: id in scripts && id != kb ==>
              && Starts(log, id) <= Pendings(scripts[id]) + 1
              && (PollReady(id) in log <==> Starts(log, id) == Pendings(scripts[id]) + 1)
              && (id in tasks <==> PollReady(id) !in log)
    ensures WakesIn(trace) == ScriptWakes(scripts, log, kb)
  {
    forall id | id in scripts && id != kb
      ensures Kept(scripts[id], tasks, log, id, Starts(log, id))
    {
      assert Finished(log, id, None) == Starts(log, id);
    }
  }

  lemma {:induction false} TookAll(device: seq<seq<Irq>>, events: seq<Event>)
    requires Took(device, [], events, false)
    ensures Irqs(events) == Arrived(device)
  {
    assert device[..|device|] == device;
  }

  // Spawning before run() keeps to the scripts, which nobody has begun.
  lemma {:induction false} SaidSpawn(scripts: Scripts, scripts': Scripts, kb: TaskId, trace: seq<Event>)
    requires Said(scripts, [], kb, trace, None)
    ensures Said(scripts', [], kb, trace, None)
  {
  }

  class Kernel {
    const kb: TaskId
    // statics of keyboard.rs
    var scancodes: Option<seq<Scancode>>
    var waker: Option<TaskId>
    // fields of Executor
    var taskQueue: seq<TaskId>
    var tasks: map<TaskId, seq<Turn>>
    var wakerCache: set<TaskId>
    // the CPU
    var irqEnabled: bool
    var halted: bool
    var panic: Option<Panic>
    var device: seq<seq<Irq>>
    // the print_keypresses future
    var kbStarted: bool

    ghost var pc: Pc
    ghost var hist: History
    ghost var trace: seq<Event>
    // All interrupts that will ever come, and the polls each task was spawned with.
    ghost const supply: seq<seq<Irq>>
    ghost var scripts: Scripts

    ghost function View(): State
      reads this
    {
      State(pc, panic, irqEnabled, scancodes, waker, taskQueue, tasks.Keys, wakerCache, kb, kbStarted, hist)
    }

    // Scancodes waiting in the queue.
    ghost function Backlog(): nat
      reads this
    {
      if scancodes.Some? then |scancodes.value| else 0
    }

    ghost predicate Runs()
      reads this
    {
      View() == Reached(kb, trace) && (halted <==> pc.Halted?)
    }

    ghost predicate Valid()
      reads this
    {
      && Runs()
      && Took(supply, device, trace, panic.Some?)
      && Obeys(scripts, tasks, hist.log, kb, Polling(pc))
      && Said(scripts, hist.log, kb, trace, Polling(pc))
    }

    // The wakes that the future being polled has still to make.
    ghost predicate ToWake(ids: seq<TaskId>)
      reads this
    {
      ScriptWakes(scripts, hist.log, kb) == WakesIn(trace) + ids
    }

    constructor (kb: TaskId, device: seq<seq<Irq>>)
      ensures Valid() && trace == [] && this.kb == kb && this.device == device
      ensures pc.Boot? && panic.None? && tasks == map[] && scripts == map[]
    {
      this.kb := kb;
      supply, scripts := device, map[];
      scancodes, waker, taskQueue, tasks, wakerCache := None, None, [], map[], {};
      irqEnabled, halted, panic, this.device, kbStarted := true, false, None, device, false;
      pc, hist, trace := Boot, Init(kb).hist, [];
      new;
      assert device[0..] == device && device[..0] == [];
    }

    // The fields were just changed as event `e` changes them.
    ghost method Record(e: Event)
      requires View() == Step(Reached(kb, trace), e) && (halted <==> pc.Halted?)
      modifies this`trace
      ensures Runs() && trace == old(trace) + [e]
    {
      Extend(kb, trace, e);
      trace := trace + [e];
    }

    // Likewise, for an operation of the main context that wakes nobody.
    ghost method Did(e: Event)
      requires View() == Step(Reached(kb, trace), e) && (halted <==> pc.Halted?)
      requires !IsIrq(e) && !(e.Main? && e.choice.Wake?)
      requires Took(supply, device, trace, false) && Obeys(scripts, tasks, hist.log, kb, Polling(pc))
      requires Said(scripts, hist.log, kb, trace, Polling(pc))
      modifies this`trace
      ensures Valid() && trace == old(trace) + [e] && WakesIn(trace) == old(WakesIn(trace))
    {
      hide Reached, Step, Took, Obeys, Said, Handled, WakesIn;
      TookNothing(supply, device, trace, e, panic.Some?);
      SaidNothing(scripts, hist.log, kb, trace, e, Polling(pc));
      Record(e);
    }

    // TaskWaker::wake_task, and the push of Executor::spawn.
    method PushTask(id: TaskId, onFull: Panic)
      requires panic.None?
      modifies this`taskQueue, this`panic, this`hist
      ensures View() == WakeupMachine.PushTask(old(View()), id, onFull)
    {
      if |taskQueue| >= TASK_CAPACITY {
        panic := Some(onFull);
      } else {
        taskQueue := taskQueue + [id];
        hist := hist.(pushed := hist.pushed + [id]);
      }
    }

    // WAKER.wake()
    method WakeSlot()
      requires panic.None?
      modifies this`waker, this`taskQueue, this`panic, this`hist
      ensures View() == WakeupMachine.WakeSlot(old(View()))
    {
      if waker.Some? {
        var id := waker.value;
        waker := None;
        PushTask(id, WakeQueueFull);
      }
    }

    method AddScancode(code: Scancode)
      requires panic.None?
      modifies this`scancodes, this`waker, this`taskQueue, this`panic, this`hist
      ensures View() == WakeupMachine.AddScancode(old(View()), code)
    {
      if scancodes.Some? {
        var q := scancodes.value;
        if |q| >= SCANCODE_CAPACITY {
          hist := hist.(dropped := hist.dropped + [code]);
        } else {
          scancodes := Some(q + [code]);
          hist := hist.(accepted := hist.accepted + [code]);
          WakeSlot();
        }
      } else {
        hist := hist.(dropped := hist.dropped + [code]);
      }
    }

    // One interrupt handler, run to its end.
    method Interrupt(i: Irq)
      requires Runs() && panic.None? && irqEnabled
      modifies this
      ensures Runs() && trace == old(trace) + [IrqEvent(i)]
      ensures device == old(device) && tasks == old(tasks) && scripts == old(scripts) && irqEnabled
      ensures hist.log == old(hist).log
      ensures pc == if old(pc).Halted? then LoopHead else old(pc)
    {
      hide Reached, Step, WakeupMachine.AddScancode;
      StepInterrupts(View(), i);
      if i.KeyIrq? {
        HandlerStays(View(), i.code);
        AddScancode(i.code);
      }
      halted := false;
      pc := if pc.Halted? then LoopHead else pc;
      Record(IrqEvent(i));
    }

    // The interrupts that arrive before the next operation of the main context. The
    // hardware holds them back while interrupts are disabled.
    method Tick()
      requires Valid() && panic.None?
      modifies this
      ensures Valid() && old(trace) <= trace
      ensures tasks == old(tasks) && scripts == old(scripts) && irqEnabled == old(irqEnabled)
      ensures hist.log == old(hist).log && WakesIn(trace) == old(WakesIn(trace))
      ensures pc == old(pc) || (old(pc).Halted? && pc.LoopHead?)
      ensures if irqEnabled && old(device) != [] then
                device == old(device)[1..] && Handled(old(device)[0], old(trace), trace, panic.Some?)
              else device == old(device) && View() == old(View()) && trace == old(trace)
    {
      hide Reached, Step, Took, Obeys, Said, WakesIn;
      if irqEnabled && device != [] {
        var batch := device[0];
        device := device[1..];
        var i := 0;
        assert trace == old(trace) + EventsOf(batch[..0]);
        while i < |batch| && panic.None?
          invariant 0 <= i <= |batch|
          invariant Runs() && trace == old(trace) + EventsOf(batch[..i]) && irqEnabled
          invariant device == old(device)[1..] && tasks == old(tasks) && scripts == old(scripts)
          invariant hist.log == old(hist).log
          invariant pc == old(pc) || (old(pc).Halted? && pc.LoopHead?)
        {
          Interrupt(batch[i]);
          assert EventsOf(batch[..i + 1]) == EventsOf(batch[..i]) + [IrqEvent(batch[i])];
          i := i + 1;
        }
        TookBatch(supply, old(device), old(trace), i, panic.Some?);
        WakesOfBatch(old(trace), batch[..i]);
        SaidStill(scripts, hist.log, kb, old(trace), trace, Polling(pc));
        assert EventsOf(batch[..i]) == EventsOf(batch)[..i];
        assert i == |batch| ==> batch[..i] == batch;
      }
    }

    // tasks.insert(..) of a new id, and the push.
    method AddTask(id: TaskId, turns: seq<Turn>)
      requires Valid() && panic.None? && pc.Boot? && id !in tasks
      modifies this`tasks, this`scripts, this`hist, this`taskQueue, this`panic, this`trace
      ensures Valid() && trace == old(trace) + [WakeupMachine.Spawn(id)]
      ensures tasks == old(tasks)[id := turns] && scripts == old(scripts)[id := turns]
    {
      hide Reached, Step, Took, Obeys, Said, WakesIn;
      StepSpawns(View(), id);
      NothingPolledAtBoot(kb, trace);
      ObeysSpawn(scripts, tasks, kb, id, turns);
      SaidSpawn(scripts, scripts[id := turns], kb, trace);
      AddsKey(tasks, id, turns);
      tasks, scripts := tasks[id := turns], scripts[id := turns];
      hist := hist.(others := hist.others + if id == kb then 0 else 1);
      PushTask(id, SpawnQueueFull);
      Did(WakeupMachine.Spawn(id));
    }

    // Executor::spawn
    method Spawn(id: TaskId, turns: seq<Turn>)
      requires Valid() && panic.None? && pc.Boot?
      modifies this
      ensures Valid() && trace == old(trace) + [WakeupMachine.Spawn(id)] && pc.Boot?
      ensures panic.None? ==>
                tasks == old(tasks)[id := turns] && id !in old(tasks) && scripts == old(scripts)[id := turns]
      ensures device == old(device)
    {
      hide Reached, Step, Took, Obeys, Said, WakesIn;
      if id in tasks {
        StepSpawns(View(), id);
        panic := Some(SpawnSameId);
        Did(WakeupMachine.Spawn(id));
      } else {
        AddTask(id, turns);
      }
    }

    // -------- ScancodeStream::poll_next, each operation after a batch of interrupts --------

    // queue.pop()
    method PopScancode() returns (r: Option<Scancode>)
      requires scancodes.Some?
      modifies this`scancodes
      ensures if old(scancodes).value == [] then r.None? && scancodes == old(scancodes)
              else r == Some(old(scancodes).value[0]) && scancodes == Some(old(scancodes).value[1..])
    {
      r := None;
      var q := scancodes.value;
      if q != [] {
        scancodes := Some(q[1..]);
        r := Some(q[0]);
      }
    }

    method FirstPop() returns (r: Option<Scancode>)
      requires Valid() && panic.None? && pc.KbPop1?
      modifies this
      ensures Valid() && old(trace) <= trace && tasks == old(tasks) && scripts == old(scripts)
      ensures panic.None? ==> pc == if r.Some? then KbReady(r.value) else KbRegister
      ensures |device| <= |old(device)|
      ensures |device| < |old(device)| ||
              (taskQueue == old(taskQueue) && Backlog() == old(Backlog()) - if r.Some? then 1 else 0)
    {
      hide Reached, Step, Took, Obeys, Said, Handled, WakesIn;
      r := None;
      Tick();
      if panic.Some? { return; }
      StepPopsScancode(View());
      if scancodes.None? {
        panic := Some(NotInitialized);
      } else {
        r := PopScancode();
        pc := if r.Some? then KbReady(r.value) else KbRegister;
      }
      Did(STEP);
    }

    method Register()
      requires Valid() && panic.None? && pc.KbRegister?
      modifies this
      ensures Valid() && old(trace) <= trace && tasks == old(tasks) && scripts == old(scripts)
      ensures panic.None? ==> waker == Some(kb) && pc == KbPop2
      ensures |device| <= |old(device)|
      ensures |device| < |old(device)| ||
              (taskQueue == old(taskQueue) && Backlog() == old(Backlog()))
    {
      hide Reached, Step, Took, Obeys, Said, Handled, WakesIn;
      Tick();
      if panic.Some? { return; }
      StepChangesWaker(View());
      waker := Some(kb);
      pc := KbPop2;
      Did(STEP);
    }

    // The second queue.pop() itself.
    method PopAgain() returns (r: Option<Scancode>)
      requires Valid() && panic.None? && pc.KbPop2?
      modifies this`scancodes, this`pc, this`hist, this`trace
      ensures Valid() && old(trace) <= trace
      ensures pc == if r.Some? then KbTake(r.value) else LoopHead
      ensures Backlog() == old(Backlog()) - if r.Some? then 1 else 0
    {
      hide Reached, Step, Took, Obeys, Said, WakesIn;
      StepPopsScancode(View());
      PollingIsInitialised(kb, trace);
      r := PopScancode();
      if r.Some? {
        pc, hist := KbTake(r.value), hist.(raceWins := hist.raceWins + 1);
      } else {
        pc := LoopHead;
      }
      Did(STEP);
    }

    method SecondPop() returns (r: Option<Scancode>)
      requires Valid() && panic.None? && pc.KbPop2?
      modifies this
      ensures Valid() && old(trace) <= trace && tasks == old(tasks) && scripts == old(scripts)
      ensures panic.None? ==> pc == if r.Some? then KbTake(r.value) else LoopHead
      ensures |device| <= |old(device)|
      ensures |device| < |old(device)| ||
              (taskQueue == old(taskQueue) && Backlog() == old(Backlog()) - if r.Some? then 1 else 0)
    {
      hide Reached, Step, Took, Obeys, Said, Handled, WakesIn;
      r := None;
      Tick();
      if panic.None? {
        r := PopAgain();
      }
    }

    method Take(code: Scancode)
      requires Valid() && panic.None? && pc == KbTake(code)
      modifies this
      ensures Valid() && old(trace) <= trace && tasks == old(tasks) && scripts == old(scripts)
      ensures panic.None? ==> waker == None && pc == KbReady(code)
      ensures |device| <= |old(device)|
      ensures |device| < |old(device)| ||
              (taskQueue == old(taskQueue) && Backlog() == old(Backlog()))
    {
      hide Reached, Step, Took, Obeys, Said, Handled, WakesIn;
      Tick();
      if panic.Some? { return; }
      StepChangesWaker(View());
      waker := None;
      pc := KbReady(code);
      Did(STEP);
    }

    method PollNext() returns (r: Poll)
      requires Valid() && panic.None? && pc.KbPop1?
      modifies this
      ensures Valid() && old(trace) <= trace && tasks == old(tasks) && scripts == old(scripts)
      ensures panic.None? && r.Ready? ==> pc == KbReady(r.code) && waker.None?
      ensures panic.None? && r.Pending? ==>
                && pc.LoopHead? && kb in tasks
                && (kb in taskQueue || (waker == Some(kb) && scancodes == Some([])))
      ensures |device| <= |old(device)|
      ensures panic.None? && |device| == |old(device)| ==>
                taskQueue == old(taskQueue) &&
                (r.Ready? ==> Backlog() < old(Backlog()))
    {
      hide Reached, Step, Took, Obeys, Said, Handled, WakesIn;
      r := Pending;
      KeyboardStaysSpawned(kb, trace);
      var c := FirstPop();
      if panic.Some? { return; }
      if c.Some? {
        StreamIsFaithful(kb, trace);
        return Ready(c.value);
      }
      Register();
      if panic.Some? { return; }
      c := SecondPop();
      if panic.Some? { return; }
      if c.None? {
        NoWakeupIsLost(kb, trace);
        return Pending;
      }
      Take(c.value);
      return Ready(c.value);
    }

    // -------- print_keypresses --------

    // ScancodeStream::new()
    method InitStream()
      requires Valid() && panic.None? && pc.KbInit?
      modifies this
      ensures Valid() && old(trace) <= trace && tasks == old(tasks) && scripts == old(scripts)
      ensures panic.None? ==> pc.KbPop1?
      ensures |device| <= |old(device)|
      ensures |device| < |old(device)| || taskQueue == old(taskQueue)
    {
      hide Reached, Step, Took, Obeys, Said, Handled, WakesIn;
      Tick();
      if panic.Some? { return; }
      StepConsumes(View());
      if scancodes.Some? {
        panic := Some(InitTwice);
      } else {
        scancodes, kbStarted, pc := Some([]), true, KbPop1;
      }
      Did(STEP);
    }

    // The loop body of print_keypresses: decode and print one scancode.
    method Consume(code: Scancode)
      requires Valid() && panic.None? && pc == KbReady(code)
      modifies this
      ensures Valid() && old(trace) <= trace && tasks == old(tasks) && scripts == old(scripts)
      ensures panic.None? ==> pc.KbPop1?
      ensures |device| <= |old(device)|
      ensures |device| < |old(device)| || (taskQueue == old(taskQueue) && Backlog() == old(Backlog()))
    {
      hide Reached, Step, Took, Obeys, Said, Handled, WakesIn;
      Tick();
      if panic.Some? { return; }
      StepConsumes(View());
      hist, pc := hist.(delivered := hist.delivered + [code]), KbPop1;
      Did(STEP);
    }

    // One poll of print_keypresses: it runs until the stream has nothing more.
    method PollKeyboard()
      requires Valid() && panic.None? && pc == if kbStarted then KbPop1 else KbInit
      modifies this
      ensures Valid() && old(trace) <= trace && tasks == old(tasks) && scripts == old(scripts)
      ensures panic.None? ==>
                && pc.LoopHead? && kb in tasks
                && (kb in taskQueue || (waker == Some(kb) && scancodes == Some([])))
      ensures |device| <= |old(device)|
      ensures |device| < |old(device)| || panic.Some? || taskQueue == old(taskQueue)
    {
      hide Reached, Step, Took, Obeys, Said, Handled, WakesIn;
      if !kbStarted {
        InitStream();
      }
      while panic.None?
        invariant Valid() && old(trace) <= trace && tasks == old(tasks) && scripts == old(scripts)
        invariant panic.None? ==> pc.KbPop1?
        invariant |device| <= |old(device)|
        invariant |device| < |old(device)| || panic.Some? || taskQueue == old(taskQueue)
        decreases panic.None?, |device|, Backlog()
      {
        var r := PollNext();
        if panic.Some? || r.Pending? { return; }
        Consume(r.code);
      }
    }

    // -------- Executor --------

    // task_queue.pop()
    method PopTask() returns (r: Option<TaskId>)
      requires Valid() && panic.None? && pc.LoopHead?
      modifies this
      ensures Valid() && old(trace) <= trace && tasks == old(tasks) && scripts == old(scripts)
      ensures panic.None? && r.None? ==> pc.SleepEntry? && taskQueue == []
      ensures panic.None? && r.Some? ==> pc == Popped(r.value)
      ensures |device| <= |old(device)|
      ensures |device| < |old(device)| || |taskQueue| == |old(taskQueue)| - if r.Some? then 1 else 0
    {
      hide Reached, Step, Took, Obeys, Said, Handled, WakesIn;
      r := None;
      Tick();
      if panic.Some? { return; }
      StepSchedules(View());
      if taskQueue == [] {
        pc := SleepEntry;
      } else {
        r := Some(taskQueue[0]);
        taskQueue := taskQueue[1..];
        hist, pc := hist.(popped := hist.popped + [r.value]), Popped(r.value);
      }
      Did(STEP);
    }

    // The task exists: its waker is cached and its future polled.
    method EnterPoll(id: TaskId)
      requires Valid() && panic.None? && pc == Popped(id) && id in tasks
      modifies this`wakerCache, this`hist, this`pc, this`trace
      ensures Valid() && old(trace) <= trace
      ensures pc == if id != kb then OtherPoll(id) else if kbStarted then KbPop1 else KbInit
      ensures id != kb ==> ToWake(TurnAt(tasks[id], 0).wakes)
    {
      hide Reached, Step, Took, Obeys, Said, WakesIn, ScriptWakes;
      StepSchedules(View());
      ObeysBegin(scripts, tasks, hist.log, kb, id);
      SaidBegin(scripts, tasks, hist.log, kb, trace, id);
      wakerCache := wakerCache + {id};
      hist := hist.(log := hist.log + [PollStart(id)]);
      pc := if id != kb then OtherPoll(id) else if kbStarted then KbPop1 else KbInit;
      Did(STEP);
    }

    // tasks.get_mut(&task_id) and waker_cache.entry(task_id).or_insert_with(..)
    method BeginPoll(id: TaskId) returns (found: bool)
      requires Valid() && panic.None? && pc == Popped(id)
      modifies this
      ensures Valid() && old(trace) <= trace && tasks == old(tasks) && scripts == old(scripts)
      ensures found == (id in tasks)
      ensures panic.None? ==>
                pc == if !found then LoopHead else if id != kb then OtherPoll(id)
                      else if kbStarted then KbPop1 else KbInit
      ensures panic.None? && found && id != kb ==> ToWake(TurnAt(tasks[id], 0).wakes)
      ensures |device| <= |old(device)|
      ensures |device| < |old(device)| || taskQueue == old(taskQueue)
    {
      hide Reached, Step, Took, Obeys, Said, Handled, WakesIn;
      found := id in tasks;
      Tick();
      if panic.Some? { return; }
      if !found {
        StepSchedules(View());
        pc := LoopHead;
        Did(STEP);
      } else {
        EnterPoll(id);
      }
    }

    // A future other than print_keypresses calls a waker.
    method WakeFrom(id: TaskId, woken: TaskId, ghost later: seq<TaskId>)
      requires Valid() && panic.None? && pc == OtherPoll(id) && ToWake([woken] + later)
      modifies this
      ensures Valid() && old(trace) <= trace && tasks == old(tasks) && scripts == old(scripts)
      ensures pc == OtherPoll(id) && |device| <= |old(device)| && hist.log == old(hist).log
      ensures panic.None? ==> ToWake(later) && WakesIn(trace) == old(WakesIn(trace)) + [woken]
      ensures panic.None? && woken != kb && |device| == |old(device)| ==> taskQueue == old(taskQueue) + [woken]
      ensures WakesIn(trace) <= old(WakesIn(trace)) + [woken]
    {
      hide Reached, Step, Took, Obeys, Handled, WakesIn, ScriptWakes;
      Tick();
      if panic.Some? { return; }
      StepPollsOther(View(), Wake(woken));
      if woken != kb {
        PushTask(woken, WakeQueueFull);
      }
      TookNothing(supply, device, trace, Main(Wake(woken)), panic.Some?);
      WakesPush(trace, Main(Wake(woken)));
      assert WakesIn(trace) + ([woken] + later) == (WakesIn(trace) + [woken]) + later;
      Record(Main(Wake(woken)));
    }

    // tasks.remove(&task_id) and waker_cache.remove(&task_id)
    method Remove(id: TaskId)
      requires Valid() && panic.None? && pc == OtherPoll(id) && id in tasks
      requires TurnAt(tasks[id], 0).ready && ToWake([])
      modifies this`tasks, this`wakerCache, this`hist, this`pc, this`trace
      ensures Valid() && old(trace) <= trace && WakesIn(trace) == old(WakesIn(trace))
      ensures pc.LoopHead? && tasks == old(tasks) - {id} && id !in wakerCache
    {
      hide Reached, Step, Took, Obeys, Said, WakesIn, ScriptWakes;
      StepPollsOther(View(), ReturnReady);
      RemovesKey(tasks, id);
      ObeysReady(scripts, tasks, hist.log, kb, id);
      SaidReady(scripts, hist.log, kb, trace, id);
      tasks := tasks - {id};
      wakerCache := wakerCache - {id};
      hist, pc := hist.(log := hist.log + [PollReady(id)]), LoopHead;
      Did(Main(ReturnReady));
    }

    // The poll of such a future returns Ready: the executor forgets it and its waker.
    method FinishReady(id: TaskId)
      requires Valid() && panic.None? && pc == OtherPoll(id) && id in tasks
      requires TurnAt(tasks[id], 0).ready && ToWake([])
      modifies this
      ensures Valid() && old(trace) <= trace && scripts == old(scripts) && |device| <= |old(device)|
      ensures WakesIn(trace) == old(WakesIn(trace))
      ensures panic.None? ==> pc.LoopHead? && tasks == old(tasks) - {id} && id !in wakerCache
    {
      hide Reached, Step, Took, Obeys, Said, Handled, WakesIn, ScriptWakes;
      Tick();
      if panic.None? {
        Remove(id);
      }
    }

    // The poll of such a future returns Pending.
    method FinishPending(id: TaskId)
      requires Valid() && panic.None? && pc == OtherPoll(id) && id in tasks
      requires !TurnAt(tasks[id], 0).ready && ToWake([])
      modifies this
      ensures Valid() && old(trace) <= trace && scripts == old(scripts) && |device| <= |old(device)|
      ensures WakesIn(trace) == old(WakesIn(trace))
      ensures panic.None? ==> pc.LoopHead? && tasks == old(tasks)[id := old(tasks)[id][1..]]
    {
      hide Reached, Step, Took, Obeys, Handled, WakesIn, ScriptWakes;
      Tick();
      if panic.Some? { return; }
      StepPollsOther(View(), ReturnPending);
      ObeysPending(scripts, tasks, hist.log, kb, id);
      assert tasks[id := tasks[id][1..]].Keys == tasks.Keys;
      tasks := tasks[id := tasks[id][1..]];
      pc := LoopHead;
      Did(STEP);
    }

    // One poll of a future other than print_keypresses, as its list of polls says: it wakes
    // exactly those ids, and it is removed exactly when it is done.
    method PollFuture(id: TaskId)
      requires Valid() && panic.None? && pc == OtherPoll(id) && id in tasks
      requires ToWake(TurnAt(tasks[id], 0).wakes)
      modifies this
      ensures Valid() && old(trace) <= trace && scripts == old(scripts) && |device| <= |old(device)|
      ensures panic.None? ==> pc.LoopHead? && Effort(tasks) < Effort(old(tasks))
      ensures panic.None? ==>
                tasks == if old(tasks)[id] == [] || old(tasks)[id][0].ready then old(tasks) - {id}
                         else old(tasks)[id := old(tasks)[id][1..]]
      ensures var wakes := if old(tasks)[id] == [] then [] else old(tasks)[id][0].wakes;
              && WakesIn(trace[|old(trace)|..]) <= wakes
              && (panic.None? ==> WakesIn(trace[|old(trace)|..]) == wakes)
    {
      hide Reached, Step, Took, Obeys, Said, Handled, WakesIn, ScriptWakes;
      var turns := tasks[id];
      var turn := if turns == [] then Turn([], true) else turns[0];
      var i := 0;
      assert turn.wakes[0..] == turn.wakes && WakesIn(trace) + turn.wakes[..0] == WakesIn(trace);
      while i < |turn.wakes| && panic.None?
        invariant 0 <= i <= |turn.wakes|
        invariant Valid() && old(trace) <= trace && tasks == old(tasks) && scripts == old(scripts)
        invariant pc == OtherPoll(id) && |device| <= |old(device)|
        invariant WakesIn(trace) <= old(WakesIn(trace)) + turn.wakes
        invariant panic.None? ==>
                    ToWake(turn.wakes[i..]) && WakesIn(trace) == old(WakesIn(trace)) + turn.wakes[..i]
      {
        NextWake(old(WakesIn(trace)), turn.wakes, i);
        WakeFrom(id, turn.wakes[i], turn.wakes[i + 1..]);
        i := i + 1;
      }
      WakesOfRest(old(trace), trace, turn.wakes);
      if panic.Some? { return; }
      EffortSplit(tasks, id);
      if turn.ready {
        FinishReady(id);
      } else {
        FinishPending(id);
        if panic.None? {
          EffortSplit(tasks, id);
          assert tasks - {id} == old(tasks) - {id};
        }
      }
      WakesOfRest(old(trace), trace, turn.wakes);
    }

    method RunReadyTasks()
      requires Valid() && panic.None? && pc.LoopHead?
      modifies this
      ensures Valid() && old(trace) <= trace && scripts == old(scripts) && |device| <= |old(device)|
      ensures panic.None? ==> pc.SleepEntry? && taskQueue == []
    {
      hide Reached, Step, Took, Obeys, Said, Handled, WakesIn;
      while panic.None?
        invariant Valid() && old(trace) <= trace && scripts == old(scripts) && |device| <= |old(device)|
        invariant panic.None? ==> pc.LoopHead?
        decreases panic.None?, |device|, Effort(tasks), |taskQueue|
      {
        var id := PopTask();
        if panic.Some? || id.None? { return; }
        var found := BeginPoll(id.value);
        if panic.None? && found {
          if id.value == kb {
            PollKeyboard();
          } else {
            PollFuture(id.value);
          }
        }
      }
    }

    // enable_and_hlt(): returns when an interrupt ends the sleep, or still asleep when no
    // interrupt is left to come.
    method Halt()
      requires Valid() && panic.None? && pc.GoHalt?
      modifies this
      ensures Valid() && old(trace) <= trace && scripts == old(scripts) && |device| <= |old(device)|
      ensures panic.None? ==> if halted then device == [] else pc.LoopHead? && |device| < |old(device)|
    {
      hide Reached, Step, Took, Obeys, Said, Handled, WakesIn;
      StepSleeps(View());
      irqEnabled, halted, pc := true, true, Halted;
      Did(STEP);
      while panic.None? && halted && device != []
        invariant Valid() && old(trace) <= trace && scripts == old(scripts) && irqEnabled
        invariant |device| < |old(device)| || (device == old(device) && halted)
        invariant pc.Halted? || pc.LoopHead?
        decreases |device|
      {
        Tick();
      }
    }

    // sleep_if_idle, after interrupts::disable(): interrupts are held back.
    method CheckIdle() returns (idle: bool)
      requires Valid() && panic.None? && pc.CheckIdle?
      modifies this
      ensures Valid() && old(trace) <= trace && scripts == old(scripts) && device == old(device) && panic.None?
      ensures idle == (old(taskQueue) == [])
      ensures pc == if idle then GoHalt else LoopHead
    {
      hide Reached, Step, Took, Obeys, Said, Handled, WakesIn;
      StepSleeps(View());
      idle := taskQueue == [];
      if idle {
        pc := GoHalt;
        Did(STEP);
      } else {
        pc := GoEnable;
        Did(STEP);
        StepSleeps(View());
        irqEnabled, pc := true, LoopHead;
        Did(STEP);
      }
    }

    method SleepIfIdle()
      requires Valid() && panic.None? && pc.SleepEntry?
      modifies this
      ensures Valid() && old(trace) <= trace && scripts == old(scripts) && |device| <= |old(device)|
      ensures panic.None? ==>
                if halted then device == []
                else pc.LoopHead? && (old(taskQueue) == [] ==> |device| < |old(device)|)
    {
      hide Reached, Step, Took, Obeys, Said, Handled, WakesIn;
      Tick();
      if panic.Some? { return; }
      StepSleeps(View());
      irqEnabled, pc := false, WakeupMachine.CheckIdle;
      Did(STEP);
      var idle := CheckIdle();
      if idle {
        Halt();
      }
    }

    // Executor::run, on any finite supply of interrupts: it ends up asleep with every
    // accepted scancode delivered, unless a waker found task_queue full.
    method Run()
      requires Valid() && panic.None? && pc.Boot?
      modifies this
      ensures Valid() && old(trace) <= trace
      ensures panic.Some? ==> panic == Some(WakeQueueFull)
      ensures panic.None? ==> halted && device == [] && taskQueue == []
      ensures panic.None? && kb in old(tasks) ==>
                scancodes == Some([]) && waker == Some(kb) && hist.delivered == hist.accepted
      ensures Took(old(device), device, trace[|old(trace)|..], panic.Some?)
      ensures panic.None? ==> Irqs(trace[|old(trace)|..]) == Arrived(old(device))
      ensures panic.None? ==> forall id :: id in old(scripts) && id != kb ==>
                && Starts(hist.log, id) <= Pendings(old(scripts)[id]) + 1
                && (PollReady(id) in hist.log <==> Starts(hist.log, id) == Pendings(old(scripts)[id]) + 1)
                && (id in tasks <==> PollReady(id) !in hist.log)
      ensures panic.None? ==> WakesIn(trace) == ScriptWakes(old(scripts), hist.log, kb)
    {
      hide Reached, Took, Obeys, Said, WakesIn, ScriptWakes, Irqs, Arrived;
      pc := LoopHead;
      Did(StartRun);
      ghost var started := trace;
      while panic.None?
        invariant Valid() && old(trace) <= started <= trace && scripts == old(scripts)
        invariant panic.None? ==> pc.LoopHead?
        invariant |device| <= |old(device)|
        decreases panic.None?, |device|
      {
        RunReadyTasks();
        if panic.Some? { break; }
        SleepIfIdle();
        if panic.Some? || halted { break; }
      }
      RunNeverReturns(kb, started, trace);
      OnlyOnePanicIsLeft(kb, trace);
      SleepIsSafe(kb, trace);
      TookBetween(supply, old(device), device, old(trace), trace, panic.Some?);
      if panic.None? {
        TookAll(old(device), trace[|old(trace)|..]);
        Outcomes(scripts, tasks, hist.log, kb, trace);
      }
    }
  }
}
