/**
 The waker-based executor measured against the simple one, while interrupts land anywhere
 and the keyboard task runs beside the others.
 */
module ExecutorEquivalence {
  import opened Options
  import opened WakeupMachine
  import opened WakeupSafety
  import opened WakeupTheorems
  import opened WakeupProgress
  import opened SimpleExecutor

  // One operation of the main context, decided by the future being polled, or an
  // interrupt.
  datatype Act = Op | Key(code: Scancode) | Tick

  function Perform(d: Driven, act: Act): Driven {
    match act
    case Op => DriveStep(d)
    case Key(code) => d.(s := Step(d.s, Keypress(code)))
    case Tick => d.(s := Step(d.s, Timer))
  }

  function PerformAll(d: Driven, acts: seq<Act>): Driven
    decreases |acts|
  {
    if acts == [] then d else PerformAll(Perform(d, acts[0]), acts[1..])
  }

  // -------- the other tasks in line --------

  // A queue without the copies of the keyboard id.
  function Others(q: seq<TaskId>, kb: TaskId): seq<TaskId> {
    if q == [] then [] else (if q[0] == kb then [] else [q[0]]) + Others(q[1..], kb)
  }

  lemma {:induction false} OthersPush(q: seq<TaskId>, x: TaskId, kb: TaskId)
    ensures Others(q + [x], kb) == Others(q, kb) + if x == kb then [] else [x]
  {
    if q == [] {
      assert q + [x] == [x];
    } else {
      assert (q + [x])[0] == q[0] && (q + [x])[1..] == q[1..] + [x];
      OthersPush(q[1..], x, kb);
    }
  }

  lemma {:induction false} OthersIsAll(q: seq<TaskId>, kb: TaskId)
    requires kb !in q
    ensures Others(q, kb) == q
  {
    if q == [] {
    } else {
      OthersIsAll(q[1..], kb);
    }
  }

  lemma {:induction false} OthersAreQueued(q: seq<TaskId>, kb: TaskId)
    ensures forall id :: id in Others(q, kb) <==> id in q && id != kb
    ensures |Others(q, kb)| <= |q|
  {
    if q == [] {
    } else {
      OthersAreQueued(q[1..], kb);
    }
  }

  function Left(left: map<TaskId, nat>, id: TaskId): nat {
    if id in left then left[id] else 0
  }

  function TasksOf(ids: seq<TaskId>, left: map<TaskId, nat>): (q: seq<Task>)
    ensures |q| == |ids| && forall i :: 0 <= i < |ids| ==> q[i] == Task(ids[i], Left(left, ids[i]))
  {
    seq(|ids|, i requires 0 <= i < |ids| => Task(ids[i], Left(left, ids[i])))
  }

  // The other tasks whose turn is not over, in line; `rest` are those in the queue.
  function Line(pc: Pc, kb: TaskId, rest: seq<TaskId>, woken: bool): seq<TaskId> {
    match pc
    case Popped(id) => if id == kb then rest else [id] + rest
    case OtherPoll(id) => if woken then rest else [id] + rest
    case _ => rest
  }

  function InLine(d: Driven): seq<TaskId> {
    Line(d.s.pc, d.s.kb, Others(d.s.taskQueue, d.s.kb), d.woken)
  }

  // What is left of the futures after the poll that may be going on.
  function LeftAfter(pc: Pc, left: map<TaskId, nat>, woken: bool): map<TaskId, nat> {
    if pc.OtherPoll? && woken && Left(left, pc.id) > 0 then left[pc.id := Left(left, pc.id) - 1] else left
  }

  // What is still to be polled, not counting the poll that may be going on.
  function ToDo(d: Driven): seq<Task> {
    var q := TasksOf(InLine(d), LeftAfter(d.s.pc, d.left, d.woken));
    if d.s.pc.OtherPoll? && !d.woken then AfterTurn(q) else q
  }

  // The polls that began, without those of the keyboard task.
  function OtherStarts(log: seq<Entry>, kb: TaskId): seq<TaskId> {
    if log == [] then []
    else
      var last := log[|log| - 1];
      OtherStarts(log[..|log| - 1], kb) + if last.PollStart? && last.id != kb then [last.id] else []
  }

  lemma {:induction false} StartsPush(log: seq<Entry>, e: Entry, kb: TaskId)
    ensures OtherStarts(log + [e], kb)
            == OtherStarts(log, kb) + if e.PollStart? && e.id != kb then [e.id] else []
  {
    assert (log + [e])[..|log|] == log;
  }

  ghost predicate DistinctSeq(ids: seq<TaskId>) {
    forall i, j :: 0 <= i < j < |ids| ==> ids[i] != ids[j]
  }

  // The run has polled, and will poll, what the simple executor polls from `q`.
  ghost predicate Follows(d: Driven, q: seq<Task>) {
    && Inv(d.s) && d.s.panic.None? && !d.s.pc.Boot?
    && (d.woken ==> d.s.pc.OtherPoll? && Left(d.left, d.s.pc.id) > 0)
    && DistinctSeq(InLine(d)) && |InLine(d)| <= |q|
    && (forall id :: id in InLine(d) ==> id in d.s.tasks && id != d.s.kb)
    && OtherStarts(d.s.hist.log, d.s.kb) + Polls(ToDo(d)) == Polls(q)
  }

  // -------- what does not concern the other tasks --------

  // No other task was popped or is being polled.
  predicate Plain(pc: Pc, kb: TaskId) {
    !pc.OtherPoll? && !(pc.Popped? && pc.id != kb)
  }

  // Nothing about the other tasks changed.
  ghost predicate Quiet(s: State, s': State) {
    && s'.kb == s.kb && s'.tasks == s.tasks
    && Others(s'.taskQueue, s.kb) == Others(s.taskQueue, s.kb)
    && OtherStarts(s'.hist.log, s.kb) == OtherStarts(s.hist.log, s.kb)
    && (s'.pc == s.pc || (Plain(s.pc, s.kb) && Plain(s'.pc, s.kb)))
  }

  lemma {:induction false} QuietFollows(d: Driven, s': State, q: seq<Task>)
    requires Follows(d, q) && Quiet(d.s, s') && Inv(s') && s'.panic.None? && !s'.pc.Boot?
    ensures Follows(d.(s := s'), q) && ToDo(d.(s := s')) == ToDo(d)
  {
    hide Inv, Others, OtherStarts, Polls, AfterTurn;
    assert InLine(d.(s := s')) == InLine(d);
  }

  lemma {:induction false} KeyChanges(s: State, code: Scancode)
    requires s.panic.None?
    ensures var s' := Step(s, Keypress(code));
      && s'.kb == s.kb && s'.tasks == s.tasks && s'.hist.log == s.hist.log
      && (s'.pc == s.pc || (s.pc.Halted? && s'.pc.LoopHead?))
      && (s'.taskQueue == s.taskQueue || (s.waker.Some? && s'.taskQueue == s.taskQueue + [s.waker.value]))
  {
  }

  lemma {:induction false} KeyIsQuiet(s: State, code: Scancode)
    requires Inv(s) && s.panic.None? && Step(s, Keypress(code)).panic.None?
    ensures Quiet(s, Step(s, Keypress(code)))
  {
    assert WakerInv(s);
    hide Inv, OtherStarts, Others, Step;
    KeyChanges(s, code);
    OthersPush(s.taskQueue, s.kb, s.kb);
    assert Others(s.taskQueue, s.kb) + [] == Others(s.taskQueue, s.kb);
  }

  lemma {:induction false} MostStepsScheduleNothing(s: State)
    requires !s.pc.LoopHead? && !s.pc.Popped? && !s.pc.OtherPoll?
    ensures var s' := MainStep(s, ReturnPending);
      && s'.kb == s.kb && s'.taskQueue == s.taskQueue && s'.tasks == s.tasks && s'.hist.log == s.hist.log
      && Plain(s'.pc, s.kb)
  {
  }

  // The main context outside the polls of other futures, unless it pops one of them.
  lemma {:induction false} PlainStepIsQuiet(s: State)
    requires Plain(s.pc, s.kb)
    requires s.pc.LoopHead? && s.taskQueue != [] ==> s.taskQueue[0] == s.kb
    ensures Quiet(s, MainStep(s, ReturnPending))
  {
    StartsPush(s.hist.log, PollStart(s.kb), s.kb);
    hide OtherStarts;
    if s.pc.Popped? {
      assert OtherStarts(s.hist.log, s.kb) + [] == OtherStarts(s.hist.log, s.kb);
    } else if !s.pc.LoopHead? {
      MostStepsScheduleNothing(s);
      hide MainStep, Others;
    }
  }

  // -------- the turn of another task --------

  lemma {:induction false} PopFollows(d: Driven, q: seq<Task>)
    requires Follows(d, q) && d.s.pc.LoopHead? && d.s.taskQueue != [] && d.s.taskQueue[0] != d.s.kb
    requires Inv(DriveStep(d).s)
    ensures Follows(DriveStep(d), q)
    ensures DriveStep(d).s.hist.log == d.s.hist.log && DriveStep(d).s.kb == d.s.kb
    ensures ToDo(DriveStep(d)) == ToDo(d)
  {
    hide Inv, OtherStarts, Polls, TasksOf;
    assert InLine(DriveStep(d)) == InLine(d);
  }

  lemma {:induction false} BeginFollows(d: Driven, q: seq<Task>)
    requires Follows(d, q) && d.s.pc.Popped? && d.s.pc.id != d.s.kb && Inv(DriveStep(d).s)
    ensures Follows(DriveStep(d), q)
    ensures var s' := DriveStep(d).s;
      s'.kb == d.s.kb && OtherStarts(s'.hist.log, s'.kb) == OtherStarts(d.s.hist.log, d.s.kb) + [d.s.pc.id]
    ensures ToDo(d) != [] && ToDo(d)[0] == Task(d.s.pc.id, Left(d.left, d.s.pc.id))
    ensures ToDo(DriveStep(d)) == AfterTurn(ToDo(d)) && !d.woken && DriveStep(d) == d.(s := DriveStep(d).s)
    ensures DriveStep(d).s.pc == OtherPoll(d.s.pc.id)
  {
    hide Inv, Others, Polls, AfterTurn;
    var id := d.s.pc.id;
    var todo, starts := ToDo(d), OtherStarts(d.s.hist.log, d.s.kb);
    assert InLine(d)[0] == id;
    StartsPush(d.s.hist.log, PollStart(id), d.s.kb);
    hide OtherStarts;
    var d' := DriveStep(d);
    assert d'.s.pc == OtherPoll(id) && InLine(d') == InLine(d) && ToDo(d') == AfterTurn(todo);
    PollsUnfold(todo);
    assert starts + ([id] + Polls(AfterTurn(todo))) == (starts + [id]) + Polls(AfterTurn(todo));
  }

  // The head of the line takes its turn.
  lemma {:induction false} HeadOfLine(id: TaskId, rest: seq<TaskId>, left: map<TaskId, nat>)
    requires DistinctSeq([id] + rest)
    ensures id !in rest && DistinctSeq(rest) && DistinctSeq(rest + [id])
    ensures AfterTurn(TasksOf([id] + rest, left))
            == if Left(left, id) == 0 then TasksOf(rest, left) else TasksOf(rest + [id], left[id := Left(left, id) - 1])
  {
    var line := [id] + rest;
    assert forall i :: 0 <= i < |rest| ==> line[i + 1] == rest[i];
    assert line[0] == id;
    var q := TasksOf(line, left);
    assert q[0] == Task(id, Left(left, id)) && q[1..] == TasksOf(rest, left);
    AfterTurnIs(q);
    hide AfterTurn;
    if Left(left, id) > 0 {
      var left' := left[id := Left(left, id) - 1];
      assert TasksOf(rest + [id], left') == TasksOf(rest, left) + [Task(id, Left(left, id) - 1)];
    }
  }

  lemma {:induction false} ReadyStep(d: Driven)
    requires d.s.panic.None? && d.s.pc.OtherPoll? && Left(d.left, d.s.pc.id) == 0
    ensures var s' := DriveStep(d).s;
      && DriveStep(d) == d.(s := s') && s'.panic.None? && s'.pc.LoopHead? && s'.taskQueue == d.s.taskQueue
      && s'.tasks == d.s.tasks - {d.s.pc.id} && s'.kb == d.s.kb
      && s'.hist.log == d.s.hist.log + [PollReady(d.s.pc.id)]
  {
  }

  lemma {:induction false} ReadyFollows(d: Driven, q: seq<Task>)
    requires Follows(d, q) && d.s.pc.OtherPoll? && Left(d.left, d.s.pc.id) == 0 && Inv(DriveStep(d).s)
    ensures Follows(DriveStep(d), q)
    ensures var s' := DriveStep(d).s;
      s'.kb == d.s.kb && OtherStarts(s'.hist.log, s'.kb) == OtherStarts(d.s.hist.log, d.s.kb)
    ensures ToDo(DriveStep(d)) == ToDo(d)
  {
    hide Inv, Others, Polls, DriveStep, OtherStarts, DistinctSeq, TasksOf, AfterTurn;
    var id := d.s.pc.id;
    StartsPush(d.s.hist.log, PollReady(id), d.s.kb);
    assert OtherStarts(d.s.hist.log, d.s.kb) + [] == OtherStarts(d.s.hist.log, d.s.kb);
    var rest := Others(d.s.taskQueue, d.s.kb);
    HeadOfLine(id, rest, d.left);
    ReadyStep(d);
    assert InLine(d) == [id] + rest && InLine(DriveStep(d)) == rest;
    assert forall x :: x in rest ==> x in [id] + rest;
  }

  lemma {:induction false} WakeStep(d: Driven)
    requires d.s.panic.None? && d.s.pc.OtherPoll? && Left(d.left, d.s.pc.id) > 0 && !d.woken
    requires d.s.pc.id != d.s.kb && DriveStep(d).s.panic.None?
    ensures var s' := DriveStep(d).s;
      && DriveStep(d) == Driven(s', d.left, true) && s'.pc == d.s.pc
      && s'.taskQueue == d.s.taskQueue + [d.s.pc.id]
      && s'.tasks == d.s.tasks && s'.kb == d.s.kb && s'.hist.log == d.s.hist.log
  {
  }

  lemma {:induction false} WakeFollows(d: Driven, q: seq<Task>)
    requires Follows(d, q) && d.s.pc.OtherPoll? && Left(d.left, d.s.pc.id) > 0 && !d.woken
    requires Inv(DriveStep(d).s) && DriveStep(d).s.panic.None?
    ensures Follows(DriveStep(d), q)
    ensures DriveStep(d).s.hist.log == d.s.hist.log && DriveStep(d).s.kb == d.s.kb
    ensures ToDo(DriveStep(d)) == ToDo(d)
  {
    hide Inv, Others, Polls, DriveStep, OtherStarts, DistinctSeq, TasksOf, AfterTurn;
    var id := d.s.pc.id;
    assert InLine(d)[0] == id && id in InLine(d);
    OthersPush(d.s.taskQueue, id, d.s.kb);
    HeadOfLine(id, Others(d.s.taskQueue, d.s.kb), d.left);
    WakeStep(d);
    var rest := Others(d.s.taskQueue, d.s.kb);
    assert InLine(DriveStep(d)) == rest + [id];
    assert forall x :: x in rest + [id] <==> x in [id] + rest;
  }

  lemma {:induction false} PendingFollows(d: Driven, q: seq<Task>)
    requires Follows(d, q) && d.s.pc.OtherPoll? && d.woken && Inv(DriveStep(d).s)
    ensures Follows(DriveStep(d), q)
    ensures DriveStep(d).s.hist.log == d.s.hist.log && DriveStep(d).s.kb == d.s.kb
    ensures ToDo(DriveStep(d)) == ToDo(d)
  {
    hide Inv, Others, Polls, OtherStarts;
    var d' := DriveStep(d);
    assert InLine(d') == InLine(d) && ToDo(d') == ToDo(d);
  }

  // -------- every act --------

  lemma {:induction false} DriveIsStep(d: Driven)
    ensures exists choice :: DriveStep(d).s == Step(d.s, Main(choice))
  {
    hide Step;
  }

  lemma {:induction false} PerformKeepsInv(d: Driven, act: Act)
    requires Inv(d.s) && !d.s.pc.Boot?
    ensures var s' := Perform(d, act).s; Inv(s') && !s'.pc.Boot? && s'.kb == d.s.kb
    ensures d.s.kb !in d.s.tasks ==> d.s.kb !in Perform(d, act).s.tasks
  {
    DriveIsStep(d);
    hide Inv, DriveStep;
    var e :| Perform(d, act).s == Step(d.s, e) && (e.Main? || e.Keypress? || e.Timer?);
    StepKeeps(d.s, e);
    StepNeverUndoes(d.s, e);
    StepFixesKeyboardId(d.s, e);
    StepSpawnsNothing(d.s, e);
    hide Step;
  }

  lemma {:induction false} StepSpawnsNothing(s: State, e: Event)
    requires e.Main? || e.Keypress? || e.Timer?
    ensures s.kb !in s.tasks ==> s.kb !in Step(s, e).tasks
  {
    if e.Main? {
      assert MainStep(s, e.choice).tasks <= s.tasks;
    }
  }

  // A panic is not a poll.
  lemma {:induction false} PanicLogsNothing(s: State, e: Event)
    requires s.panic.None? && Step(s, e).panic.Some?
    ensures Step(s, e).hist.log == s.hist.log
  {
  }

  lemma {:induction false} OpFollows(d: Driven, q: seq<Task>)
    requires Follows(d, q) && DriveStep(d).s.panic.None?
    ensures Follows(DriveStep(d), q)
    ensures var s' := DriveStep(d).s;
      s'.kb == d.s.kb && OtherStarts(d.s.hist.log, d.s.kb) <= OtherStarts(s'.hist.log, d.s.kb)
  {
    PerformKeepsInv(d, Op);
    hide Inv, OtherStarts, Others, Polls, TasksOf, AfterTurn;
    if d.s.pc.OtherPoll? {
      hide DriveStep, Follows;
      FollowsMeans(d, q);
      if Left(d.left, d.s.pc.id) == 0 {
        ReadyFollows(d, q);
      } else if d.woken {
        PendingFollows(d, q);
      } else {
        WakeFollows(d, q);
      }
    } else if d.s.pc.Popped? && d.s.pc.id != d.s.kb {
      hide DriveStep, Follows;
      BeginFollows(d, q);
    } else if d.s.pc.LoopHead? && d.s.taskQueue != [] && d.s.taskQueue[0] != d.s.kb {
      hide DriveStep, Follows;
      PopFollows(d, q);
    } else {
      PlainStepIsQuiet(d.s);
      hide MainStep;
      assert DriveStep(d) == d.(s := MainStep(d.s, ReturnPending));
      QuietFollows(d, MainStep(d.s, ReturnPending), q);
      hide Follows;
    }
  }

  lemma {:induction false} FollowsMeans(d: Driven, q: seq<Task>)
    requires Follows(d, q)
    ensures Inv(d.s) && d.s.panic.None? && !d.s.pc.Boot?
    ensures OtherStarts(d.s.hist.log, d.s.kb) + Polls(ToDo(d)) == Polls(q)
    ensures d.woken ==> d.s.pc.OtherPoll? && Left(d.left, d.s.pc.id) > 0
  {
  }

  // Every act keeps to what the simple executor does, and a panic polls nobody.
  lemma {:induction false} PerformFollows(d: Driven, act: Act, q: seq<Task>)
    requires Follows(d, q)
    ensures var s' := Perform(d, act).s;
      && s'.kb == d.s.kb
      && OtherStarts(d.s.hist.log, d.s.kb) <= OtherStarts(s'.hist.log, d.s.kb)
      && (s'.panic.None? ==> Follows(Perform(d, act), q))
      && (s'.panic.Some? ==> s'.hist.log == d.s.hist.log)
  {
    hide OtherStarts, Others, Polls, TasksOf, AfterTurn;
    FollowsMeans(d, q);
    PerformKeepsInv(d, act);
    var s' := Perform(d, act).s;
    if s'.panic.Some? {
      DriveIsStep(d);
      hide DriveStep;
      var e :| s' == Step(d.s, e);
      PanicLogsNothing(d.s, e);
    } else {
      hide Inv;
      match act
      case Op => OpFollows(d, q);
      case Key(code) =>
        KeyIsQuiet(d.s, code);
        QuietFollows(d, s', q);
      case Tick =>
        QuietFollows(d, s', q);
    }
  }

  lemma {:induction false} PanicFreezes(d: Driven, acts: seq<Act>)
    requires d.s.panic.Some?
    ensures PerformAll(d, acts).s == d.s
    decreases |acts|
  {
    if acts == [] {
    } else {
      assert Perform(d, acts[0]).s == d.s;
      PanicFreezes(Perform(d, acts[0]), acts[1..]);
    }
  }

  // Whatever interrupts land, the polls of the other tasks are a beginning of those of the
  // simple executor.
  lemma {:induction false} RunFollows(d: Driven, acts: seq<Act>, q: seq<Task>)
    requires Follows(d, q)
    ensures var d' := PerformAll(d, acts);
      && d'.s.kb == d.s.kb
      && OtherStarts(d.s.hist.log, d.s.kb) <= OtherStarts(d'.s.hist.log, d.s.kb) <= Polls(q)
      && (d'.s.panic.None? ==> Follows(d', q))
    decreases |acts|
  {
    hide Follows, Perform, OtherStarts, Polls, ToDo;
    FollowsMeans(d, q);
    if acts == [] {
    } else {
      var d1 := Perform(d, acts[0]);
      PerformFollows(d, acts[0], q);
      if d1.s.panic.Some? {
        PanicFreezes(d1, acts[1..]);
      } else {
        RunFollows(d1, acts[1..], q);
      }
    }
  }

  // -------- and all of them are polled --------

  function OneIf(b: bool): nat {
    if b then 1 else 0
  }

  // The future being polled is about to wake itself.
  predicate WillWake(d: Driven) {
    d.s.pc.OtherPoll? && !d.woken && Left(d.left, d.s.pc.id) > 0
  }

  lemma {:induction false} RemainingAtLeast(q: seq<Task>)
    ensures Remaining(q) >= |q|
  {
    if q == [] {
    } else {
      RemainingAtLeast(q[1..]);
    }
  }

  // How often the other futures will still wake themselves.
  function Wakes(d: Driven): nat {
    RemainingAtLeast(ToDo(d));
    Remaining(ToDo(d)) - |ToDo(d)| + OneIf(WillWake(d))
  }

  // An upper bound on the operations left before the other tasks are done, if no key is
  // pressed; each key press adds at most 13.
  function Effort(d: Driven): nat {
    Work(d.s) + 8 * Wakes(d)
  }

  const PER_KEY: nat := 13

  function CountOps(acts: seq<Act>): nat {
    if acts == [] then 0 else OneIf(acts[0].Op?) + CountOps(acts[1..])
  }

  function CountKeys(acts: seq<Act>): nat {
    if acts == [] then 0 else OneIf(acts[0].Key?) + CountKeys(acts[1..])
  }

  // Only a wake leaves the main context inside the poll of another future.
  lemma {:induction false} WakesAreConsumed(d: Driven)
    requires d.s.panic.None? && DriveStep(d).s.panic.None?
    ensures d.s.pc.OtherPoll? ==> !WillWake(DriveStep(d))
    ensures Plain(d.s.pc, d.s.kb) ==> !WillWake(DriveStep(d))
  {
    if Plain(d.s.pc, d.s.kb) && !d.s.pc.LoopHead? && !d.s.pc.Popped? {
      MostStepsScheduleNothing(d.s);
      hide MainStep;
    }
  }

  lemma {:induction false} TurnKeepsToDo(d: Driven, q: seq<Task>)
    requires Follows(d, q) && DriveStep(d).s.panic.None? && Inv(DriveStep(d).s) && !DriveStep(d).s.pc.Boot?
    requires !(d.s.pc.Popped? && d.s.pc.id != d.s.kb)
    ensures ToDo(DriveStep(d)) == ToDo(d)
  {
    FollowsMeans(d, q);
    hide Inv, OtherStarts, Others, Polls, ToDo, Follows;
    if d.s.pc.OtherPoll? {
      hide DriveStep;
      if Left(d.left, d.s.pc.id) == 0 {
        ReadyFollows(d, q);
      } else if d.woken {
        PendingFollows(d, q);
      } else {
        WakeFollows(d, q);
      }
    } else if d.s.pc.LoopHead? && d.s.taskQueue != [] && d.s.taskQueue[0] != d.s.kb {
      PopFollows(d, q);
    } else {
      PlainStepIsQuiet(d.s);
      hide MainStep;
      assert DriveStep(d) == d.(s := MainStep(d.s, ReturnPending));
      QuietFollows(d, MainStep(d.s, ReturnPending), q);
    }
  }

  lemma {:induction false} OpWakes(d: Driven, q: seq<Task>)
    requires Follows(d, q) && DriveStep(d).s.panic.None?
    ensures Wakes(DriveStep(d)) + OneIf(WillWake(d)) == Wakes(d)
  {
    FollowsMeans(d, q);
    PerformKeepsInv(d, Op);
    WakesAreConsumed(d);
    hide DriveStep, Inv, OtherStarts, Others, Polls, TasksOf, AfterTurn, ToDo, Follows, Remaining;
    if d.s.pc.Popped? && d.s.pc.id != d.s.kb {
      BeginFollows(d, q);
      AfterTurnIs(ToDo(d));
    } else {
      TurnKeepsToDo(d, q);
    }
  }

  lemma {:induction false} InLineIsOther(d: Driven, q: seq<Task>)
    requires Follows(d, q) && d.s.pc.OtherPoll? && !d.woken
    ensures d.s.pc.id != d.s.kb
  {
    hide Inv, Others, Polls, OtherStarts;
    assert InLine(d)[0] == d.s.pc.id && d.s.pc.id in InLine(d);
  }

  // What DriveStep is when the future does not wake itself.
  lemma {:induction false} DriveIsSilent(d: Driven)
    requires d.s.panic.None? && !WillWake(d)
    ensures DriveStep(d).s == MainStep(d.s, ReturnPending) || DriveStep(d).s == MainStep(d.s, ReturnReady)
  {
    hide MainStep;
  }

  lemma {:induction false} OpLowersEffort(d: Driven, q: seq<Task>)
    requires Follows(d, q) && DriveStep(d).s.panic.None? && !d.s.pc.Halted?
    ensures Effort(DriveStep(d)) < Effort(d)
  {
    hide DriveStep, MainStep, Wakes, Follows, Inv, Work;
    OpWakes(d, q);
    FollowsMeans(d, q);
    if WillWake(d) {
      InLineIsOther(d, q);
      WakeWork(d);
    } else {
      DriveIsSilent(d);
      WorkShrinks(d.s, ReturnPending);
      WorkShrinks(d.s, ReturnReady);
    }
  }

  lemma {:induction false} WakeWork(d: Driven)
    requires d.s.panic.None? && WillWake(d) && d.s.pc.id != d.s.kb && DriveStep(d).s.panic.None?
    ensures Work(DriveStep(d).s) == Work(d.s) + 7
  {
  }

  // While something is to do, the CPU does not sleep and is not about to.
  lemma {:induction false} BusyStaysAwake(d: Driven, q: seq<Task>)
    requires Follows(d, q) && ToDo(d) != []
    ensures !d.s.pc.Halted? && (d.s.pc.SleepEntry? ==> d.s.taskQueue != [])
  {
    assert QueueInv(d.s);
    hide Inv, Polls, OtherStarts;
    assert d.s.taskQueue == [] && !d.s.pc.Popped? && !d.s.pc.OtherPoll? ==> InLine(d) == [];
  }

  lemma {:induction false} KeyWork(s: State, code: Scancode)
    requires Inv(s) && s.panic.None? && !s.pc.Halted? && (s.pc.SleepEntry? ==> s.taskQueue != [])
    requires Step(s, Keypress(code)).panic.None?
    ensures Work(Step(s, Keypress(code))) <= Work(s) + PER_KEY
  {
    assert QueueInv(s);
    hide Inv;
  }

  lemma {:induction false} KeyRaisesEffort(d: Driven, code: Scancode, q: seq<Task>)
    requires Follows(d, q) && ToDo(d) != [] && Step(d.s, Keypress(code)).panic.None?
    ensures Effort(Perform(d, Key(code))) <= Effort(d) + PER_KEY
  {
    BusyStaysAwake(d, q);
    FollowsMeans(d, q);
    PerformKeepsInv(d, Key(code));
    KeyIsQuiet(d.s, code);
    KeyWork(d.s, code);
    hide Inv, Step, ToDo, Follows, Others, OtherStarts, Work, Remaining;
    QuietFollows(d, Step(d.s, Keypress(code)), q);
  }

  lemma {:induction false} TickKeepsEffort(d: Driven, q: seq<Task>)
    requires Follows(d, q) && ToDo(d) != []
    ensures Perform(d, Tick) == d
  {
    BusyStaysAwake(d, q);
    hide Follows, ToDo;
  }

  lemma {:induction false} NothingToDo(q: seq<Task>)
    ensures Polls(q) == [] <==> q == []
  {
  }

  // After enough operations everything is polled, in the order of the simple executor,
  // unless a waker found the queue full.
  lemma {:induction false} RunCompletes(d: Driven, acts: seq<Act>, q: seq<Task>)
    requires Follows(d, q) && CountOps(acts) >= Effort(d) + PER_KEY * CountKeys(acts)
    ensures var d' := PerformAll(d, acts);
      d'.s.panic.Some? || OtherStarts(d'.s.hist.log, d.s.kb) == Polls(q)
    decreases |acts|
  {
    hide Follows, OtherStarts, Polls, ToDo, DriveStep, Step, Wakes, Work;
    RunFollows(d, acts, q);
    FollowsMeans(d, q);
    NothingToDo(ToDo(d));
    if ToDo(d) == [] {
    } else {
      BusyStaysAwake(d, q);
      AwakeHasWork(d.s);
      var d1 := Perform(d, acts[0]);
      PerformFollows(d, acts[0], q);
      if d1.s.panic.Some? {
        PanicFreezes(d1, acts[1..]);
      } else {
        match acts[0] {
          case Op => OpLowersEffort(d, q);
          case Key(code) => KeyRaisesEffort(d, code, q);
          case Tick => TickKeepsEffort(d, q);
        }
        RunCompletes(d1, acts[1..], q);
      }
    }
  }

  lemma {:induction false} AwakeHasWork(s: State)
    requires !s.pc.Halted? && !s.pc.Boot?
    ensures Work(s) > 0
  {
  }

  // -------- without the keyboard task nothing overflows --------

  lemma {:induction false} AloneIsUnqueued(s: State)
    requires Inv(s) && s.kb !in s.tasks
    ensures s.kb !in s.taskQueue && s.waker.None?
  {
    assert MembershipInv(s);
  }

  // The line has room for its own head.
  lemma {:induction false} AloneHasRoom(d: Driven, q: seq<Task>)
    requires Follows(d, q) && |q| <= TASK_CAPACITY && d.s.kb !in d.s.tasks && WillWake(d)
    ensures |d.s.taskQueue| < TASK_CAPACITY
  {
    AloneIsUnqueued(d.s);
    OthersIsAll(d.s.taskQueue, d.s.kb);
    hide Inv, Others, OtherStarts, Polls;
    assert InLine(d) == [d.s.pc.id] + d.s.taskQueue;
  }

  lemma {:induction false} OpWithRoom(d: Driven)
    requires Inv(d.s) && d.s.panic.None? && !d.s.pc.Boot? && (WillWake(d) ==> |d.s.taskQueue| < TASK_CAPACITY)
    ensures DriveStep(d).s.panic.None?
  {
    if WillWake(d) {
      hide Inv;
    } else if d.s.pc.Halted? {
      HaltedStays(d);
    } else {
      hide MainStep, Inv;
      DriveIsSilent(d);
      WorkShrinks(d.s, ReturnPending);
      WorkShrinks(d.s, ReturnReady);
    }
  }

  lemma {:induction false} KeyWithoutWaker(s: State, code: Scancode)
    requires s.panic.None? && s.waker.None?
    ensures Step(s, Keypress(code)).panic.None?
  {
  }

  lemma {:induction false} AloneFitsInQueue(d: Driven, act: Act, q: seq<Task>)
    requires Follows(d, q) && |q| <= TASK_CAPACITY && d.s.kb !in d.s.tasks
    ensures Perform(d, act).s.panic.None?
  {
    FollowsMeans(d, q);
    AloneIsUnqueued(d.s);
    hide Inv, Follows, DriveStep;
    match act
    case Op =>
      if WillWake(d) {
        AloneHasRoom(d, q);
      }
      OpWithRoom(d);
    case Key(code) => KeyWithoutWaker(d.s, code);
    case Tick =>
  }

  lemma {:induction false} HaltedStays(d: Driven)
    requires d.s.panic.None? && d.s.pc.Halted?
    ensures DriveStep(d) == d
  {
  }

  lemma {:induction false} RunAlone(d: Driven, acts: seq<Act>, q: seq<Task>)
    requires Follows(d, q) && |q| <= 100 && d.s.kb !in d.s.tasks
    ensures PerformAll(d, acts).s.panic.None?
    decreases |acts|
  {
    hide Follows, Perform, OtherStarts, Polls, ToDo;
    FollowsMeans(d, q);
    if acts == [] {
    } else {
      AloneFitsInQueue(d, acts[0], q);
      PerformFollows(d, acts[0], q);
      PerformKeepsInv(d, acts[0]);
      RunAlone(Perform(d, acts[0]), acts[1..], q);
    }
  }

  // -------- from boot --------

  // Before run() every spawned id is queued once.
  ghost predicate Booting(s: State) {
    s.pc.Boot? && s.panic.None? ==>
      && DistinctSeq(s.taskQueue) && (forall id :: id in s.taskQueue ==> id in s.tasks)
      && s.waker.None?
  }

  lemma {:induction false} StepKeepsBooting(s: State, e: Event)
    requires Booting(s)
    ensures Booting(Step(s, e))
  {
    if e.Main? && !s.pc.Boot? {
      assert !MainStep(s, e.choice).pc.Boot?;
    }
  }

  lemma {:induction false} RunKeepsBooting(s: State, events: seq<Event>)
    requires Booting(s)
    ensures Booting(Run(s, events))
    decreases |events|
  {
    hide Booting, Step;
    if events == [] {
    } else {
      StepKeepsBooting(s, events[0]);
      RunKeepsBooting(Step(s, events[0]), events[1..]);
    }
  }

  lemma {:induction false} OthersAreDistinct(q: seq<TaskId>, kb: TaskId)
    requires DistinctSeq(q)
    ensures DistinctSeq(Others(q, kb))
  {
    if q == [] {
    } else {
      var rest := Others(q[1..], kb);
      OthersAreDistinct(q[1..], kb);
      OthersAreQueued(q[1..], kb);
      assert q[0] !in q[1..];
      forall i, j | 0 <= i < j < |[q[0]] + rest|
        ensures ([q[0]] + rest)[i] != ([q[0]] + rest)[j]
      {
        assert rest[j - 1] in rest;
      }
    }
  }

  // run() is called after a boot: the futures are as `left` says.
  function Started(kb: TaskId, boot: seq<Event>, left: map<TaskId, nat>): Driven {
    Driven(Step(Reached(kb, boot), StartRun), left, false)
  }

  // The tasks that SimpleExecutor would have been given, in the order of their spawns.
  function GivenTasks(kb: TaskId, boot: seq<Event>, left: map<TaskId, nat>): seq<Task> {
    TasksOf(Others(Reached(kb, boot).taskQueue, kb), left)
  }

  lemma {:induction false} BootMeans(s: State)
    requires Inv(s) && Booting(s) && s.pc.Boot? && s.panic.None?
    ensures var s' := Step(s, StartRun);
      s' == s.(pc := LoopHead) && Inv(s') && s.hist.log == [] && |s.taskQueue| <= TASK_CAPACITY
    ensures var rest := Others(s.taskQueue, s.kb);
      DistinctSeq(rest) && |rest| <= |s.taskQueue| && forall id :: id in rest ==> id in s.tasks && id != s.kb
  {
    StepKeeps(s, StartRun);
    OthersAreDistinct(s.taskQueue, s.kb);
    OthersAreQueued(s.taskQueue, s.kb);
    assert LogInv(s) && QueueInv(s);
    hide Inv, Others, DistinctSeq;
  }

  lemma {:induction false} StartFollows(kb: TaskId, boot: seq<Event>, left: map<TaskId, nat>)
    requires Reached(kb, boot).pc.Boot? && Reached(kb, boot).panic.None?
    ensures Follows(Started(kb, boot, left), GivenTasks(kb, boot, left))
    ensures |GivenTasks(kb, boot, left)| <= TASK_CAPACITY && Started(kb, boot, left).s.kb == kb
    ensures Started(kb, boot, left).s.tasks == Reached(kb, boot).tasks
  {
    var s := Reached(kb, boot);
    ReachedInv(kb, boot);
    RunKeepsBooting(Init(kb), boot);
    BootMeans(s);
    hide Inv, Run, Step, Others, Polls, TasksOf, DistinctSeq, Booting;
    assert [] + Polls(GivenTasks(kb, boot, left)) == Polls(GivenTasks(kb, boot, left));
  }

  // Any tasks spawned in any order, the keyboard task among them or not; futures that wake
  // themselves once per Pending; interrupts anywhere. The other tasks are polled in the
  // order of SimpleExecutor, nobody else and nobody twice in a round; all their polls
  // happen within a computed number of operations, unless a waker found the queue full;
  // and without the keyboard task that never happens.
  lemma {:induction false} ExecutorsAgree(kb: TaskId, boot: seq<Event>, left: map<TaskId, nat>, acts: seq<Act>)
    requires Reached(kb, boot).pc.Boot? && Reached(kb, boot).panic.None?
    ensures var d, q := Started(kb, boot, left), GivenTasks(kb, boot, left);
      var s' := PerformAll(d, acts).s;
      && OtherStarts(s'.hist.log, kb) <= RoundRobin(q) == Polls(q)
      && (CountOps(acts) >= Effort(d) + PER_KEY * CountKeys(acts) ==>
            s'.panic.Some? || OtherStarts(s'.hist.log, kb) == RoundRobin(q))
      && (s'.panic.Some? ==> s'.panic == Some(WakeQueueFull) && kb in Reached(kb, boot).tasks)
  {
    var d, q := Started(kb, boot, left), GivenTasks(kb, boot, left);
    StartFollows(kb, boot, left);
    SimpleIsRoundRobin(q);
    hide Follows, OtherStarts, Polls, RoundRobin, Effort, Started, GivenTasks, Reached;
    RunFollows(d, acts, q);
    if CountOps(acts) >= Effort(d) + PER_KEY * CountKeys(acts) {
      RunCompletes(d, acts, q);
    }
    RunPanics(d, acts);
    if kb !in d.s.tasks {
      RunAlone(d, acts, q);
    }
  }

  lemma {:induction false} RunPanics(d: Driven, acts: seq<Act>)
    requires Inv(d.s) && !d.s.pc.Boot?
    ensures PerformAll(d, acts).s.panic.Some? ==> PerformAll(d, acts).s.panic == Some(WakeQueueFull)
    decreases |acts|
  {
    if acts == [] {
      assert PanicInv(d.s);
      if d.s.panic.Some? {
        PanicsAre(d.s);
      }
    } else {
      hide Inv, Perform;
      PerformKeepsInv(d, acts[0]);
      RunPanics(Perform(d, acts[0]), acts[1..]);
    }
  }

  lemma {:induction false} PanicsAre(s: State)
    requires PanicInv(s) && !s.pc.Boot? && s.panic.Some?
    ensures s.panic == Some(WakeQueueFull)
  {
    match s.panic.value
    case SpawnSameId =>
    case SpawnQueueFull =>
    case WakeQueueFull =>
    case InitTwice =>
    case NotInitialized =>
  }
}
