/**
 simple_executor.rs, and the waker-based executor measured against it.
 */
module SimpleExecutor {
  import opened WakeupMachine
  import opened WakeupTheorems

  // A future that returns Pending a number of times and then Ready.
  datatype Task = Task(id: TaskId, pendings: nat)

  function Ids(q: seq<Task>): (r: seq<TaskId>)
    ensures |r| == |q| && forall i :: 0 <= i < |q| ==> r[i] == q[i].id
  {
    seq(|q|, i requires 0 <= i < |q| => q[i].id)
  }

  // Polls that all tasks together still need.
  function Remaining(q: seq<Task>): nat {
    if q == [] then 0 else q[0].pendings + 1 + Remaining(q[1..])
  }

  lemma {:induction false} RemainingAppend(q: seq<Task>, t: Task)
    ensures Remaining(q + [t]) == Remaining(q) + t.pendings + 1
  {
    if q == [] {
      assert q + [t] == [t];
    } else {
      assert (q + [t])[1..] == q[1..] + [t];
      RemainingAppend(q[1..], t);
    }
  }

  // The rest of a task that was polled once.
  function Again(t: Task): (r: seq<Task>)
    ensures Remaining(r) == t.pendings
  {
    if t.pendings == 0 then [] else [Task(t.id, t.pendings - 1)]
  }

  // What one turn of SimpleExecutor::run leaves in the queue.
  function AfterTurn(q: seq<Task>): (r: seq<Task>)
    requires q != []
    ensures Remaining(r) == Remaining(q) - 1
  {
    if q[0].pendings == 0 then q[1..]
    else
      RemainingAppend(q[1..], Task(q[0].id, q[0].pendings - 1));
      q[1..] + Again(q[0])
  }

  // The ids polled from queue `q` on, in order.
  function Polls(q: seq<Task>): seq<TaskId>
    decreases Remaining(q)
  {
    if q == [] then []
    else [q[0].id] + Polls(AfterTurn(q))
  }

  lemma {:induction false} PollsUnfold(q: seq<Task>)
    requires q != []
    ensures Polls(q) == [q[0].id] + Polls(AfterTurn(q))
  {
  }

  lemma {:induction false} PollsOfNothing()
    ensures Polls([]) == []
  {
  }

  lemma {:induction false} AfterTurnIs(q: seq<Task>)
    requires q != []
    ensures AfterTurn(q) == if q[0].pendings == 0 then q[1..] else q[1..] + [Task(q[0].id, q[0].pendings - 1)]
  {
  }

  class SimpleExecutor {
    var taskQueue: seq<Task>
    ghost var polled: seq<TaskId>

    constructor ()
      ensures taskQueue == [] && polled == []
    {
      taskQueue, polled := [], [];
    }

    method Spawn(task: Task)
      modifies this`taskQueue
      ensures taskQueue == old(taskQueue) + [task]
    {
      taskQueue := taskQueue + [task];
    }

    method Run()
      modifies this
      ensures taskQueue == []
      ensures polled == old(polled) + Polls(old(taskQueue))
    {
      hide Polls, Remaining, AfterTurn;
      ghost var all := polled + Polls(taskQueue);
      while taskQueue != []
        invariant polled + Polls(taskQueue) == all
        decreases Remaining(taskQueue)
      {
        ghost var q, done := taskQueue, polled;
        PollsUnfold(q);
        AfterTurnIs(q);
        var task := taskQueue[0];
        taskQueue := taskQueue[1..];
        polled := polled + [task.id];
        if task.pendings > 0 {
          taskQueue := taskQueue + [Task(task.id, task.pendings - 1)];
        }
        assert taskQueue == AfterTurn(q);
        assert done + ([task.id] + Polls(taskQueue)) == polled + Polls(taskQueue);
      }
      PollsOfNothing();
    }
  }

  // -------- the polls go round by round --------

  function Survivors(q: seq<Task>): seq<Task> {
    if q == [] then [] else Again(q[0]) + Survivors(q[1..])
  }

  lemma {:induction false} SurvivorsNeedLess(q: seq<Task>)
    ensures Remaining(Survivors(q)) + |q| == Remaining(q)
  {
    if q == [] {
    } else {
      SurvivorsNeedLess(q[1..]);
      if q[0].pendings == 0 {
        assert Survivors(q) == Survivors(q[1..]);
      } else {
        assert Survivors(q)[1..] == Survivors(q[1..]);
      }
    }
  }

  // Everybody once, then everybody who is not done, and so on.
  function RoundRobin(q: seq<Task>): seq<TaskId>
    decreases Remaining(q)
  {
    if q == [] then []
    else
      SurvivorsNeedLess(q);
      Ids(q) + RoundRobin(Survivors(q))
  }

  lemma {:induction false} TurnInRound(a: seq<Task>, done: seq<Task>)
    requires a != []
    ensures AfterTurn(a + done) == a[1..] + (done + Again(a[0]))
  {
    assert (a + done)[0] == a[0] && (a + done)[1..] == a[1..] + done;
  }

  lemma {:induction false} OneRound(a: seq<Task>, done: seq<Task>)
    ensures Polls(a + done) == Ids(a) + Polls(done + Survivors(a))
    decreases |a|
  {
    hide Polls, AfterTurn, Remaining, Again;
    if a == [] {
      assert a + done == done == done + Survivors(a);
    } else {
      var rest, done' := a[1..], done + Again(a[0]);
      PollsUnfold(a + done);
      TurnInRound(a, done);
      OneRound(rest, done');
      assert Ids(a) == [a[0].id] + Ids(rest);
      assert done' + Survivors(rest) == done + Survivors(a);
    }
  }

  lemma {:induction false} SimpleIsRoundRobin(q: seq<Task>)
    ensures Polls(q) == RoundRobin(q)
    decreases Remaining(q)
  {
    if q == [] {
    } else {
      SurvivorsNeedLess(q);
      OneRound(q, []);
      assert q + [] == q && [] + Survivors(q) == Survivors(q);
      SimpleIsRoundRobin(Survivors(q));
    }
  }

  lemma {:induction false} PollsCount(q: seq<Task>)
    ensures |Polls(q)| == Remaining(q)
    decreases Remaining(q)
  {
    if q == [] {
    } else {
      PollsUnfold(q);
      PollsCount(AfterTurn(q));
    }
  }

  // -------- the waker-based executor polls the same ids --------

  // Pop, look up, poll: a pending future wakes itself once, a finished one does not.
  function TurnEvents(t: Task): seq<Event> {
    [STEP, STEP] + if t.pendings == 0 then [Main(ReturnReady)] else [Main(Wake(t.id)), STEP]
  }

  function SelfWaking(q: seq<Task>): seq<Event>
    decreases Remaining(q)
  {
    if q == [] then []
    else
      TurnEvents(q[0]) + SelfWaking(AfterTurn(q))
  }

  function Spawns(q: seq<Task>): seq<Event> {
    seq(|q|, i requires 0 <= i < |q| => Spawn(q[i].id))
  }

  function PollStarts(log: seq<Entry>): seq<TaskId> {
    if log == [] then []
    else
      var last := log[|log| - 1];
      PollStarts(log[..|log| - 1]) + if last.PollStart? then [last.id] else []
  }

  ghost predicate DistinctIds(q: seq<Task>) {
    forall i, j :: 0 <= i < j < |q| ==> q[i].id != q[j].id
  }

  function IdSet(q: seq<Task>): set<TaskId> {
    set id | id in Ids(q)
  }

  // `s` is at the head of run_ready_tasks with exactly the tasks of `q`.
  ghost predicate Mirrors(s: State, q: seq<Task>) {
    && s.panic.None? && s.pc.LoopHead?
    && |q| <= TASK_CAPACITY && DistinctIds(q)
    && s.taskQueue == Ids(q)
    && s.tasks == IdSet(q)
    && s.kb !in s.tasks
  }

  // The queue after a turn, seen as ids.
  lemma {:induction false} IdsAfterTurn(q: seq<Task>)
    requires q != [] && DistinctIds(q)
    ensures var id := q[0].id;
      && DistinctIds(AfterTurn(q)) && |AfterTurn(q)| <= |q|
      && Ids(AfterTurn(q)) == Ids(q)[1..] + (if q[0].pendings == 0 then [] else [id])
      && IdSet(AfterTurn(q)) == if q[0].pendings == 0 then IdSet(q) - {id} else IdSet(q)
  {
    var id := q[0].id;
    assert Ids(q) == [id] + Ids(q)[1..];
    assert forall x :: x in Ids(q) <==> x == id || x in Ids(q)[1..];
  }

  // Pop, look up and poll: the machine is inside the future at the head of the queue.
  lemma {:induction false} EnterPoll(s: State, q: seq<Task>)
    requires Mirrors(s, q) && q != []
    ensures var s' := Step(Step(s, STEP), STEP);
      && s'.panic.None? && s'.pc == OtherPoll(q[0].id)
      && s'.taskQueue == Ids(q)[1..] && s'.tasks == s.tasks && s'.kb == s.kb
      && s'.hist.log == s.hist.log + [PollStart(q[0].id)]
  {
    hide Step;
    StepSchedules(s);
    StepSchedules(Step(s, STEP));
    assert Ids(q)[0] in Ids(q);
  }

  lemma {:induction false} PendingTurn(s: State, q: seq<Task>)
    requires Mirrors(s, q) && q != [] && q[0].pendings > 0
    ensures var s' := Run(s, TurnEvents(q[0]));
      Mirrors(s', AfterTurn(q)) && s'.hist.log == s.hist.log + [PollStart(q[0].id)]
  {
    hide Step, Run, AfterTurn;
    var id := q[0].id;
    assert TurnEvents(q[0]) == [STEP, STEP, Main(Wake(id)), STEP];
    RunFour(s, STEP, STEP, Main(Wake(id)), STEP);
    EnterPoll(s, q);
    IdsAfterTurn(q);
    var s2 := Step(Step(s, STEP), STEP);
    StepPollsOther(s2, Wake(id));
    assert id in Ids(q) by { assert Ids(q)[0] == id; }
    StepPollsOther(Step(s2, Main(Wake(id))), ReturnPending);
  }

  lemma {:induction false} ReadyTurn(s: State, q: seq<Task>)
    requires Mirrors(s, q) && q != [] && q[0].pendings == 0
    ensures var s' := Run(s, TurnEvents(q[0]));
      Mirrors(s', AfterTurn(q)) && s'.hist.log == s.hist.log + [PollStart(q[0].id), PollReady(q[0].id)]
  {
    hide Step, Run, AfterTurn;
    var id := q[0].id;
    assert TurnEvents(q[0]) == [STEP, STEP, Main(ReturnReady)];
    RunThree(s, STEP, STEP, Main(ReturnReady));
    EnterPoll(s, q);
    IdsAfterTurn(q);
    StepPollsOther(Step(Step(s, STEP), STEP), ReturnReady);
    assert Ids(q)[1..] + [] == Ids(q)[1..];
  }

  lemma {:induction false} StartsGrow(log: seq<Entry>, id: TaskId)
    ensures PollStarts(log + [PollStart(id)]) == PollStarts(log) + [id]
    ensures PollStarts(log + [PollStart(id), PollReady(id)]) == PollStarts(log) + [id]
  {
    var log1 := log + [PollStart(id)];
    assert log1[..|log1| - 1] == log;
    var log2 := log + [PollStart(id), PollReady(id)];
    assert log2[..|log2| - 1] == log1;
  }

  lemma {:induction false} SelfWakingRun(s: State, q: seq<Task>)
    requires Mirrors(s, q)
    ensures var s' := Run(s, SelfWaking(q));
      Mirrors(s', []) && PollStarts(s'.hist.log) == PollStarts(s.hist.log) + Polls(q)
    decreases Remaining(q)
  {
    hide Mirrors, Polls, SelfWaking, Step, PollStarts, AfterTurn, Remaining;
    if q == [] {
      NothingToRun();
      assert PollStarts(s.hist.log) + [] == PollStarts(s.hist.log);
    } else {
      OneTurn(s, q);
      SelfWakingUnfold(q);
      PollsUnfold(q);
      RunConcat(s, TurnEvents(q[0]), SelfWaking(AfterTurn(q)));
      SelfWakingRun(Run(s, TurnEvents(q[0])), AfterTurn(q));
    }
  }

  lemma {:induction false} OneTurn(s: State, q: seq<Task>)
    requires Mirrors(s, q) && q != []
    ensures var s' := Run(s, TurnEvents(q[0]));
      Mirrors(s', AfterTurn(q)) && PollStarts(s'.hist.log) == PollStarts(s.hist.log) + [q[0].id]
  {
    hide Mirrors, Run, Step, AfterTurn, PollStarts;
    StartsGrow(s.hist.log, q[0].id);
    if q[0].pendings > 0 {
      PendingTurn(s, q);
    } else {
      ReadyTurn(s, q);
    }
  }

  lemma {:induction false} NothingToRun()
    ensures SelfWaking([]) == [] && Polls([]) == []
  {
  }

  lemma {:induction false} SelfWakingUnfold(q: seq<Task>)
    requires q != []
    ensures SelfWaking(q) == TurnEvents(q[0]) + SelfWaking(AfterTurn(q))
  {
  }

  // Executor::spawn for each task of `q`, in order.
  ghost predicate Spawned(s: State, q: seq<Task>) {
    && s.panic.None? && s.pc.Boot?
    && s.taskQueue == Ids(q) && s.tasks == IdSet(q) && s.hist.log == []
  }

  lemma {:induction false} SpawnOne(s: State, q: seq<Task>)
    requires q != [] && |q| <= TASK_CAPACITY && DistinctIds(q)
    requires Spawned(s, q[..|q| - 1])
    ensures Spawned(Step(s, Spawn(q[|q| - 1].id)), q)
  {
    hide Step;
    var init, id := q[..|q| - 1], q[|q| - 1].id;
    assert Ids(q) == Ids(init) + [id];
    assert id !in Ids(init);
    StepSpawns(s, id);
    assert IdSet(q) == IdSet(init) + {id};
  }

  lemma {:induction false} SpawnAll(kb: TaskId, q: seq<Task>)
    requires |q| <= TASK_CAPACITY && DistinctIds(q)
    ensures Spawned(Reached(kb, Spawns(q)), q)
    decreases |q|
  {
    if q == [] {
    } else {
      var init := q[..|q| - 1];
      var last := Spawn(q[|q| - 1].id);
      SpawnAll(kb, init);
      SpawnOne(Reached(kb, Spawns(init)), q);
      hide Step, Spawned;
      assert Spawns(q) == Spawns(init) + [last];
      RunConcat(Init(kb), Spawns(init), [last]);
      var s := Reached(kb, Spawns(init));
      assert Run(s, [last]) == Run(Step(s, last), []);
    }
  }

  // -------- the futures decide --------

  // The machine together with its futures: how often each still returns Pending, and
  // whether the one being polled has woken itself.
  datatype Driven = Driven(s: State, left: map<TaskId, nat>, woken: bool)

  // One operation of the main context, as the future being polled decides it.
  function DriveStep(d: Driven): Driven {
    match d.s.pc
    case OtherPoll(id) =>
      if id !in d.left || d.left[id] == 0 then d.(s := Step(d.s, Main(ReturnReady)))
      else if !d.woken then d.(s := Step(d.s, Main(Wake(id))), woken := true)
      else Driven(Step(d.s, STEP), d.left[id := d.left[id] - 1], false)
    case _ => d.(s := Step(d.s, STEP))
  }

  function Drive(d: Driven, n: nat): Driven
    decreases n
  {
    if n == 0 then d else Drive(DriveStep(d), n - 1)
  }

  lemma {:induction false} DriveAdd(d: Driven, m: nat, n: nat)
    ensures Drive(d, m + n) == Drive(Drive(d, m), n)
    decreases m
  {
    if m == 0 {
    } else {
      DriveAdd(DriveStep(d), m - 1, n);
    }
  }

  ghost predicate Counts(left: map<TaskId, nat>, q: seq<Task>) {
    forall i :: 0 <= i < |q| ==> q[i].id in left && left[q[i].id] == q[i].pendings
  }

  lemma {:induction false} CountsAfterTurn(left: map<TaskId, nat>, q: seq<Task>)
    requires q != [] && DistinctIds(q) && Counts(left, q)
    ensures Counts(if q[0].pendings == 0 then left else left[q[0].id := q[0].pendings - 1], AfterTurn(q))
  {
    var next := AfterTurn(q);
    assert forall i :: 0 <= i < |q| - 1 ==> next[i] == q[i + 1];
  }

  // In one turn the futures produce exactly the events of that turn.
  lemma {:induction false} DriveTurn(d: Driven, q: seq<Task>)
    requires Mirrors(d.s, q) && q != [] && Counts(d.left, q) && !d.woken
    ensures var d' := Drive(d, |TurnEvents(q[0])|);
      d'.s == Run(d.s, TurnEvents(q[0])) && Counts(d'.left, AfterTurn(q)) && !d'.woken
  {
    hide Step, Run, AfterTurn;
    var id := q[0].id;
    var s1 := Step(d.s, STEP);
    var s2 := Step(s1, STEP);
    StepSchedules(d.s);
    EnterPoll(d.s, q);
    CountsAfterTurn(d.left, q);
    assert s1.pc == Popped(id);
    if q[0].pendings == 0 {
      assert TurnEvents(q[0]) == [STEP, STEP, Main(ReturnReady)];
      RunThree(d.s, STEP, STEP, Main(ReturnReady));
      DriveThree(d);
    } else {
      assert TurnEvents(q[0]) == [STEP, STEP, Main(Wake(id)), STEP];
      RunFour(d.s, STEP, STEP, Main(Wake(id)), STEP);
      StepPollsOther(s2, Wake(id));
      DriveThree(d);
      DriveAdd(d, 3, 1);
      assert Drive(Drive(d, 3), 1) == DriveStep(Drive(d, 3));
    }
  }

  lemma {:induction false} DriveThree(d: Driven)
    ensures Drive(d, 3) == DriveStep(DriveStep(DriveStep(d)))
  {
    var d1 := DriveStep(d);
    assert Drive(d1, 2) == Drive(DriveStep(d1), 1);
  }

  lemma {:induction false} DriveIsSelfWaking(d: Driven, q: seq<Task>)
    requires Mirrors(d.s, q) && Counts(d.left, q) && !d.woken
    ensures Drive(d, |SelfWaking(q)|).s == Run(d.s, SelfWaking(q))
    decreases Remaining(q)
  {
    hide Mirrors, Counts, SelfWaking, Step, AfterTurn, Remaining, TurnEvents, DriveStep;
    if q == [] {
      NothingToRun();
    } else {
      var turn, rest := TurnEvents(q[0]), SelfWaking(AfterTurn(q));
      SelfWakingUnfold(q);
      OneTurn(d.s, q);
      DriveTurn(d, q);
      DriveAdd(d, |turn|, |rest|);
      RunConcat(d.s, turn, rest);
      DriveIsSelfWaking(Drive(d, |turn|), AfterTurn(q));
    }
  }

  function Pendings(q: seq<Task>): map<TaskId, nat> {
    if q == [] then map[] else Pendings(q[1..])[q[0].id := q[0].pendings]
  }

  lemma {:induction false} PendingsCount(q: seq<Task>)
    requires DistinctIds(q)
    ensures Counts(Pendings(q), q)
  {
    if q == [] {
    } else {
      PendingsCount(q[1..]);
      assert forall i :: 1 <= i < |q| ==> q[i] == q[1..][i - 1];
    }
  }

  // When no interrupt lands, the exact count. Up to 100 tasks that wake themselves once per
  // Pending and never on Ready: started by
  // run(), the waker-based executor polls the ids that SimpleExecutor::run polls, in the
  // same order, fills no queue, and is done after the sum of the tasks' polls.
  lemma {:induction false} AgreeWithoutInterrupts(kb: TaskId, q: seq<Task>)
    requires |q| <= 100 && DistinctIds(q) && kb !in Ids(q)
    ensures var run := Driven(Reached(kb, Spawns(q) + [StartRun]), Pendings(q), false);
      var s := Drive(run, |SelfWaking(q)|).s;
      && PollStarts(s.hist.log) == Polls(q) == RoundRobin(q)
      && |PollStarts(s.hist.log)| == Remaining(q)
      && s.panic.None? && s.pc.LoopHead? && s.taskQueue == [] && s.tasks == {}
  {
    StartMirrors(kb, q);
    var boot := Reached(kb, Spawns(q));
    var s := Step(boot, StartRun);
    RunConcat(Init(kb), Spawns(q), [StartRun]);
    assert Run(boot, [StartRun]) == Run(s, []);
    PendingsCount(q);
    DriveIsSelfWaking(Driven(s, Pendings(q), false), q);
    SelfWakingRun(s, q);
    SimpleIsRoundRobin(q);
    PollsCount(q);
    assert PollStarts([]) + Polls(q) == Polls(q);
  }

  lemma {:induction false} StartMirrors(kb: TaskId, q: seq<Task>)
    requires |q| <= TASK_CAPACITY && DistinctIds(q) && kb !in Ids(q)
    ensures Mirrors(Step(Reached(kb, Spawns(q)), StartRun), q)
    ensures Step(Reached(kb, Spawns(q)), StartRun).hist.log == []
  {
    SpawnAll(kb, q);
    ReachedInv(kb, Spawns(q));
    hide Reached, Spawns;
  }
}
