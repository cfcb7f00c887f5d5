/**
 What the events of a run owe to the hardware and to the futures: which interrupts they
 are, and which wakes and results of polls.
 */
module KernelTrace {
  import opened Options
  import opened WakeupMachine

  datatype Irq = KeyIrq(code: Scancode) | TimerIrq

  // One poll of a future other than print_keypresses: the ids it wakes (its own or those
  // of other such futures) and whether it is done afterwards.
  datatype Turn = Turn(wakes: seq<TaskId>, ready: bool)

  function IrqEvent(i: Irq): Event {
    match i
    case KeyIrq(code) => Keypress(code)
    case TimerIrq => Timer
  }

  // -------- interrupts --------

  predicate IsIrq(e: Event) {
    e.Keypress? || e.Timer?
  }

  // The interrupts among the events.
  function Irqs(trace: seq<Event>): seq<Event> {
    if trace == [] then []
    else
      var last := trace[|trace| - 1];
      Irqs(trace[..|trace| - 1]) + if IsIrq(last) then [last] else []
  }

  function EventsOf(batch: seq<Irq>): (r: seq<Event>)
    ensures |r| == |batch| && forall i :: 0 <= i < |batch| ==> r[i] == IrqEvent(batch[i])
  {
    seq(|batch|, i requires 0 <= i < |batch| => IrqEvent(batch[i]))
  }

  // All interrupts of these batches, one after the other.
  function Arrived(batches: seq<seq<Irq>>): seq<Event> {
    if batches == [] then [] else Arrived(batches[..|batches| - 1]) + EventsOf(batches[|batches| - 1])
  }

  lemma {:induction false} IrqsPush(trace: seq<Event>, e: Event)
    ensures Irqs(trace + [e]) == Irqs(trace) + if IsIrq(e) then [e] else []
  {
    assert (trace + [e])[..|trace|] == trace;
  }

  lemma {:induction false} IrqsConcat(a: seq<Event>, b: seq<Event>)
    ensures Irqs(a + b) == Irqs(a) + Irqs(b)
    decreases |b|
  {
    if b == [] {
      assert a + b == a;
    } else {
      var n := |b| - 1;
      assert a + b == (a + b[..n]) + [b[n]] && b == b[..n] + [b[n]];
      IrqsConcat(a, b[..n]);
      IrqsPush(a + b[..n], b[n]);
      IrqsPush(b[..n], b[n]);
    }
  }

  lemma {:induction false} IrqsOfBatch(batch: seq<Irq>)
    ensures Irqs(EventsOf(batch)) == EventsOf(batch)
  {
    if batch == [] {
    } else {
      var n := |batch| - 1;
      assert EventsOf(batch) == EventsOf(batch[..n]) + [IrqEvent(batch[n])];
      IrqsOfBatch(batch[..n]);
      IrqsPush(EventsOf(batch[..n]), IrqEvent(batch[n]));
    }
  }

  lemma {:induction false} ArrivedPush(batches: seq<seq<Irq>>, batch: seq<Irq>)
    ensures Arrived(batches + [batch]) == Arrived(batches) + EventsOf(batch)
  {
    assert (batches + [batch])[..|batches|] == batches;
  }

  lemma {:induction false} ArrivedConcat(a: seq<seq<Irq>>, b: seq<seq<Irq>>)
    ensures Arrived(a + b) == Arrived(a) + Arrived(b)
    decreases |b|
  {
    if b == [] {
      assert a + b == a;
    } else {
      var n := |b| - 1;
      assert a + b == (a + b[..n]) + [b[n]] && b == b[..n] + [b[n]];
      ArrivedConcat(a, b[..n]);
      ArrivedPush(a + b[..n], b[n]);
      ArrivedPush(b[..n], b[n]);
    }
  }

  // Of the batches in `before`, those no longer in `after` are the interrupts among
  // `events`, all of them unless the run panicked.
  ghost predicate Took(before: seq<seq<Irq>>, after: seq<seq<Irq>>, events: seq<Event>, panicked: bool) {
    && |after| <= |before| && after == before[|before| - |after|..]
    && Irqs(events) <= Arrived(before[..|before| - |after|])
    && (!panicked ==> Irqs(events) == Arrived(before[..|before| - |after|]))
  }

  // The handlers of a batch ran one after the other, up to the one that panicked.
  ghost predicate Handled(batch: seq<Irq>, before: seq<Event>, after: seq<Event>, panicked: bool) {
    && before <= after <= before + EventsOf(batch)
    && (!panicked ==> after == before + EventsOf(batch))
  }

  lemma {:induction false} TookNothing(supply: seq<seq<Irq>>, device: seq<seq<Irq>>, events: seq<Event>, e: Event,
                                       panicked: bool)
    requires Took(supply, device, events, false) && !IsIrq(e)
    ensures Took(supply, device, events + [e], panicked)
  {
    IrqsPush(events, e);
    assert Irqs(events) + [] == Irqs(events);
  }

  // A batch, or a beginning of it that ends with a panic.
  lemma {:induction false} TookBatch(supply: seq<seq<Irq>>, device: seq<seq<Irq>>, events: seq<Event>,
                                     n: nat, panicked: bool)
    requires Took(supply, device, events, false) && device != [] && n <= |device[0]|
    requires !panicked ==> n == |device[0]|
    ensures Took(supply, device[1..], events + EventsOf(device[0][..n]), panicked)
  {
    hide Irqs, Arrived;
    var batch, k := device[0], |supply| - |device|;
    IrqsConcat(events, EventsOf(batch[..n]));
    IrqsOfBatch(batch[..n]);
    assert supply[k] == batch && supply[..k + 1] == supply[..k] + [batch];
    assert EventsOf(batch[..n]) == EventsOf(batch)[..n];
    assert n == |batch| ==> EventsOf(batch)[..n] == EventsOf(batch);
    ArrivedPush(supply[..k], batch);
    assert device[1..] == supply[k + 1..];
  }

  // What came between two points of a run.
  lemma {:induction false} TookBetween(supply: seq<seq<Irq>>, device: seq<seq<Irq>>, device': seq<seq<Irq>>,
                                       trace: seq<Event>, trace': seq<Event>, panicked: bool)
    requires Took(supply, device, trace, false) && Took(supply, device', trace', panicked)
    requires trace <= trace' && |device'| <= |device|
    ensures Took(device, device', trace'[|trace|..], panicked)
  {
    var more := trace'[|trace|..];
    var k, k' := |supply| - |device|, |supply| - |device'|;
    assert trace' == trace + more;
    IrqsConcat(trace, more);
    assert device[..k' - k] == supply[k..k'] && supply[..k'] == supply[..k] + supply[k..k'];
    ArrivedConcat(supply[..k], supply[k..k']);
    var a, b, c := Irqs(trace), Irqs(more), Arrived(supply[k..k']);
    assert (a + b)[|a|..] == b && (a + c)[|a|..] == c;
  }

  // -------- futures --------

  // Poll number k of a future. One whose list of polls is used up returns Ready.
  function TurnAt(script: seq<Turn>, k: nat): Turn {
    if k < |script| then script[k] else Turn([], true)
  }

  // The number of polls that return Pending.
  function Pendings(script: seq<Turn>): (n: nat)
    ensures TurnAt(script, n).ready && n <= |script|
    ensures forall k: nat :: k < n ==> !TurnAt(script, k).ready
  {
    if script == [] || script[0].ready then 0
    else
      var n := 1 + Pendings(script[1..]);
      assert forall k: nat :: 0 < k <= n ==> TurnAt(script, k) == TurnAt(script[1..], k - 1);
      n
  }

  // How often a future was polled.
  function Starts(log: seq<Entry>, id: TaskId): nat {
    if log == [] then 0
    else Starts(log[..|log| - 1], id) + if log[|log| - 1] == PollStart(id) then 1 else 0
  }

  lemma {:induction false} StartsPush(log: seq<Entry>, e: Entry, id: TaskId)
    ensures Starts(log + [e], id) == Starts(log, id) + if e == PollStart(id) then 1 else 0
  {
    assert (log + [e])[..|log|] == log;
  }

  // How often a poll of the future came back; one may be going on.
  ghost function Finished(log: seq<Entry>, id: TaskId, polling: Option<TaskId>): int {
    Starts(log, id) - if polling == Some(id) then 1 else 0
  }

  type Scripts = map<TaskId, seq<Turn>>

  // The future took its polls from its script: it came back Ready exactly when its polls
  // that return Pending are over, and then it is gone.
  ghost predicate Kept(script: seq<Turn>, tasks: Scripts, log: seq<Entry>, id: TaskId, n: int) {
    && 0 <= n <= Pendings(script) + 1
    && (PollReady(id) in log <==> n == Pendings(script) + 1)
    && (id in tasks <==> n <= Pendings(script))
    && (id in tasks ==> tasks[id] == script[n..])
  }

  ghost predicate Obeys(scripts: Scripts, tasks: Scripts, log: seq<Entry>, kb: TaskId, polling: Option<TaskId>) {
    && tasks.Keys <= scripts.Keys
    && (forall id :: id in scripts && id != kb ==> Kept(scripts[id], tasks, log, id, Finished(log, id, polling)))
    && (forall e :: e in log ==> e.id in scripts)
    && (polling.Some? ==> polling.value in tasks && polling.value != kb)
  }

  lemma {:induction false} ObeysSpawn(scripts: Scripts, tasks: Scripts, kb: TaskId, id: TaskId, turns: seq<Turn>)
    requires Obeys(scripts, tasks, [], kb, None) && id !in tasks
    ensures Obeys(scripts[id := turns], tasks[id := turns], [], kb, None)
  {
    assert turns[0..] == turns;
  }

  lemma {:induction false} ObeysBegin(scripts: Scripts, tasks: Scripts, log: seq<Entry>, kb: TaskId, id: TaskId)
    requires Obeys(scripts, tasks, log, kb, None) && id in tasks
    ensures Obeys(scripts, tasks, log + [PollStart(id)], kb, if id == kb then None else Some(id))
  {
    var log', polling := log + [PollStart(id)], if id == kb then None else Some(id);
    forall x | x in scripts && x != kb
      ensures Kept(scripts[x], tasks, log', x, Finished(log', x, polling))
    {
      StartsPush(log, PollStart(id), x);
    }
  }

  // The turn going on is the next one of the script.
  lemma {:induction false} NextTurn(scripts: Scripts, tasks: Scripts, log: seq<Entry>, kb: TaskId, id: TaskId)
    requires Obeys(scripts, tasks, log, kb, None) && id in tasks && id != kb
    ensures TurnAt(tasks[id], 0) == TurnAt(scripts[id], Starts(log, id))
  {
    assert Kept(scripts[id], tasks, log, id, Finished(log, id, None));
  }

  lemma {:induction false} ObeysReady(scripts: Scripts, tasks: Scripts, log: seq<Entry>, kb: TaskId, id: TaskId)
    requires Obeys(scripts, tasks, log, kb, Some(id)) && TurnAt(tasks[id], 0).ready
    ensures Obeys(scripts, tasks - {id}, log + [PollReady(id)], kb, None)
  {
    var log', tasks' := log + [PollReady(id)], tasks - {id};
    forall x | x in scripts && x != kb
      ensures Kept(scripts[x], tasks', log', x, Finished(log', x, None))
    {
      assert Kept(scripts[x], tasks, log, x, Finished(log, x, Some(id)));
      StartsPush(log, PollReady(id), x);
      if x == id {
        assert TurnAt(scripts[id], Finished(log, id, Some(id))).ready;
      }
    }
  }

  lemma {:induction false} ObeysPending(scripts: Scripts, tasks: Scripts, log: seq<Entry>, kb: TaskId, id: TaskId)
    requires Obeys(scripts, tasks, log, kb, Some(id)) && !TurnAt(tasks[id], 0).ready
    ensures tasks[id] != [] && Obeys(scripts, tasks[id := tasks[id][1..]], log, kb, None)
  {
    var tasks' := tasks[id := tasks[id][1..]];
    forall x | x in scripts && x != kb
      ensures Kept(scripts[x], tasks', log, x, Finished(log, x, None))
    {
      assert Kept(scripts[x], tasks, log, x, Finished(log, x, Some(id)));
      if x == id {
        var n := Finished(log, id, Some(id));
        assert !TurnAt(scripts[id], n).ready && tasks'[id] == scripts[id][n + 1..];
      }
    }
  }

  // -------- wakes --------

  // The ids woken by futures, in order.
  function WakesIn(trace: seq<Event>): seq<TaskId> {
    if trace == [] then []
    else
      var last := trace[|trace| - 1];
      WakesIn(trace[..|trace| - 1]) + if last.Main? && last.choice.Wake? then [last.choice.id] else []
  }

  lemma {:induction false} WakesPush(trace: seq<Event>, e: Event)
    ensures WakesIn(trace + [e]) == WakesIn(trace) + if e.Main? && e.choice.Wake? then [e.choice.id] else []
  {
    assert (trace + [e])[..|trace|] == trace;
  }

  lemma {:induction false} WakesConcat(a: seq<Event>, b: seq<Event>)
    ensures WakesIn(a + b) == WakesIn(a) + WakesIn(b)
    decreases |b|
  {
    if b == [] {
      assert a + b == a;
    } else {
      var n := |b| - 1;
      assert a + b == (a + b[..n]) + [b[n]] && b == b[..n] + [b[n]];
      WakesConcat(a, b[..n]);
      WakesPush(a + b[..n], b[n]);
      WakesPush(b[..n], b[n]);
    }
  }

  lemma {:induction false} WakesOfBatch(trace: seq<Event>, batch: seq<Irq>)
    ensures WakesIn(trace + EventsOf(batch)) == WakesIn(trace)
  {
    if batch == [] {
      assert trace + EventsOf(batch) == trace;
    } else {
      var n := |batch| - 1;
      assert trace + EventsOf(batch) == (trace + EventsOf(batch[..n])) + [IrqEvent(batch[n])];
      WakesOfBatch(trace, batch[..n]);
      WakesPush(trace + EventsOf(batch[..n]), IrqEvent(batch[n]));
    }
  }

  // The wakes that the scripts ask for in the polls of the log.
  function ScriptWakes(scripts: Scripts, log: seq<Entry>, kb: TaskId): seq<TaskId> {
    if log == [] then []
    else
      var init, last := log[..|log| - 1], log[|log| - 1];
      ScriptWakes(scripts, init, kb) +
      if last.PollStart? && last.id != kb && last.id in scripts
      then TurnAt(scripts[last.id], Starts(init, last.id)).wakes
      else []
  }

  lemma {:induction false} ScriptWakesPush(scripts: Scripts, log: seq<Entry>, kb: TaskId, e: Entry)
    ensures ScriptWakes(scripts, log + [e], kb) == ScriptWakes(scripts, log, kb) +
            if e.PollStart? && e.id != kb && e.id in scripts then TurnAt(scripts[e.id], Starts(log, e.id)).wakes else []
  {
    assert (log + [e])[..|log|] == log;
  }

  // The futures woke whom their scripts say, up to the poll that may be going on.
  ghost predicate Said(scripts: Scripts, log: seq<Entry>, kb: TaskId, trace: seq<Event>, polling: Option<TaskId>) {
    && WakesIn(trace) <= ScriptWakes(scripts, log, kb)
    && (polling.None? ==> WakesIn(trace) == ScriptWakes(scripts, log, kb))
  }

  lemma {:induction false} SaidNothing(scripts: Scripts, log: seq<Entry>, kb: TaskId, trace: seq<Event>, e: Event,
                                       polling: Option<TaskId>)
    requires Said(scripts, log, kb, trace, polling) && !(e.Main? && e.choice.Wake?)
    ensures Said(scripts, log, kb, trace + [e], polling) && WakesIn(trace + [e]) == WakesIn(trace)
  {
    WakesPush(trace, e);
    assert WakesIn(trace) + [] == WakesIn(trace);
  }

  // A poll begins: what it will say is the turn of its script.
  lemma {:induction false} SaidBegin(scripts: Scripts, tasks: Scripts, log: seq<Entry>, kb: TaskId,
                                     trace: seq<Event>, id: TaskId)
    requires Obeys(scripts, tasks, log, kb, None) && Said(scripts, log, kb, trace, None) && id in tasks
    ensures var log' := log + [PollStart(id)];
      && Said(scripts, log', kb, trace, if id == kb then None else Some(id))
      && (id != kb ==> ScriptWakes(scripts, log', kb) == WakesIn(trace) + TurnAt(tasks[id], 0).wakes)
  {
    ScriptWakesPush(scripts, log, kb, PollStart(id));
    assert ScriptWakes(scripts, log, kb) + [] == ScriptWakes(scripts, log, kb);
    if id != kb {
      NextTurn(scripts, tasks, log, kb, id);
    }
  }

  lemma {:induction false} SaidReady(scripts: Scripts, log: seq<Entry>, kb: TaskId, trace: seq<Event>, id: TaskId)
    requires WakesIn(trace) == ScriptWakes(scripts, log, kb)
    ensures Said(scripts, log + [PollReady(id)], kb, trace, None)
  {
    ScriptWakesPush(scripts, log, kb, PollReady(id));
    assert ScriptWakes(scripts, log, kb) + [] == ScriptWakes(scripts, log, kb);
  }
}
