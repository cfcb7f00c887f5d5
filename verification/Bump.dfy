/**
 The bump allocator: linear allocation, a counter of live blocks, and a reset when the
 counter drops to zero.
 */
module Bump {
  import opened Alignment
  import opened Regions
  import opened AllocatorSpec

  // The fields of BumpAllocator; `allocations` is the number of live blocks.
  datatype State = State(heapStart: nat, heapEnd: nat, next: nat, live: seq<Grant>)

  datatype Answer = Pointer(ptr: nat) | Null

  function Abs(s: State): Memory
    requires s.heapStart <= s.heapEnd
  {
    Memory(s.heapStart, s.heapEnd - s.heapStart, s.live)
  }

  // Live blocks are safe and lie below `next`.
  ghost predicate Valid(s: State) {
    && s.heapStart <= s.next <= s.heapEnd <= ADDRESS_LIMIT
    && Safe(Abs(s))
    && (forall i :: 0 <= i < |s.live| ==> s.live[i].Bytes().End() <= s.next)
    && (s.live == [] ==> s.next == s.heapStart)
  }

  function Init(heapStart: nat, heapSize: nat): State {
    State(heapStart, heapStart + heapSize, heapStart, [])
  }

  function Alloc(s: State, l: Layout): (State, Answer)
    requires l.align >= 1 && s.next + l.align - 1 < USIZE
  {
    var allocStart := AlignUp(s.next, l.align);
    var allocEnd := allocStart + l.size;
    if allocEnd >= USIZE || allocEnd > s.heapEnd then (s, Null)
    else (s.(next := allocEnd, live := s.live + [Grant(allocStart, l)]), Pointer(allocStart))
  }

  function Dealloc(s: State, i: nat): State
    requires i < |s.live|
  {
    s.(live := Without(s.live, i), next := if |s.live| == 1 then s.heapStart else s.next)
  }

  lemma {:induction false} AlignFits(s: State, l: Layout)
    requires Valid(s) && ValidLayout(l)
    ensures l.align >= 1 && s.next + l.align - 1 < USIZE
  {
    AlignIsBounded(l.align);
  }

  // alloc answers with the first aligned address not below `next` and moves `next` to the
  // end of the block; it answers null exactly when no aligned block fits behind `next`.
  lemma {:induction false} AllocFailsExactly(s: State, l: Layout)
    requires Valid(s) && ValidLayout(l)
    ensures l.align >= 1 && s.next + l.align - 1 < USIZE
    ensures match Alloc(s, l).1
      case Null => Alloc(s, l).0 == s && forall p: nat :: s.next <= p && p % l.align == 0 ==> p + l.size > s.heapEnd
      case Pointer(ptr) =>
        && Alloc(s, l).0 == s.(next := ptr + l.size, live := s.live + [Grant(ptr, l)])
        && s.next <= ptr && ptr % l.align == 0 && ptr + l.size <= s.heapEnd
        && forall p: nat :: s.next <= p && p % l.align == 0 ==> ptr <= p
  {
    AlignFits(s, l);
    AlignUpIsLeast(s.next, l.align);
    hide AlignUp;
  }

  // alloc hands out memory nobody has, where the layout wants it.
  lemma {:induction false} AllocRefines(s: State, l: Layout)
    requires Valid(s) && ValidLayout(l)
    ensures l.align >= 1 && s.next + l.align - 1 < USIZE
    ensures var (s', answer) := Alloc(s, l);
      && Valid(s')
      && Allowed(Abs(s), if answer.Pointer? then Allocated(l, answer.ptr) else Refused(l), Abs(s'))
  {
    AlignFits(s, l);
    AlignUpIsLeast(s.next, l.align);
    var (s', answer) := Alloc(s, l);
    if answer.Pointer? {
      forall i | 0 <= i < |s.live|
        ensures Disjoint(s.live[i].Bytes(), Grant(answer.ptr, l).Bytes())
      {
        assert s.live[i].Bytes().End() <= s.next;
      }
      AllowedKeepsSafe(Abs(s), Allocated(l, answer.ptr), Abs(s'));
    }
  }

  lemma {:induction false} DeallocRefines(s: State, i: nat)
    requires Valid(s) && i < |s.live|
    ensures Valid(Dealloc(s, i))
    ensures Allowed(Abs(s), Freed(i), Abs(Dealloc(s, i)))
  {
    var s' := Dealloc(s, i);
    AllowedKeepsSafe(Abs(s), Freed(i), Abs(s'));
    assert forall k :: 0 <= k < |s'.live| ==> s'.live[k] == s.live[if k < i then k else k + 1];
  }

  function Step(s: State, op: Op): State
    requires Valid(s) && OpOk(op)
  {
    match op
    case AllocOp(l) => AlignFits(s, l); Alloc(s, l).0
    case FreeOp(i) => if i < |s.live| then Dealloc(s, i) else s
  }

  // Each call keeps the blocks safe, and `next` moves back only when none is live.
  lemma {:induction false} StepKeepsValid(s: State, op: Op)
    requires Valid(s) && OpOk(op)
    ensures Valid(Step(s, op))
    ensures Step(s, op).next < s.next ==> Step(s, op).live == []
  {
    match op
    case AllocOp(l) =>
      AllocRefines(s, l);
      AlignUpIsLeast(s.next, l.align);
    case FreeOp(i) =>
      if i < |s.live| {
        DeallocRefines(s, i);
      }
  }

  function Run(s: State, ops: seq<Op>): (s': State)
    requires Valid(s) && forall i :: 0 <= i < |ops| ==> OpOk(ops[i])
    ensures Valid(s')
    decreases |ops|
  {
    if ops == [] then s
    else
      StepKeepsValid(s, ops[0]);
      Run(Step(s, ops[0]), ops[1..])
  }

  // Whatever the clients do, live blocks are disjoint, aligned and inside the heap.
  lemma {:induction false} BumpStaysSafe(heapStart: nat, heapSize: nat, ops: seq<Op>)
    requires heapStart + heapSize <= ADDRESS_LIMIT
    requires forall i :: 0 <= i < |ops| ==> OpOk(ops[i])
    ensures Valid(Init(heapStart, heapSize))
    ensures var s := Run(Init(heapStart, heapSize), ops);
      && Safe(Memory(heapStart, heapSize, s.live))
      && (s.live == [] ==> s.next == heapStart)
  {
    RunKeepsBounds(Init(heapStart, heapSize), ops);
  }

  // Frees give nothing back until the last one, which gives back everything.
  lemma {:induction false} FreesKeepNext(s: State, frees: seq<Op>)
    requires Valid(s) && s.live != []
    requires forall i :: 0 <= i < |frees| ==> frees[i].FreeOp?
    ensures var s' := Run(s, frees); s'.next == if s'.live == [] then s.heapStart else s.next
    decreases |frees|
  {
    if frees == [] {
    } else {
      var s1 := Step(s, frees[0]);
      StepKeepsValid(s, frees[0]);
      if s1.live == [] {
        FreesOfNothing(s1, frees[1..]);
      } else {
        FreesKeepNext(s1, frees[1..]);
      }
    }
  }

  lemma {:induction false} FreesOfNothing(s: State, frees: seq<Op>)
    requires Valid(s) && s.live == []
    requires forall i :: 0 <= i < |frees| ==> frees[i].FreeOp?
    ensures Run(s, frees) == s
    decreases |frees|
  {
    if frees == [] {
    } else {
      FreesOfNothing(s, frees[1..]);
    }
  }

  // A fresh heap serves a request exactly when an aligned block fits between its bounds.
  lemma {:induction false} FreshHeapIsWhole(heapStart: nat, heapSize: nat, l: Layout)
    requires heapStart + heapSize <= ADDRESS_LIMIT && ValidLayout(l)
    ensures l.align >= 1 && heapStart + l.align - 1 < USIZE
    ensures Alloc(Init(heapStart, heapSize), l).1.Pointer? <==>
            exists p: nat :: heapStart <= p && p % l.align == 0 && p + l.size <= heapStart + heapSize
  {
    AllocFailsExactly(Init(heapStart, heapSize), l);
    hide Alloc;
  }

  lemma {:induction false} RunKeepsBounds(s: State, ops: seq<Op>)
    requires Valid(s) && forall i :: 0 <= i < |ops| ==> OpOk(ops[i])
    ensures Run(s, ops).heapStart == s.heapStart && Run(s, ops).heapEnd == s.heapEnd
    decreases |ops|
  {
    if ops == [] {
    } else {
      StepKeepsValid(s, ops[0]);
      RunKeepsBounds(Step(s, ops[0]), ops[1..]);
    }
  }

  class BumpAllocator {
    var heapStart: nat
    var heapEnd: nat
    var next: nat
    var allocations: nat
    ghost var live: seq<Grant>

    ghost function View(): State
      reads this
    {
      State(heapStart, heapEnd, next, live)
    }

    ghost predicate Inv()
      reads this
    {
      Valid(View()) && allocations == |live|
    }

    // new() and init()
    constructor (heapStart: nat, heapSize: nat)
      requires heapStart + heapSize <= ADDRESS_LIMIT
      ensures Inv() && View() == Init(heapStart, heapSize)
    {
      this.heapStart, this.heapEnd, this.next := heapStart, heapStart + heapSize, heapStart;
      allocations, live := 0, [];
    }

    method AllocBlock(layout: Layout) returns (answer: Answer)
      requires Inv() && ValidLayout(layout)
      modifies this`next, this`allocations, this`live
      ensures Inv() && layout.align >= 1 && old(next) + layout.align - 1 < USIZE
      ensures (View(), answer) == Alloc(old(View()), layout)
    {
      AllocRefines(View(), layout);
      var allocStart := AlignUp(next, layout.align);
      var allocEnd := allocStart + layout.size;
      if allocEnd >= USIZE {
        return Null;  // checked_add
      }
      if allocEnd > heapEnd {
        return Null;
      }
      next := allocEnd;
      allocations := allocations + 1;
      live := live + [Grant(allocStart, layout)];
      return Pointer(allocStart);
    }

    // The arguments of dealloc are ignored; `i` names the live block that is freed.
    method DeallocBlock(ghost i: nat)
      requires Inv() && i < |live|
      modifies this`next, this`allocations, this`live
      ensures Inv() && View() == Dealloc(old(View()), i)
    {
      DeallocRefines(View(), i);
      allocations := allocations - 1;
      if allocations == 0 {
        next := heapStart;
      }
      live := Without(live, i);
    }
  }

  // -------- memory comes back only when nothing is live --------

  // One turn of a loop that allocates and frees while block 0 stays alive.
  function Turn(s: State, l: Layout): (State, bool)
    requires l.align >= 1 && s.next + l.align - 1 < USIZE && |s.live| == 1
  {
    var (s1, answer) := Alloc(s, l);
    if answer.Null? then (s, false) else (Dealloc(s1, 1), true)
  }

  lemma {:induction false} TurnMovesOn(s: State, l: Layout)
    requires Valid(s) && ValidLayout(l) && |s.live| == 1 && l.size % l.align == 0
    ensures l.align >= 1 && s.next + l.align - 1 < USIZE
    ensures var start := AlignUp(s.next, l.align);
      var (s', ok) := Turn(s, l);
      && Valid(s') && s'.live == s.live && s'.heapEnd == s.heapEnd && s'.heapStart == s.heapStart
      && (ok <==> start + l.size <= s.heapEnd)
      && (ok ==> s'.next == start + l.size && s'.next % l.align == 0)
      && (!ok ==> s' == s)
  {
    AllocRefines(s, l);
    AlignUpIsLeast(s.next, l.align);
    var (s1, answer) := Alloc(s, l);
    if answer.Pointer? {
      DeallocRefines(s1, 1);
      assert Without(s1.live, 1) == s.live;
      SumOfMultiples(answer.ptr, l.size, l.align);
    }
  }

  lemma {:induction false} SumOfMultiples(x: nat, y: nat, m: nat)
    requires m >= 1 && x % m == 0 && y % m == 0
    ensures (x + y) % m == 0
  {
    assert x + y == m * (x / m + y / m);
    ModUnique(x + y, m, x / m + y / m, 0);
  }

  // Whether n turns in a row all succeed.
  function Turns(s: State, l: Layout, n: nat): bool
    requires Valid(s) && ValidLayout(l) && |s.live| == 1 && l.size % l.align == 0
    decreases n
  {
    n == 0 ||
    (TurnMovesOn(s, l);
     var (s', ok) := Turn(s, l);
     ok && Turns(s', l, n - 1))
  }

  lemma {:induction false} OneMore(n: nat, size: nat)
    requires n > 0
    ensures n * size == size + (n - 1) * size && (n - 1) * size >= 0
  {
  }

  // With one long-lived block, n turns succeed exactly when n blocks fit behind it one
  // after the other: nothing that the loop frees is ever reused.
  lemma {:induction false} LongLivedBlockStopsReuse(s: State, l: Layout, n: nat)
    requires Valid(s) && ValidLayout(l) && |s.live| == 1 && l.size % l.align == 0
    ensures l.align >= 1 && s.next + l.align - 1 < USIZE
    ensures Turns(s, l, n) <==> n == 0 || AlignUp(s.next, l.align) + n * l.size <= s.heapEnd
    decreases n
  {
    hide Turn, Valid, AlignUp;
    TurnMovesOn(s, l);
    if n == 0 {
    } else {
      var (s', ok) := Turn(s, l);
      OneMore(n, l.size);
      if ok {
        LongLivedBlockStopsReuse(s', l, n - 1);
        AlignUpIsLeast(s'.next, l.align);
      }
    }
  }

  // many_boxes_long_lived with HEAP_SIZE turns of Box<usize> behind a Box<i32>: it fails.
  lemma {:induction false} ManyBoxesLongLivedFails()
    ensures ValidLayout(Layout(8, 8))
    ensures var s := State(HEAP_START, HEAP_START + HEAP_SIZE, HEAP_START + 4,
                           [Grant(HEAP_START, Layout(4, 4))]);
      Valid(s) && !Turns(s, Layout(8, 8), HEAP_SIZE)
  {
    assert IsPow2(8) by { assert Pow2(3) == 8; }
    assert IsPow2(4) by { assert Pow2(2) == 4; }
    var s := State(HEAP_START, HEAP_START + HEAP_SIZE, HEAP_START + 4,
                   [Grant(HEAP_START, Layout(4, 4))]);
    assert WellPlaced(Abs(s), s.live[0]);
    hide Turns, AlignUp, Pow2;
    AlignUpIsLeast(s.next, 8);
    LongLivedBlockStopsReuse(s, Layout(8, 8), HEAP_SIZE);
  }
}
