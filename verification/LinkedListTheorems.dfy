/**
 What holds of the linked list allocator over every sequence of allocations and
 deallocations that respects the GlobalAlloc contract.
 */
module LinkedListTheorems {
  import opened Options
  import opened Alignment
  import opened Regions
  import opened AllocatorSpec
  import opened LinkedList

  function Step(h: Heap, op: Op): Heap
    requires Valid(h) && OpOk(op)
  {
    match op
    case AllocOp(l) => Alloc(h, l).0
    case FreeOp(i) => if i < |h.live| then Dealloc(h, i) else h
  }

  lemma {:induction false} StepKeepsValid(h: Heap, op: Op)
    requires Valid(h) && OpOk(op)
    ensures Valid(Step(h, op))
  {
    match op
    case AllocOp(l) => AllocKeepsValid(h, l);
    case FreeOp(i) =>
      if i < |h.live| {
        DeallocKeepsValid(h, i);
      }
  }

  function Run(h: Heap, ops: seq<Op>): (h': Heap)
    requires Valid(h) && forall i :: 0 <= i < |ops| ==> OpOk(ops[i])
    ensures Valid(h')
    decreases |ops|
  {
    if ops == [] then h
    else
      StepKeepsValid(h, ops[0]);
      Run(Step(h, ops[0]), ops[1..])
  }

  // -------- safety --------

  // Free regions and live blocks lie in the heap, apart from each other, and each can
  // carry a list node; each live block is what its layout asked for.
  ghost predicate Sound(h: Heap) {
    var live := LiveRegions(h.live);
    && (forall i, j :: 0 <= i < j < |h.free| ==> Disjoint(h.free[i], h.free[j]))
    && (forall i, j :: 0 <= i < j < |live| ==> Disjoint(live[i], live[j]))
    && (forall i, j :: 0 <= i < |h.free| && 0 <= j < |live| ==> Disjoint(h.free[i], live[j]))
    && (forall i :: 0 <= i < |h.free| ==> NodeFits(h, h.free[i]))
    && (forall i :: 0 <= i < |live| ==> NodeFits(h, live[i]))
    && (forall i :: 0 <= i < |live| ==> Serves(h.live[i]))
  }

  ghost predicate NodeFits(h: Heap, r: Region) {
    r.start % NODE_ALIGN == 0 && r.size >= NODE_SIZE && h.start <= r.start && r.End() <= h.start + h.size
  }

  ghost predicate Serves(b: Block) {
    && b.layout.align >= 1
    && b.region.start % b.layout.align == 0 && b.region.size >= b.layout.size
  }

  lemma {:induction false} LiveBlockServes(b: Block)
    requires LiveOk(b)
    ensures Serves(b) && FreeOk(b.region)
  {
    LiveIsFreeOk(b);
    SizeAlignIsWorkable(b.layout);
    DividesTransitive(b.region.start, SizeAlign(b.layout).value.align, b.layout.align);
  }

  lemma {:induction false} PiecesAreDisjoint(h: Heap, i: nat, j: nat)
    requires Valid(h)
    requires var all := h.free + LiveRegions(h.live); i < j < |all| && all[i].size > 0 && all[j].size > 0
    ensures var all := h.free + LiveRegions(h.live); Disjoint(all[i], all[j])
  {
    var all := h.free + LiveRegions(h.live);
    forall b: int
      ensures Covers(all, b) <= 1
    {
      SumConcat(h.free, LiveRegions(h.live), HitAt(b));
      assert Owners(h, b) <= 1;
    }
    CoveredOnceIsDisjoint(all, i, j);
  }

  lemma {:induction false} ValidIsSound(h: Heap)
    requires Valid(h)
    ensures Sound(h)
  {
    var live := LiveRegions(h.live);
    var n := |h.free|;
    forall i | 0 <= i < n
      ensures NodeFits(h, h.free[i])
    {
      assert FreeOk(h.free[i]);
      FreeInHeap(h, i);
    }
    forall i | 0 <= i < |live|
      ensures NodeFits(h, live[i]) && Serves(h.live[i])
    {
      LiveBlockServes(h.live[i]);
      LiveInHeap(h, i);
    }
    forall i, j | 0 <= i < j < n
      ensures Disjoint(h.free[i], h.free[j])
    {
      PiecesAreDisjoint(h, i, j);
    }
    forall i, j | 0 <= i < j < |live|
      ensures Disjoint(live[i], live[j])
    {
      PiecesAreDisjoint(h, n + i, n + j);
    }
    forall i, j | 0 <= i < n && 0 <= j < |live|
      ensures Disjoint(h.free[i], live[j])
    {
      PiecesAreDisjoint(h, i, n + j);
    }
  }

  // Every run from a fresh heap stays sound and loses no byte: free, live and abandoned
  // bytes add up to the heap, each byte in exactly one of them.
  lemma {:induction false} HeapStaysSound(start: nat, size: nat, ops: seq<Op>)
    requires 0 < start && start % NODE_ALIGN == 0 && size >= NODE_SIZE && start + size <= ADDRESS_LIMIT
    requires forall i :: 0 <= i < |ops| ==> OpOk(ops[i])
    ensures Valid(Init(start, size))
    ensures var h := Run(Init(start, size), ops);
      && Sound(h)
      && Total(h.free) + Total(LiveRegions(h.live)) + Total(h.gaps) == size
      && forall b: int :: Owners(h, b) == if start <= b < start + size then 1 else 0
  {
    InitIsValid(start, size);
    var h := Run(Init(start, size), ops);
    RunKeepsBounds(Init(start, size), ops);
    ValidIsSound(h);
    forall b: int
      ensures Owners(h, b) == if start <= b < start + size then 1 else 0
    {
    }
  }

  lemma {:induction false} RunKeepsBounds(h: Heap, ops: seq<Op>)
    requires Valid(h) && forall i :: 0 <= i < |ops| ==> OpOk(ops[i])
    ensures Run(h, ops).start == h.start && Run(h, ops).size == h.size
    decreases |ops|
  {
    if ops == [] {
    } else {
      StepKeepsValid(h, ops[0]);
      RunKeepsBounds(Step(h, ops[0]), ops[1..]);
    }
  }

  // -------- front gaps --------

  lemma {:induction false} GapsOnlyGrow(h: Heap, ops: seq<Op>)
    requires Valid(h) && forall i :: 0 <= i < |ops| ==> OpOk(ops[i])
    ensures h.gaps <= Run(h, ops).gaps
    decreases |ops|
  {
    if ops == [] {
    } else {
      StepKeepsValid(h, ops[0]);
      assert h.gaps <= Step(h, ops[0]).gaps;
      GapsOnlyGrow(Step(h, ops[0]), ops[1..]);
    }
  }

  // A request that needs no more than node alignment starts where its region starts.
  lemma {:induction false} SmallAlignLeavesNoGap(h: Heap, l: Layout)
    requires Valid(h) && ValidLayout(l) && l.align <= NODE_ALIGN
    ensures Alloc(h, l).0.gaps == h.gaps
  {
    if SizeAlign(l).Some? {
      var a := SizeAlign(l).value;
      ValidIsAddressable(h);
      SizeAlignIsWorkable(l);
      var i := FirstFit(h.free, a);
      if i < |h.free| {
        assert FreeOk(h.free[i]);
        AlignUpIsLeast(h.free[i].start, a.align);
      }
    }
  }

  // With alignments up to 8 only, free regions and live blocks tile the heap exactly.
  lemma {:induction false} SmallAlignsTile(h: Heap, ops: seq<Op>)
    requires Valid(h) && h.gaps == []
    requires forall i :: 0 <= i < |ops| ==> OpOk(ops[i])
    requires forall i :: 0 <= i < |ops| && ops[i].AllocOp? ==> ops[i].layout.align <= NODE_ALIGN
    ensures var h' := Run(h, ops);
      && h'.gaps == []
      && forall b: int ::
           Covers(h'.free, b) + Covers(LiveRegions(h'.live), b) == if h.start <= b < h.start + h.size then 1 else 0
    decreases |ops|
  {
    if ops == [] {
      forall b: int
        ensures Covers(h.free, b) + Covers(LiveRegions(h.live), b) == if h.start <= b < h.start + h.size then 1 else 0
      {
        assert Owners(h, b) == if h.start <= b < h.start + h.size then 1 else 0;
      }
    } else {
      StepKeepsValid(h, ops[0]);
      if ops[0].AllocOp? {
        SmallAlignLeavesNoGap(h, ops[0].layout);
      }
      SmallAlignsTile(Step(h, ops[0]), ops[1..]);
    }
  }

  // -------- first fit, and no coalescing --------

  // A block for `a` in region r: at the first aligned address, inside the region, with
  // nothing left over behind it or enough for a list node.
  ghost predicate Places(r: Region, a: Adjusted, ptr: nat)
    requires a.align >= 1
  {
    && r.start <= ptr && ptr % a.align == 0
    && (forall y: nat :: r.start <= y && y % a.align == 0 ==> ptr <= y)
    && ptr + a.size <= r.End()
    && (r.End() == ptr + a.size || r.End() >= ptr + a.size + NODE_SIZE)
  }

  // alloc_from_region finds that place exactly when there is one.
  lemma {:induction false} AllocFromRegionIs(r: Region, a: Adjusted, ptr: nat)
    requires Workable(a) && r.End() <= ADDRESS_LIMIT && r.start < ADDRESS_LIMIT
    ensures AllocFromRegion(r, a.size, a.align) == Some(ptr) <==> Places(r, a, ptr)
  {
    hide AlignUp, IsPow2;
    AlignUpIsLeast(r.start, a.align);
  }

  // Region r can serve the request.
  ghost predicate Suitable(r: Region, a: Adjusted)
    requires a.align >= 1
  {
    exists ptr: nat :: Places(r, a, ptr)
  }

  lemma {:induction false} SuitableIs(r: Region, a: Adjusted)
    requires Workable(a) && r.End() <= ADDRESS_LIMIT && r.start < ADDRESS_LIMIT
    ensures Suitable(r, a) <==> AllocFromRegion(r, a.size, a.align).Some?
  {
    hide AllocFromRegion, Places, IsPow2;
    if AllocFromRegion(r, a.size, a.align).Some? {
      AllocFromRegionIs(r, a, AllocFromRegion(r, a.size, a.align).value);
    }
    if Suitable(r, a) {
      var ptr: nat :| Places(r, a, ptr);
      AllocFromRegionIs(r, a, ptr);
    }
  }

  // alloc panics exactly when raising a small alignment to 8 pads the size beyond usize:
  // the expect of size_align fails, and no other check of alloc ever does.
  lemma {:induction false} PanicsExactly(h: Heap, l: Layout)
    requires Valid(h) && ValidLayout(l)
    ensures Alloc(h, l).1.Panic? <==> l.align < NODE_ALIGN && l.size > USIZE - NODE_ALIGN
  {
    hide Valid, AllocFromRegion;
    RoundUpIsLeast(l.size, NODE_ALIGN);
    if SizeAlign(l).Some? {
      AllocIsFirstFit(h, l);
    }
  }

  // Such layouts exist.
  lemma {:induction false} PanicHappens(h: Heap)
    requires Valid(h)
    ensures var l := Layout(USIZE - 4, 4); ValidLayout(l) && Alloc(h, l).1.Panic?
  {
    assert IsPow2(4) by { assert Pow2(2) == 4; }
    PanicsExactly(h, Layout(USIZE - 4, 4));
  }

  // The i-th region is the first suitable one and holds the block at `ptr`; it leaves the
  // list, what lies behind the block is put at the front, and what lies before it is lost.
  ghost predicate ServedBy(h: Heap, a: Adjusted, i: nat, ptr: nat, h': Heap)
    requires a.align >= 1
  {
    && i < |h.free| && Places(h.free[i], a, ptr)
    && (forall j :: 0 <= j < i ==> !Suitable(h.free[j], a))
    && (var end, rest := ptr + a.size, Without(h.free, i);
        h'.free == if end == h.free[i].End() then rest else [Region(end, h.free[i].End() - end)] + rest)
    && (var start := h.free[i].start;
        h'.gaps == if ptr == start then h.gaps else h.gaps + [Region(start, ptr - start)])
    && LiveRegions(h'.live) == LiveRegions(h.live) + [Region(ptr, a.size)]
  }

  // alloc takes the first suitable region out of the list, keeps the others in order, and
  // answers null exactly when no region is suitable.
  lemma {:induction false} AllocIsFirstFit(h: Heap, l: Layout)
    requires Valid(h) && ValidLayout(l) && SizeAlign(l).Some?
    ensures var a := SizeAlign(l).value;
      var (h', answer) := Alloc(h, l);
      match answer
      case Panic => false
      case Null => h' == h && forall j :: 0 <= j < |h.free| ==> !Suitable(h.free[j], a)
      case Pointer(ptr) => exists i :: ServedBy(h, a, i, ptr, h')
  {
    hide Valid, AllocFromRegion, Suitable, Places;
    var a := SizeAlign(l).value;
    ValidIsAddressable(h);
    SizeAlignIsWorkable(l);
    var i := FirstFit(h.free, a);
    forall j | 0 <= j < |h.free|
      ensures Suitable(h.free[j], a) <==> AllocFromRegion(h.free[j], a.size, a.align).Some?
    {
      RegionIsLow(h, j);
      SuitableIs(h.free[j], a);
    }
    if i < |h.free| {
      var (h', answer) := Alloc(h, l);
      RegionIsLow(h, i);
      AllocFromRegionIs(h.free[i], a, answer.ptr);
      SuitableRegion(h.free[i], a);
      LiveRegionsAppend(h.live, h'.live[|h.live|]);
      assert ServedBy(h, a, i, answer.ptr, h');
    }
  }

  lemma {:induction false} RegionIsLow(h: Heap, i: nat)
    requires Valid(h) && i < |h.free|
    ensures h.free[i].End() <= ADDRESS_LIMIT && h.free[i].start < ADDRESS_LIMIT
  {
    FreeInHeap(h, i);
    ValidIsAddressable(h);
  }

  ghost predicate AllBelow(h: Heap, n: nat) {
    && (forall i :: 0 <= i < |h.free| ==> h.free[i].size < n)
    && (forall i :: 0 <= i < |h.live| ==> h.live[i].region.size < n)
  }

  lemma {:induction false} StepKeepsAllBelow(h: Heap, op: Op, n: nat)
    requires Valid(h) && OpOk(op) && AllBelow(h, n)
    ensures AllBelow(Step(h, op), n)
  {
    hide Valid, AlignUp, AllocFromRegion;
    match op
    case FreeOp(i) =>
    case AllocOp(l) =>
      if SizeAlign(l).Some? {
        var a := SizeAlign(l).value;
        ValidIsAddressable(h);
        SizeAlignIsWorkable(l);
        var i := FirstFit(h.free, a);
        if i < |h.free| {
          SuitableRegion(h.free[i], a);
          var h' := Step(h, op);
          assert forall j :: 0 <= j < |h'.live| - 1 ==> h'.live[j] == h.live[j];
        }
      }
  }

  lemma {:induction false} RunKeepsAllBelow(h: Heap, ops: seq<Op>, n: nat)
    requires Valid(h) && AllBelow(h, n)
    requires forall i :: 0 <= i < |ops| ==> OpOk(ops[i])
    ensures AllBelow(Run(h, ops), n)
    decreases |ops|
  {
    if ops == [] {
    } else {
      StepKeepsValid(h, ops[0]);
      StepKeepsAllBelow(h, ops[0], n);
      RunKeepsAllBelow(Step(h, ops[0]), ops[1..], n);
    }
  }

  // Regions are never merged: a request larger than every free region and every live
  // block is refused now and after any further run.
  lemma {:induction false} RefusedForever(h: Heap, l: Layout, ops: seq<Op>)
    requires Valid(h) && ValidLayout(l) && SizeAlign(l).Some?
    requires AllBelow(h, SizeAlign(l).value.size)
    requires forall i :: 0 <= i < |ops| ==> OpOk(ops[i])
    ensures Alloc(Run(h, ops), l).1 == Null
  {
    var h' := Run(h, ops);
    RunKeepsAllBelow(h, ops, SizeAlign(l).value.size);
    var a := SizeAlign(l).value;
    ValidIsAddressable(h');
    SizeAlignIsWorkable(l);
    var i := FirstFit(h'.free, a);
    if i < |h'.free| {
      SuitableRegion(h'.free[i], a);
    }
  }

  // -------- free, then allocate --------

  // Freeing a block and asking for the same layout gives the same block back.
  lemma {:induction false} FreeThenAlloc(h: Heap, i: nat)
    requires Valid(h) && i < |h.live|
    ensures Valid(Dealloc(h, i)) && ValidLayout(h.live[i].layout)
    ensures var b := h.live[i];
      Alloc(Dealloc(h, i), b.layout) == (h.(live := Without(h.live, i) + [b]), Pointer(b.region.start))
  {
    var b := h.live[i];
    var h1 := Dealloc(h, i);
    assert LiveOk(b);
    DeallocKeepsValid(h, i);
    var a := SizeAlign(b.layout).value;
    SizeAlignIsWorkable(b.layout);
    ValidIsAddressable(h1);
    assert h1.free[0] == b.region;
    AlignUpIsLeast(b.region.start, a.align);
    assert AllocFromRegion(b.region, a.size, a.align) == Some(b.region.start);
    assert FirstFit(h1.free, a) == 0;
    assert Without(h1.free, 0) == h.free;
  }

  // The body of an alloc/free loop, started after a first successful allocation.
  function Cycles(l: Layout, last: nat, n: nat): (ops: seq<Op>)
    ensures ValidLayout(l) ==> forall i :: 0 <= i < |ops| ==> OpOk(ops[i])
  {
    if n == 0 then [] else [FreeOp(last), AllocOp(l)] + Cycles(l, last, n - 1)
  }

  lemma {:induction false} CycleIsIdentity(h: Heap)
    requires Valid(h) && |h.live| > 0
    ensures var last := |h.live| - 1;
      var h1 := Step(h, FreeOp(last));
      && ValidLayout(h.live[last].layout) && Valid(h1)
      && Step(h1, AllocOp(h.live[last].layout)) == h
  {
    hide Valid, ValidLayout, Alloc, Dealloc;
    var last := |h.live| - 1;
    FreeThenAlloc(h, last);
    assert Without(h.live, last) + [h.live[last]] == h.live;
  }

  // Once the first allocation succeeded, a loop that frees and allocates again succeeds
  // any number of times and leaves the allocator exactly as it was.
  lemma {:induction false} LoopsNeverRunOut(h: Heap, n: nat)
    requires Valid(h) && |h.live| > 0
    ensures ValidLayout(h.live[|h.live| - 1].layout)
    ensures var last := |h.live| - 1;
      Run(h, Cycles(h.live[last].layout, last, n)) == h
    decreases n
  {
    hide Step, Valid, ValidLayout;
    var last := |h.live| - 1;
    var l := h.live[last].layout;
    CycleIsIdentity(h);
    if n == 0 {
    } else {
      var ops, rest := Cycles(l, last, n), Cycles(l, last, n - 1);
      assert ops[0] == FreeOp(last) && ops[1..][0] == AllocOp(l) && ops[1..][1..] == rest;
      var h1 := Step(h, FreeOp(last));
      assert Run(h, ops) == Run(h1, ops[1..]);
      LoopsNeverRunOut(h, n - 1);
    }
  }

  // -------- refinement of the common specification --------

  function Abs(h: Heap): Memory {
    Memory(h.start, h.size,
           seq(|h.live|, i requires 0 <= i < |h.live| => Grant(h.live[i].region.start, h.live[i].layout)))
  }

  function CallOf(l: Layout, answer: Answer): Call {
    if answer.Pointer? then Allocated(l, answer.ptr) else Refused(l)
  }

  lemma {:induction false} AllocRefines(h: Heap, l: Layout)
    requires Valid(h) && ValidLayout(l)
    ensures Allowed(Abs(h), CallOf(l, Alloc(h, l).1), Abs(Alloc(h, l).0))
  {
    var (h', answer) := Alloc(h, l);
    AllocKeepsValid(h, l);
    ValidIsSound(h');
    if answer.Pointer? {
      var n := |h.live|;
      assert h'.live[n].layout == l && h'.live[n].region.start == answer.ptr && Serves(h'.live[n]);
      var live := LiveRegions(h'.live);
      assert NodeFits(h', live[n]);
      forall i | 0 <= i < n
        ensures Disjoint(Abs(h).live[i].Bytes(), Grant(answer.ptr, l).Bytes())
      {
        assert h'.live[i] == h.live[i] && Serves(h'.live[i]);
        assert Disjoint(live[i], live[n]);
      }
      assert Abs(h').live == Abs(h).live + [Grant(answer.ptr, l)];
    }
  }

  lemma {:induction false} DeallocRefines(h: Heap, i: nat)
    requires Valid(h) && i < |h.live|
    ensures Allowed(Abs(h), Freed(i), Abs(Dealloc(h, i)))
  {
  }
}
