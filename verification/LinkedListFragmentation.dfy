/**
 What the linked list allocator loses: bytes cut off in front of aligned blocks, and
 regions that are never joined again.
 */
module LinkedListFragmentation {
  import opened Options
  import opened Alignment
  import opened Regions
  import opened AllocatorSpec
  import opened LinkedList
  import opened LinkedListTheorems

  // -------- front gaps --------

  // alloc cuts bytes off exactly when the first suitable region does not start where the
  // layout may start.
  lemma {:induction false} GapExactly(h: Heap, l: Layout)
    requires Valid(h) && ValidLayout(l) && SizeAlign(l).Some?
    ensures var a := SizeAlign(l).value;
      && Workable(a) && Addressable(h.free)
      && var i := FirstFit(h.free, a);
      Alloc(h, l).0.gaps != h.gaps <==> i < |h.free| && h.free[i].start % a.align != 0
  {
    hide Valid, AlignUp;
    var a := SizeAlign(l).value;
    ValidIsAddressable(h);
    SizeAlignIsWorkable(l);
    var i := FirstFit(h.free, a);
    if i < |h.free| {
      AlignUpIsLeast(h.free[i].start, a.align);
    }
  }

  // This call cuts bytes off.
  ghost predicate Loses(h: Heap, op: Op)
    requires Valid(h) && OpOk(op)
  {
    && op.AllocOp? && SizeAlign(op.layout).Some?
    && var a := SizeAlign(op.layout).value;
    SizeAlignIsWorkable(op.layout);
    ValidIsAddressable(h);
    var i := FirstFit(h.free, a);
    i < |h.free| && h.free[i].start % a.align != 0
  }

  lemma {:induction false} StepLosesExactly(h: Heap, op: Op)
    requires Valid(h) && OpOk(op)
    ensures var gaps := Step(h, op).gaps;
      if Loses(h, op) then
        && |gaps| == |h.gaps| + 1 && h.gaps <= gaps && gaps[|h.gaps|].size > 0
      else
        gaps == h.gaps
  {
    hide Valid, AllocFromRegion, AlignUp;
    if op.AllocOp? && SizeAlign(op.layout).Some? {
      GapExactly(h, op.layout);
    }
  }

  // Some call of the run cuts bytes off.
  ghost predicate SomeLoses(h: Heap, ops: seq<Op>)
    requires Valid(h) && forall i :: 0 <= i < |ops| ==> OpOk(ops[i])
    decreases |ops|
  {
    ops != [] &&
    (Loses(h, ops[0]) || (StepKeepsValid(h, ops[0]); SomeLoses(Step(h, ops[0]), ops[1..])))
  }

  lemma {:induction false} RunLosesExactly(h: Heap, ops: seq<Op>)
    requires Valid(h) && forall i :: 0 <= i < |ops| ==> OpOk(ops[i])
    ensures var gaps := Run(h, ops).gaps;
      && h.gaps <= gaps
      && (gaps != h.gaps <==> SomeLoses(h, ops))
      && forall i :: |h.gaps| <= i < |gaps| ==> gaps[i].size > 0
    decreases |ops|
  {
    hide Valid, Step, Loses;
    if ops == [] {
    } else {
      StepKeepsValid(h, ops[0]);
      StepLosesExactly(h, ops[0]);
      RunLosesExactly(Step(h, ops[0]), ops[1..]);
    }
  }

  // Free regions and live blocks still tile the heap after a run exactly when no call of
  // the run met a region that did not start where its layout may start.
  lemma {:induction false} TilesExactly(h: Heap, ops: seq<Op>)
    requires Valid(h) && h.gaps == []
    requires forall i :: 0 <= i < |ops| ==> OpOk(ops[i])
    ensures var h' := Run(h, ops);
      (forall b: int ::
         Covers(h'.free, b) + Covers(LiveRegions(h'.live), b) == if h.start <= b < h.start + h.size then 1 else 0)
      <==> !SomeLoses(h, ops)
  {
    var h' := Run(h, ops);
    RunLosesExactly(h, ops);
    RunKeepsBounds(h, ops);
    hide Run, SomeLoses;
    forall b: int
      ensures Covers(h'.free, b) + Covers(LiveRegions(h'.live), b) + Covers(h'.gaps, b)
              == if h.start <= b < h.start + h.size then 1 else 0
    {
      assert Owners(h', b) == if h'.start <= b < h'.start + h'.size then 1 else 0;
    }
    if h'.gaps != [] {
      var g := h'.gaps[0];
      SumAtLeast(h'.gaps, 0, HitAt(g.start));
      assert Covers(h'.gaps, g.start) > 0;
    }
  }

  // A byte that was cut off is never free or handed out again.
  lemma {:induction false} LostForever(h: Heap, ops: seq<Op>, b: int)
    requires Valid(h) && forall i :: 0 <= i < |ops| ==> OpOk(ops[i])
    requires Covers(h.gaps, b) > 0
    ensures var h' := Run(h, ops);
      Covers(h'.free, b) == 0 && Covers(LiveRegions(h'.live), b) == 0
  {
    var h' := Run(h, ops);
    GapsOnlyGrow(h, ops);
    hide Run;
    assert h'.gaps == h.gaps + h'.gaps[|h.gaps|..];
    SumConcat(h.gaps, h'.gaps[|h.gaps|..], HitAt(b));
    assert Owners(h', b) <= 1;
  }

  // alloc when the first region is suitable.
  lemma {:induction false} AllocFromFirst(h: Heap, l: Layout, ptr: nat)
    requires Valid(h) && ValidLayout(l) && SizeAlign(l).Some? && h.free != []
    requires SizeAlign(l).value.align >= 1 && Places(h.free[0], SizeAlign(l).value, ptr)
    ensures Alloc(h, l) == (Carve(h, 0, ptr, SizeAlign(l).value.size, l), Pointer(ptr))
  {
    hide Valid, AllocFromRegion, Places;
    var a := SizeAlign(l).value;
    SizeAlignIsWorkable(l);
    ValidIsAddressable(h);
    RegionIsLow(h, 0);
    AllocFromRegionIs(h.free[0], a, ptr);
    assert FirstFit(h.free, a) == 0;
  }

  lemma {:induction false} LayoutsExist()
    ensures ValidLayout(Layout(16, 8)) && ValidLayout(Layout(64, 64))
    ensures SizeAlign(Layout(16, 8)) == Some(Adjusted(16, 8))
    ensures SizeAlign(Layout(64, 64)) == Some(Adjusted(64, 64))
  {
    assert Pow2(3) == 8 && Pow2(6) == 64;
    assert IsPow2(8) && IsPow2(64);
  }

  lemma {:induction false} RunTwo(h: Heap, a: Op, b: Op)
    requires Valid(h) && OpOk(a) && OpOk(b)
    ensures Valid(Step(h, a)) && Run(h, [a, b]) == Step(Step(h, a), b)
  {
    hide Valid, OpOk, Step;
    StepKeepsValid(h, a);
    StepKeepsValid(Step(h, a), b);
    assert [a, b][1..] == [b] && [b][1..] == [];
    assert Run(Step(h, a), [b]) == Run(Step(Step(h, a), b), []);
  }

  // On the kernel's heap, 16 bytes and then 64 bytes aligned to 64 lose 48 bytes.
  lemma {:induction false} GapHappens()
    ensures Valid(Init(HEAP_START, HEAP_SIZE)) && ValidLayout(Layout(16, 8)) && ValidLayout(Layout(64, 64))
    ensures Run(Init(HEAP_START, HEAP_SIZE), [AllocOp(Layout(16, 8)), AllocOp(Layout(64, 64))]).gaps
            == [Region(HEAP_START + 16, 48)]
  {
    LayoutsExist();
    hide ValidLayout, SizeAlign, Alloc, Valid, Run;
    InitIsValid(HEAP_START, HEAP_SIZE);
    var h := Init(HEAP_START, HEAP_SIZE);
    AllocFromFirst(h, Layout(16, 8), HEAP_START);
    RunTwo(h, AllocOp(Layout(16, 8)), AllocOp(Layout(64, 64)));
    var h1 := Step(h, AllocOp(Layout(16, 8)));
    assert h1.free == [Region(HEAP_START + 16, HEAP_SIZE - 16)] && h1.gaps == [];
    AllocFromFirst(h1, Layout(64, 64), HEAP_START + 64);
  }

  // -------- what no run can serve any more --------

  // Eight bytes too long to be used as it is, but a request aligned to 16 cuts exactly
  // those off.
  ghost predicate Trimmable(r: Region, a: Adjusted) {
    a.align == NODE_ALIGN && r.start % 16 == 8 && r.size == a.size + 8 && a.size % 16 == 0
  }

  ghost predicate Promising(r: Region, a: Adjusted)
    requires a.align >= 1
  {
    Suitable(r, a) || Trimmable(r, a)
  }

  ghost predicate SomePromising(h: Heap, a: Adjusted)
    requires a.align >= 1
  {
    || (exists i :: 0 <= i < |h.free| && Promising(h.free[i], a))
    || (exists i :: 0 <= i < |h.live| && Promising(h.live[i].region, a))
  }

  // The first aligned address decides.
  lemma {:induction false} SuitableMeans(r: Region, a: Adjusted)
    requires a.align >= 1
    ensures var p := AlignUpByRemainder(r.start, a.align);
      && p % a.align == 0 && r.start <= p < r.start + a.align
      && (Suitable(r, a) <==> r.End() == p + a.size || r.End() >= p + a.size + NODE_SIZE)
  {
    RoundUpIsLeast(r.start, a.align);
    hide AlignUpByRemainder;
    var p := AlignUpByRemainder(r.start, a.align);
    if r.End() == p + a.size || r.End() >= p + a.size + NODE_SIZE {
      assert Places(r, a, p);
    }
    if Suitable(r, a) {
      var q: nat :| Places(r, a, q);
      assert p == q;
    }
  }

  // Aligned addresses less than 16 apart.
  lemma {:induction false} NearMultiples(p: nat, q: nat, align: nat)
    requires align >= 1 && align % 8 == 0 && p % align == 0 && q % align == 0 && p <= q < p + 16
    ensures q == p || (q == p + 8 && align == 8)
  {
    var m := q / align - p / align;
    assert q - p == align * m;
    MultipleBounds(align, m);
    MultipleBounds(align, m - 1);
    assert align * m == align * (m - 1) + align;
  }

  // An adjusted size is a multiple of an alignment above 8, so of 16.
  ghost predicate Padded(a: Adjusted) {
    Workable(a) && (a.align > NODE_ALIGN ==> a.align % 16 == 0 && a.size % 16 == 0)
  }

  lemma {:induction false} PaddedIsWorkable(a: Adjusted)
    requires Padded(a)
    ensures Workable(a) && a.align >= 1 && a.size >= NODE_SIZE
  {
  }

  lemma {:induction false} SizeAlignIsPadded(l: Layout)
    requires ValidLayout(l) && SizeAlign(l).Some?
    ensures Padded(SizeAlign(l).value)
  {
    SizeAlignIsWorkable(l);
    var a := SizeAlign(l).value;
    if a.align > NODE_ALIGN {
      assert Pow2(4) == 16 && Pow2(3) == 8;
      var k: nat :| a.align == Pow2(k);
      if k < 4 { Pow2Monotone(k, 3); }
      Pow2Monotone(4, k);
      Pow2Divides(a.align, 4);
      RoundUpIsLeast(l.size, a.align);
      DividesTransitive(AlignUpByRemainder(l.size, a.align), a.align, 16);
    }
  }

  // How a block lies in its region; it starts 8 bytes late only when aligned to 16 or more.
  lemma {:induction false} BlockLies(r: Region, a: Adjusted, ptr: nat)
    requires Padded(a) && r.start % NODE_ALIGN == 0 && Places(r, a, ptr)
    ensures r.start <= ptr && ptr % NODE_ALIGN == 0 && ptr + a.size <= r.End()
    ensures ptr + a.size == r.End() || ptr + a.size + NODE_SIZE <= r.End()
    ensures ptr == r.start + 8 ==> r.start % 16 == 8 && a.size % 16 == 0
  {
    hide IsPow2;
    DividesTransitive(ptr, a.align, NODE_ALIGN);
    if a.align % 16 == 0 {
      DividesTransitive(ptr, a.align, 16);
    }
  }

  lemma {:induction false} RoundUpOfMultiple(x: nat, align: nat)
    requires align >= 1 && x % align == 0
    ensures AlignUpByRemainder(x, align) == x
  {
  }

  // A part that is suitable, in a region that is not: the region can be trimmed to it.
  lemma {:induction false} SuitablePart(r: Region, a: Adjusted, part: Region)
    requires Workable(a) && r.start % NODE_ALIGN == 0 && part.start % NODE_ALIGN == 0
    requires r.start <= part.start
    requires part.End() == r.End() || part.End() + NODE_SIZE <= r.End()
    requires !Suitable(r, a) && Suitable(part, a)
    ensures a.align == NODE_ALIGN && part.End() == r.End() && part.start == r.start + 8 && part.size == a.size
  {
    SuitableMeans(r, a);
    SuitableMeans(part, a);
    RoundUpIsLeast(r.start, a.align);
    hide Suitable, IsPow2;
    var p, q := AlignUpByRemainder(r.start, a.align), AlignUpByRemainder(part.start, a.align);
    assert p <= q;
    NearMultiples(p, q, a.align);
    if a.align == NODE_ALIGN {
      RoundUpOfMultiple(r.start, a.align);
      RoundUpOfMultiple(part.start, a.align);
    }
  }

  // A part that can be trimmed, in a region that is no use: it is the whole region.
  lemma {:induction false} TrimmablePart(r: Region, a: Adjusted, part: Region)
    requires Workable(a) && r.start % NODE_ALIGN == 0 && part.start % NODE_ALIGN == 0
    requires r.start <= part.start
    requires part.End() == r.End() || part.End() + NODE_SIZE <= r.End()
    requires !Suitable(r, a) && Trimmable(part, a)
    ensures part == r
  {
    SuitableMeans(r, a);
    hide Suitable, IsPow2;
    RoundUpOfMultiple(r.start, a.align);
  }

  lemma {:induction false} WorkableIsPositive(a: Adjusted)
    requires Workable(a)
    ensures a.align >= 1 && a.size >= NODE_SIZE
  {
  }

  lemma {:induction false} PartKeepsPromise(r: Region, a: Adjusted, part: Region)
    requires Workable(a) && r.start % NODE_ALIGN == 0 && part.start % NODE_ALIGN == 0
    requires r.start <= part.start
    requires part.End() == r.End() || part.End() + NODE_SIZE <= r.End()
    requires part.start == r.start + 8 ==> r.start % 16 == 8 && part.size % 16 == 0
    requires !Promising(r, a)
    ensures !Promising(part, a)
  {
    hide Suitable, Workable;
    WorkableIsPositive(a);
    if Suitable(part, a) {
      SuitablePart(r, a, part);
    }
    if Trimmable(part, a) {
      TrimmablePart(r, a, part);
    }
  }

  // The block and the excess cut from a region without promise have none either.
  lemma {:induction false} CutKeepsPromise(r: Region, a: Adjusted, a2: Adjusted, ptr: nat)
    requires Workable(a) && Padded(a2) && r.start % NODE_ALIGN == 0
    requires Places(r, a2, ptr) && !Promising(r, a)
    ensures !Promising(Region(ptr, a2.size), a)
    ensures ptr + a2.size < r.End() ==> !Promising(Region(ptr + a2.size, r.End() - (ptr + a2.size)), a)
  {
    hide Promising, Places, Workable, Padded;
    WorkableIsPositive(a);
    PaddedIsWorkable(a2);
    BlockLies(r, a2, ptr);
    PartKeepsPromise(r, a, Region(ptr, a2.size));
    if ptr + a2.size < r.End() {
      PartKeepsPromise(r, a, Region(ptr + a2.size, r.End() - (ptr + a2.size)));
    }
  }

  ghost predicate NonePromising(regions: seq<Region>, a: Adjusted)
    requires a.align >= 1
  {
    forall i :: 0 <= i < |regions| ==> !Promising(regions[i], a)
  }

  lemma {:induction false} NonePromisingMeans(h: Heap, a: Adjusted)
    requires a.align >= 1
    ensures SomePromising(h, a) <==> !(NonePromising(h.free, a) && NonePromising(LiveRegions(h.live), a))
  {
    hide Promising;
    var live := LiveRegions(h.live);
    assert forall i :: 0 <= i < |h.live| ==> live[i] == h.live[i].region;
  }

  lemma {:induction false} WithoutKeepsNone(regions: seq<Region>, i: nat, a: Adjusted)
    requires a.align >= 1 && NonePromising(regions, a) && i < |regions|
    ensures NonePromising(Without(regions, i), a)
  {
    hide Promising;
    var rest := Without(regions, i);
    assert forall j :: 0 <= j < |rest| ==> rest[j] == regions[if j < i then j else j + 1];
  }

  lemma {:induction false} ServingKeepsPromise(h: Heap, a2: Adjusted, i: nat, ptr: nat, h': Heap, a: Adjusted)
    requires Workable(a) && Padded(a2) && ServedBy(h, a2, i, ptr, h')
    requires h.free[i].start % NODE_ALIGN == 0 && !SomePromising(h, a)
    ensures !SomePromising(h', a)
  {
    hide Suitable, Places, Promising, Workable, Padded, SomePromising;
    WorkableIsPositive(a);
    PaddedIsWorkable(a2);
    NonePromisingMeans(h, a);
    NonePromisingMeans(h', a);
    CutKeepsPromise(h.free[i], a, a2, ptr);
    WithoutKeepsNone(h.free, i, a);
  }

  lemma {:induction false} AllocKeepsPromise(h: Heap, l: Layout, a: Adjusted)
    requires Valid(h) && ValidLayout(l) && Workable(a) && !SomePromising(h, a)
    ensures !SomePromising(Alloc(h, l).0, a)
  {
    hide SomePromising, Workable, Padded, AllocFromRegion, ServedBy, Partition;
    WorkableIsPositive(a);
    if SizeAlign(l).Some? {
      AllocIsFirstFit(h, l);
      SizeAlignIsPadded(l);
      var a2 := SizeAlign(l).value;
      PaddedIsWorkable(a2);
      var (h', answer) := Alloc(h, l);
      if answer.Pointer? {
        var i: nat :| ServedBy(h, a2, i, answer.ptr, h');
        ServedFromFree(h, a2, i, answer.ptr, h');
        assert FreeOk(h.free[i]);
        ServingKeepsPromise(h, a2, i, answer.ptr, h', a);
      }
    }
  }

  lemma {:induction false} ServedFromFree(h: Heap, a: Adjusted, i: nat, ptr: nat, h': Heap)
    requires a.align >= 1 && ServedBy(h, a, i, ptr, h')
    ensures i < |h.free|
  {
  }

  lemma {:induction false} StepKeepsPromise(h: Heap, op: Op, a: Adjusted)
    requires Valid(h) && OpOk(op) && Workable(a) && !SomePromising(h, a)
    ensures !SomePromising(Step(h, op), a)
  {
    hide Valid, Promising;
    match op
    case AllocOp(l) => AllocKeepsPromise(h, l, a);
    case FreeOp(i) =>
      if i < |h.live| {
        var h' := Dealloc(h, i);
        forall j | 0 <= j < |h'.live|
          ensures !Promising(h'.live[j].region, a)
        {
          assert h'.live[j] == h.live[if j < i then j else j + 1];
        }
      }
  }

  lemma {:induction false} RunKeepsPromise(h: Heap, ops: seq<Op>, a: Adjusted)
    requires Valid(h) && Workable(a) && !SomePromising(h, a)
    requires forall i :: 0 <= i < |ops| ==> OpOk(ops[i])
    ensures !SomePromising(Run(h, ops), a)
    decreases |ops|
  {
    hide Valid, SomePromising, Step;
    if ops == [] {
    } else {
      StepKeepsValid(h, ops[0]);
      StepKeepsPromise(h, ops[0], a);
      RunKeepsPromise(Step(h, ops[0]), ops[1..], a);
    }
  }

  // The request is served after the calls of `ops`.
  ghost predicate ServedAfter(h: Heap, l: Layout, ops: seq<Op>)
    requires Valid(h) && ValidLayout(l)
  {
    (forall i :: 0 <= i < |ops| ==> OpOk(ops[i])) && Alloc(Run(h, ops), l).1.Pointer?
  }

  lemma {:induction false} ServedNow(h: Heap, l: Layout, i: nat)
    requires Valid(h) && ValidLayout(l) && SizeAlign(l).Some? && i < |h.free|
    requires SizeAlign(l).value.align >= 1 && Suitable(h.free[i], SizeAlign(l).value)
    ensures Alloc(h, l).1.Pointer? && ServedAfter(h, l, [])
  {
    AllocIsFirstFit(h, l);
    hide Valid, Alloc, Suitable;
    assert Run(h, []) == h;
  }

  lemma {:induction false} ServedLater(h: Heap, l: Layout, op: Op, ops: seq<Op>)
    requires Valid(h) && ValidLayout(l) && OpOk(op) && Valid(Step(h, op)) && ServedAfter(Step(h, op), l, ops)
    ensures ServedAfter(h, l, [op] + ops)
  {
    hide Valid, Alloc, Step, ValidLayout;
    assert ([op] + ops)[1..] == ops;
    assert Run(h, [op] + ops) == Run(Step(h, op), ops);
  }

  // A request aligned to 16 trims the region and is freed again.
  lemma {:induction false} TrimmedLayout(a: Adjusted)
    requires Workable(a) && a.size % 16 == 0 && a.size < USIZE
    ensures ValidLayout(Layout(a.size, 16)) && SizeAlign(Layout(a.size, 16)) == Some(Adjusted(a.size, 16))
  {
    assert IsPow2(16) by { assert Pow2(4) == 16; }
  }

  lemma {:induction false} TrimmableIsSuitable(r: Region, a: Adjusted)
    requires Trimmable(r, a)
    ensures Suitable(r, Adjusted(a.size, 16))
  {
    assert Places(r, Adjusted(a.size, 16), r.start + 8);
  }

  lemma {:induction false} ExactFitIsSuitable(r: Region, a: Adjusted)
    requires a.align >= 1 && r.start % a.align == 0 && r.size == a.size
    ensures Suitable(r, a)
  {
    assert Places(r, a, r.start);
  }

  // alloc and free of one layout leave its block at the front.
  lemma {:induction false} BlockComesFirst(h: Heap, l: Layout)
    requires Valid(h) && ValidLayout(l) && SizeAlign(l).Some? && Alloc(h, l).1.Pointer?
    ensures Valid(Step(h, AllocOp(l)))
    ensures var a := SizeAlign(l).value;
      var h2 := Step(Step(h, AllocOp(l)), FreeOp(|h.live|));
      && Valid(h2) && a.align >= 1
      && h2.free != [] && h2.free[0].size == a.size && h2.free[0].start % a.align == 0
  {
    AllocKeepsValid(h, l);
    var h1 := Alloc(h, l).0;
    hide AllocFromRegion, SizeAlign, Partition;
    assert |h1.live| == |h.live| + 1 && h1.live[|h.live|].layout == l;
    assert LiveOk(h1.live[|h.live|]);
    DeallocKeepsValid(h1, |h.live|);
  }

  lemma {:induction false} TrimServes(h: Heap, l: Layout, i: nat)
    requires Valid(h) && ValidLayout(l) && SizeAlign(l).Some? && i < |h.free|
    requires Trimmable(h.free[i], SizeAlign(l).value)
    ensures exists ops :: ServedAfter(h, l, ops)
  {
    var a := SizeAlign(l).value;
    var cut := Layout(a.size, 16);
    SizeAlignIsWorkable(l);
    TrimmedLayout(a);
    TrimmableIsSuitable(h.free[i], a);
    hide Valid, ValidLayout, SizeAlign, Suitable, Alloc, Workable, ServedAfter, Step;
    ServedNow(h, cut, i);
    BlockComesFirst(h, cut);
    var last := |h.live|;
    var h1 := Step(h, AllocOp(cut));
    var h2 := Step(h1, FreeOp(last));
    ExactFitIsSuitable(h2.free[0], a);
    ServedNow(h2, l, 0);
    ServedLater(h1, l, FreeOp(last), []);
    ServedLater(h, l, AllocOp(cut), [FreeOp(last)] + []);
  }

  lemma {:induction false} FreeRegionServes(h: Heap, l: Layout, i: nat)
    requires Valid(h) && ValidLayout(l) && SizeAlign(l).Some? && i < |h.free|
    requires SizeAlign(l).value.align >= 1 && Promising(h.free[i], SizeAlign(l).value)
    ensures exists ops :: ServedAfter(h, l, ops)
  {
    hide Valid, ServedAfter;
    if Suitable(h.free[i], SizeAlign(l).value) {
      ServedNow(h, l, i);
    } else {
      TrimServes(h, l, i);
    }
  }

  lemma {:induction false} LiveBlockServes(h: Heap, l: Layout, i: nat)
    requires Valid(h) && ValidLayout(l) && SizeAlign(l).Some? && i < |h.live|
    requires SizeAlign(l).value.align >= 1 && Promising(h.live[i].region, SizeAlign(l).value)
    ensures exists ops :: ServedAfter(h, l, ops)
  {
    DeallocKeepsValid(h, i);
    hide Valid, ServedAfter, Promising, ValidLayout;
    var h' := Step(h, FreeOp(i));
    assert h'.free[0] == h.live[i].region;
    FreeRegionServes(h', l, 0);
    var ops :| ServedAfter(h', l, ops);
    ServedLater(h, l, FreeOp(i), ops);
  }

  // Some continuation of the run serves a request exactly when some free region or live
  // block is suitable for it, or 8 bytes too long in the one way that can be trimmed. As
  // regions are never joined, everything else is refused for ever.
  lemma {:induction false} ServedExactly(h: Heap, l: Layout)
    requires Valid(h) && ValidLayout(l) && SizeAlign(l).Some?
    ensures SizeAlign(l).value.align >= 1
    ensures (exists ops :: ServedAfter(h, l, ops)) <==> SomePromising(h, SizeAlign(l).value)
  {
    var a := SizeAlign(l).value;
    SizeAlignIsWorkable(l);
    hide Valid, ServedAfter, Promising, Alloc, ValidLayout, SizeAlign;
    if SomePromising(h, a) {
      if i :| 0 <= i < |h.free| && Promising(h.free[i], a) {
        FreeRegionServes(h, l, i);
      } else {
        var i :| 0 <= i < |h.live| && Promising(h.live[i].region, a);
        LiveBlockServes(h, l, i);
      }
    } else {
      forall ops
        ensures !ServedAfter(h, l, ops)
      {
        NotServedAfter(h, l, ops);
      }
    }
  }

  lemma {:induction false} ServingNeedsPromise(h: Heap, l: Layout)
    requires Valid(h) && ValidLayout(l) && SizeAlign(l).Some? && Alloc(h, l).1.Pointer?
    ensures SizeAlign(l).value.align >= 1 && SomePromising(h, SizeAlign(l).value)
  {
    var a := SizeAlign(l).value;
    AllocIsFirstFit(h, l);
    hide Valid, Alloc;
    var ptr := Alloc(h, l).1.ptr;
    var i: nat :| ServedBy(h, a, i, ptr, Alloc(h, l).0);
    assert Promising(h.free[i], a);
  }

  lemma {:induction false} NotServedAfter(h: Heap, l: Layout, ops: seq<Op>)
    requires Valid(h) && ValidLayout(l) && SizeAlign(l).Some?
    requires SizeAlign(l).value.align >= 1 && !SomePromising(h, SizeAlign(l).value)
    ensures !ServedAfter(h, l, ops)
  {
    hide Valid, SizeAlign, Alloc, SomePromising;
    SizeAlignIsWorkable(l);
    if forall i :: 0 <= i < |ops| ==> OpOk(ops[i]) {
      RunKeepsPromise(h, ops, SizeAlign(l).value);
      if Alloc(Run(h, ops), l).1.Pointer? {
        ServingNeedsPromise(Run(h, ops), l);
      }
    }
  }

  // -------- a heap that is all free and serves less than a fresh one --------

  const HALF: Layout := Layout(51200, 8)
  const WHOLE: Layout := Layout(102400, 8)

  lemma {:induction false} HalvesExist()
    ensures ValidLayout(HALF) && SizeAlign(HALF) == Some(Adjusted(51200, 8))
    ensures ValidLayout(WHOLE) && SizeAlign(WHOLE) == Some(Adjusted(102400, 8))
  {
    assert IsPow2(8) by { assert Pow2(3) == 8; }
  }

  // Both halves of the heap allocated and freed again.
  const HALVING: seq<Op> := [AllocOp(HALF), AllocOp(HALF)] + [FreeOp(0), FreeOp(0)]

  lemma {:induction false} RunParts(h: Heap, a: seq<Op>, b: seq<Op>)
    requires Valid(h) && (forall i :: 0 <= i < |a| ==> OpOk(a[i])) && (forall i :: 0 <= i < |b| ==> OpOk(b[i]))
    ensures Run(h, a + b) == Run(Run(h, a), b)
    decreases |a|
  {
    hide Valid, Step, OpOk;
    if a == [] {
      assert a + b == b;
    } else {
      StepKeepsValid(h, a[0]);
      assert (a + b)[0] == a[0] && (a + b)[1..] == a[1..] + b;
      RunParts(Step(h, a[0]), a[1..], b);
    }
  }

  lemma {:induction false} HalvedHeap()
    ensures Valid(Init(HEAP_START, HEAP_SIZE)) && forall i :: 0 <= i < |HALVING| ==> OpOk(HALVING[i])
    ensures var h := Run(Init(HEAP_START, HEAP_SIZE), HALVING);
      h.live == [] && h.free == [Region(HEAP_START + 51200, 51200), Region(HEAP_START, 51200)]
  {
    HalvesExist();
    hide ValidLayout, SizeAlign, Alloc, Valid, Run;
    InitIsValid(HEAP_START, HEAP_SIZE);
    var h := Init(HEAP_START, HEAP_SIZE);
    AllocFromFirst(h, HALF, HEAP_START);
    RunTwo(h, AllocOp(HALF), AllocOp(HALF));
    var h1 := Step(h, AllocOp(HALF));
    var r1, r2 := Region(HEAP_START, 51200), Region(HEAP_START + 51200, 51200);
    assert h1.free == [r2];
    AllocFromFirst(h1, HALF, HEAP_START + 51200);
    var h2 := Step(h1, AllocOp(HALF));
    assert h2.free == [] && h2.live == [Block(r1, HALF), Block(r2, HALF)];
    StepKeepsValid(h1, AllocOp(HALF));
    RunTwo(h2, FreeOp(0), FreeOp(0));
    var h3 := Step(h2, FreeOp(0));
    assert h3.free == [r1] && h3.live == [Block(r2, HALF)];
    RunParts(h, [AllocOp(HALF), AllocOp(HALF)], [FreeOp(0), FreeOp(0)]);
  }

  // The whole heap is free again, and what a fresh heap serves is refused for ever.
  lemma {:induction false} FragmentationHappens(more: seq<Op>)
    requires forall i :: 0 <= i < |more| ==> OpOk(more[i])
    ensures Valid(Init(HEAP_START, HEAP_SIZE)) && ValidLayout(WHOLE)
    ensures Alloc(Init(HEAP_START, HEAP_SIZE), WHOLE).1 == Pointer(HEAP_START)
    ensures forall i :: 0 <= i < |HALVING| ==> OpOk(HALVING[i])
    ensures var h := Run(Init(HEAP_START, HEAP_SIZE), HALVING);
      && h.live == [] && Total(h.free) == HEAP_SIZE
      && Alloc(Run(h, more), WHOLE).1 == Null
  {
    HalvesExist();
    HalvedHeap();
    hide Valid, ValidLayout, SizeAlign, Run, Alloc;
    AllocFromFirst(Init(HEAP_START, HEAP_SIZE), WHOLE, HEAP_START);
    var h := Run(Init(HEAP_START, HEAP_SIZE), HALVING);
    SumPrepend(h.free[0], [h.free[1]], SizeOf());
    SumOne(h.free[1], SizeOf());
    RefusedForever(h, WHOLE, more);
  }
}
