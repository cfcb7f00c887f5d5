/**
 The linked list allocator on values: the free list, the blocks handed out, and the
 front gaps that alloc cuts off to align a block and never reuses.
 */
module LinkedList {
  import opened Options
  import opened Alignment
  import opened Regions
  import opened AllocatorSpec

  // mem::size_of and mem::align_of ListNode on x86_64
  const NODE_SIZE: nat := 16
  const NODE_ALIGN: nat := 8

  datatype Adjusted = Adjusted(size: nat, align: nat)

  // Layout::align_to fails when the padded size does not fit into a usize.
  function SizeAlign(l: Layout): Option<Adjusted>
    requires l.align >= 1
  {
    var align := Max(l.align, NODE_ALIGN);
    var padded := AlignUpByRemainder(l.size, align);
    if padded >= USIZE then None else Some(Adjusted(Max(padded, NODE_SIZE), align))
  }

  // Layouts that size_align can produce.
  ghost predicate Workable(a: Adjusted) {
    && IsPow2(a.align) && a.align % NODE_ALIGN == 0 && NODE_ALIGN <= a.align <= ADDRESS_LIMIT
    && a.size % NODE_ALIGN == 0 && a.size >= NODE_SIZE
  }

  // Raising a padded size to that of a node keeps it a multiple of the alignment.
  lemma {:induction false} PaddedSize(padded: nat, align: nat)
    requires align >= 8 && align % 8 == 0 && padded > 0 && padded % align == 0
    ensures Max(padded, NODE_SIZE) % align == 0
  {
    if align == 8 {
    } else {
      assert padded == align * (padded / align);
      MultipleBounds(align, padded / align);
    }
  }

  lemma {:induction false} SizeAlignIsWorkable(l: Layout)
    requires ValidLayout(l) && SizeAlign(l).Some?
    ensures var a := SizeAlign(l).value;
      && Workable(a) && a.size >= l.size && a.align >= l.align && a.align % l.align == 0
      && a.size % a.align == 0
  {
    var a := SizeAlign(l).value;
    assert Pow2(3) == NODE_ALIGN;
    assert IsPow2(NODE_ALIGN);
    Pow2Divides(a.align, 3);
    AlignIsBounded(a.align);
    RoundUpIsLeast(l.size, a.align);
    DividesTransitive(AlignUpByRemainder(l.size, a.align), a.align, NODE_ALIGN);
    PaddedSize(AlignUpByRemainder(l.size, a.align), a.align);
    hide AlignUpByRemainder;
    var k: nat :| l.align == Pow2(k);
    Pow2Divides(a.align, k);
  }

  // size_align adds no more than it has to.
  lemma {:induction false} SizeAlignIsLeast(l: Layout, y: nat)
    requires ValidLayout(l) && SizeAlign(l).Some?
    ensures var a := SizeAlign(l).value;
      && (a.align == l.align || a.align == NODE_ALIGN)
      && (y >= l.size && y >= NODE_SIZE && y % a.align == 0 ==> a.size <= y)
  {
    RoundUpIsLeast(l.size, SizeAlign(l).value.align);
  }

  // The smallest request takes the 16 bytes of a list node.
  lemma {:induction false} SmallestBlock()
    ensures SizeAlign(Layout(1, 1)) == Some(Adjusted(16, 8))
  {
  }

  // alloc_from_region
  function AllocFromRegion(region: Region, size: nat, align: nat): Option<nat>
    requires align >= 1 && region.start + align - 1 < USIZE
  {
    var allocStart := AlignUp(region.start, align);
    var allocEnd := allocStart + size;
    if allocEnd >= USIZE then None  // checked_add
    else if allocEnd > region.End() then None
    else
      var excess := region.End() - allocEnd;
      if 0 < excess < NODE_SIZE then None else Some(allocStart)
  }

  ghost predicate Addressable(free: seq<Region>) {
    forall i :: 0 <= i < |free| ==> free[i].start < ADDRESS_LIMIT
  }

  // Index of the first suitable region, or the length of the list.
  function FirstFit(free: seq<Region>, a: Adjusted): (i: nat)
    requires Addressable(free) && 1 <= a.align <= ADDRESS_LIMIT
    ensures i <= |free|
    ensures forall j :: 0 <= j < i ==> AllocFromRegion(free[j], a.size, a.align).None?
    ensures i < |free| ==> AllocFromRegion(free[i], a.size, a.align).Some?
  {
    if free == [] then 0
    else if AllocFromRegion(free[0], a.size, a.align).Some? then 0
    else 1 + FirstFit(free[1..], a)
  }

  datatype Block = Block(region: Region, layout: Layout)

  datatype Heap = Heap(start: nat, size: nat, free: seq<Region>, live: seq<Block>, gaps: seq<Region>)

  function LiveRegions(live: seq<Block>): (r: seq<Region>)
    ensures |r| == |live| && forall i :: 0 <= i < |live| ==> r[i] == live[i].region
  {
    seq(|live|, i requires 0 <= i < |live| => live[i].region)
  }

  // How many free regions, live blocks and gaps contain address b.
  function Owners(h: Heap, b: int): nat {
    Covers(h.free, b) + Covers(LiveRegions(h.live), b) + Covers(h.gaps, b)
  }

  // Every byte of the heap has exactly one owner, every other address none.
  ghost predicate Partition(h: Heap) {
    forall b: int :: Owners(h, b) == if h.start <= b < h.start + h.size then 1 else 0
  }

  ghost predicate FreeOk(r: Region) {
    r.start % NODE_ALIGN == 0 && r.size >= NODE_SIZE
  }

  ghost predicate LiveOk(b: Block) {
    && ValidLayout(b.layout)
    && SizeAlign(b.layout).Some?
    && b.region.size == SizeAlign(b.layout).value.size
    && b.region.start % SizeAlign(b.layout).value.align == 0
  }

  ghost predicate Valid(h: Heap) {
    && 0 < h.start && h.start + h.size <= ADDRESS_LIMIT
    && (forall i :: 0 <= i < |h.free| ==> FreeOk(h.free[i]))
    && (forall i :: 0 <= i < |h.live| ==> LiveOk(h.live[i]))
    && Partition(h)
    && Total(h.free) + Total(LiveRegions(h.live)) + Total(h.gaps) == h.size
  }

  // -------- bounds --------

  lemma {:induction false} FreeInHeap(h: Heap, i: nat)
    requires Valid(h) && i < |h.free|
    ensures h.start <= h.free[i].start && h.free[i].End() <= h.start + h.size
  {
    var r := h.free[i];
    assert FreeOk(r);
    SumAtLeast(h.free, i, HitAt(r.start));
    SumAtLeast(h.free, i, HitAt(r.End() - 1));
    assert Owners(h, r.start) == 1 && Owners(h, r.End() - 1) == 1;
  }

  lemma {:induction false} LiveInHeap(h: Heap, i: nat)
    requires Valid(h) && i < |h.live|
    ensures var r := h.live[i].region; h.start <= r.start && r.End() <= h.start + h.size
  {
    var r := h.live[i].region;
    assert LiveOk(h.live[i]);
    SumAtLeast(LiveRegions(h.live), i, HitAt(r.start));
    SumAtLeast(LiveRegions(h.live), i, HitAt(r.End() - 1));
    assert Owners(h, r.start) == 1 && Owners(h, r.End() - 1) == 1;
  }

  lemma {:induction false} ValidIsAddressable(h: Heap)
    requires Valid(h)
    ensures Addressable(h.free)
  {
    forall i | 0 <= i < |h.free|
      ensures h.free[i].start < ADDRESS_LIMIT
    {
      FreeInHeap(h, i);
      assert FreeOk(h.free[i]);
    }
  }

  // A suitable region holds the block, and what is left over can hold a ListNode.
  lemma {:induction false} SuitableRegion(region: Region, a: Adjusted)
    requires Workable(a) && region.start < ADDRESS_LIMIT
    requires AllocFromRegion(region, a.size, a.align).Some?
    ensures var ptr := AllocFromRegion(region, a.size, a.align).value;
      && region.start <= ptr && ptr + a.size <= region.End()
      && ptr % a.align == 0 && ptr % NODE_ALIGN == 0 && (ptr + a.size) % NODE_ALIGN == 0
      && ptr + a.size < USIZE
      && (var excess := region.End() - (ptr + a.size); excess == 0 || excess >= NODE_SIZE)
  {
    hide AlignUp, IsPow2;
    var ptr := AllocFromRegion(region, a.size, a.align).value;
    AlignUpIsLeast(region.start, a.align);
    DividesTransitive(ptr, a.align, NODE_ALIGN);
  }

  // -------- the operations --------

  // add_free_region on a fresh heap
  function Init(start: nat, size: nat): Heap {
    Heap(start, size, [Region(start, size)], [], [])
  }

  datatype Answer = Pointer(ptr: nat) | Null | Panic

  // The i-th free region serves a request: a block at `ptr`, the excess back on the list,
  // the front gap dropped.
  function Carve(h: Heap, i: nat, ptr: nat, size: nat, layout: Layout): Heap
    requires i < |h.free|
    requires h.free[i].start <= ptr && ptr + size <= h.free[i].End()
  {
    var region := h.free[i];
    var excess := region.End() - (ptr + size);
    var rest := Without(h.free, i);
    h.(free := if excess > 0 then [Region(ptr + size, excess)] + rest else rest,
    live := h.live + [Block(Region(ptr, size), layout)],
    gaps := if ptr > region.start then h.gaps + [Region(region.start, ptr - region.start)] else h.gaps)
  }

  function Alloc(h: Heap, l: Layout): (Heap, Answer)
    requires Valid(h) && ValidLayout(l)
  {
    match SizeAlign(l)
    case None => (h, Panic)
    case Some(a) =>
      ValidIsAddressable(h);
      SizeAlignIsWorkable(l);
      var i := FirstFit(h.free, a);
      if i == |h.free| then (h, Null)
      else
        var ptr := AllocFromRegion(h.free[i], a.size, a.align).value;
        SuitableRegion(h.free[i], a);
        (Carve(h, i, ptr, a.size, l), Pointer(ptr))
  }

  function Dealloc(h: Heap, i: nat): Heap
    requires i < |h.live|
  {
    h.(free := [h.live[i].region] + h.free, live := Without(h.live, i))
  }

  // -------- alloc and dealloc keep the heap valid --------

  lemma {:induction false} LiveRegionsAppend(live: seq<Block>, b: Block)
    ensures LiveRegions(live + [b]) == LiveRegions(live) + [b.region]
  {
  }

  lemma {:induction false} LiveRegionsWithout(live: seq<Block>, i: nat)
    requires i < |live|
    ensures LiveRegions(Without(live, i)) == Without(LiveRegions(live), i)
  {
  }

  // Cutting a region into gap, block and excess changes no byte count.
  lemma {:induction false} CarveSums(h: Heap, i: nat, ptr: nat, size: nat, l: Layout, f: Region -> nat)
    requires i < |h.free|
    requires h.free[i].start <= ptr && ptr + size <= h.free[i].End()
    requires var r := h.free[i];
      f(r) == f(Region(r.start, ptr - r.start)) + f(Region(ptr, size)) + f(Region(ptr + size, r.End() - (ptr + size)))
    requires forall s :: f(Region(s, 0)) == 0
    ensures var h' := Carve(h, i, ptr, size, l);
      SumOf(h'.free, f) + SumOf(LiveRegions(h'.live), f) + SumOf(h'.gaps, f)
      == SumOf(h.free, f) + SumOf(LiveRegions(h.live), f) + SumOf(h.gaps, f)
  {
    var r := h.free[i];
    var block := Block(Region(ptr, size), l);
    SumWithout(h.free, i, f);
    SumPrepend(Region(ptr + size, r.End() - (ptr + size)), Without(h.free, i), f);
    LiveRegionsAppend(h.live, block);
    SumAppend(LiveRegions(h.live), block.region, f);
    SumAppend(h.gaps, Region(r.start, ptr - r.start), f);
  }

  lemma {:induction false} CarveKeepsPartition(h: Heap, i: nat, ptr: nat, size: nat, l: Layout)
    requires Partition(h) && i < |h.free|
    requires h.free[i].start <= ptr && ptr + size <= h.free[i].End()
    ensures Partition(Carve(h, i, ptr, size, l))
    ensures var h' := Carve(h, i, ptr, size, l);
      Total(h'.free) + Total(LiveRegions(h'.live)) + Total(h'.gaps)
      == Total(h.free) + Total(LiveRegions(h.live)) + Total(h.gaps)
  {
    CarveSums(h, i, ptr, size, l, SizeOf());
    forall b: int
      ensures Owners(Carve(h, i, ptr, size, l), b) == Owners(h, b)
    {
      CarveSums(h, i, ptr, size, l, HitAt(b));
    }
  }

  lemma {:induction false} CarveKeepsShape(h: Heap, i: nat, l: Layout)
    requires Valid(h) && i < |h.free| && ValidLayout(l) && SizeAlign(l).Some?
    requires var a := SizeAlign(l).value;
      && h.free[i].start < ADDRESS_LIMIT && Workable(a)
      && AllocFromRegion(h.free[i], a.size, a.align).Some?
    ensures var a := SizeAlign(l).value;
      var ptr := AllocFromRegion(h.free[i], a.size, a.align).value;
      && h.free[i].start <= ptr && ptr + a.size <= h.free[i].End()
      && Valid(Carve(h, i, ptr, a.size, l))
  {
    var a := SizeAlign(l).value;
    var ptr := AllocFromRegion(h.free[i], a.size, a.align).value;
    SuitableRegion(h.free[i], a);
    CarveKeepsPartition(h, i, ptr, a.size, l);
    var h' := Carve(h, i, ptr, a.size, l);
    assert forall j :: 0 <= j < |h'.free| ==> FreeOk(h'.free[j]);
    assert forall j :: 0 <= j < |h'.live| ==> LiveOk(h'.live[j]);
  }

  lemma {:induction false} AllocKeepsValid(h: Heap, l: Layout)
    requires Valid(h) && ValidLayout(l)
    ensures Valid(Alloc(h, l).0)
  {
    if SizeAlign(l).Some? {
      var a := SizeAlign(l).value;
      ValidIsAddressable(h);
      SizeAlignIsWorkable(l);
      var i := FirstFit(h.free, a);
      if i < |h.free| {
        CarveKeepsShape(h, i, l);
      }
    }
  }

  lemma {:induction false} DeallocSums(h: Heap, i: nat, f: Region -> nat)
    requires i < |h.live|
    ensures var h' := Dealloc(h, i);
      SumOf(h'.free, f) + SumOf(LiveRegions(h'.live), f) == SumOf(h.free, f) + SumOf(LiveRegions(h.live), f)
  {
    SumPrepend(h.live[i].region, h.free, f);
    LiveRegionsWithout(h.live, i);
    SumWithout(LiveRegions(h.live), i, f);
  }

  // A freed block can hold a ListNode.
  lemma {:induction false} LiveIsFreeOk(b: Block)
    requires LiveOk(b)
    ensures FreeOk(b.region)
  {
    SizeAlignIsWorkable(b.layout);
    DividesTransitive(b.region.start, SizeAlign(b.layout).value.align, NODE_ALIGN);
  }

  lemma {:induction false} DeallocKeepsValid(h: Heap, i: nat)
    requires Valid(h) && i < |h.live|
    ensures Valid(Dealloc(h, i))
  {
    var h' := Dealloc(h, i);
    LiveIsFreeOk(h.live[i]);
    DeallocSums(h, i, SizeOf());
    forall b: int
      ensures Owners(h', b) == Owners(h, b)
    {
      DeallocSums(h, i, HitAt(b));
    }
    assert forall j :: 0 <= j < |h'.free| ==> FreeOk(h'.free[j]);
    assert forall j :: 0 <= j < |h'.live| ==> LiveOk(h'.live[j]);
  }

  lemma {:induction false} InitIsValid(start: nat, size: nat)
    requires 0 < start && start % NODE_ALIGN == 0 && size >= NODE_SIZE && start + size <= ADDRESS_LIMIT
    ensures Valid(Init(start, size))
  {
    var h := Init(start, size);
    SumOne(Region(start, size), SizeOf());
    forall b: int
      ensures Owners(h, b) == if start <= b < start + size then 1 else 0
    {
      SumOne(Region(start, size), HitAt(b));
    }
  }
}
