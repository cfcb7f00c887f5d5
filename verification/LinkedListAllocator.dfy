/**
 The linked list allocator as the code that runs: list nodes written into the free
 memory itself, followed and relinked word by word.

 A ListNode at address a occupies two words: its size at a, and at a + 8 the address of
 the next node, 0 for None. `heap` is what the words mean.
 */
module LinkedListAllocator {
  import opened Options
  import opened Alignment
  import opened Regions
  import opened AllocatorSpec
  import opened LinkedList
  import opened LinkedListTheorems
  import opened WordMemory
  import opened ClientData

  // Address of the i-th node; 0 behind the last one.
  function NodeAt(free: seq<Region>, i: nat): nat {
    if i < |free| then free[i].start else 0
  }

  ghost predicate IsNode(mem: Words, free: seq<Region>, i: nat)
    requires i < |free|
  {
    var a := free[i].start;
    a > 0 && a in mem && a + 8 in mem && mem[a] == free[i].size && mem[a + 8] == NodeAt(free, i + 1)
  }

  // The nodes in memory, from `head` on, spell out the list `free`.
  ghost predicate Links(mem: Words, head: nat, free: seq<Region>) {
    && head == NodeAt(free, 0)
    && forall i :: 0 <= i < |free| ==> IsNode(mem, free, i)
  }

  // No two list nodes overlap.
  ghost predicate NodesApart(free: seq<Region>) {
    forall i, j :: 0 <= i < j < |free| ==> Far(free[i].start, free[j].start)
  }

  predicate Far(a: nat, b: nat) {
    a + NODE_SIZE <= b || b + NODE_SIZE <= a
  }

  lemma {:induction false} LinksPush(mem: Words, head: nat, free: seq<Region>, r: Region)
    requires Links(mem, head, free) && r.start > 0
    requires forall i :: 0 <= i < |free| ==> Far(free[i].start, r.start)
    ensures Links(mem[r.start := r.size][r.start + 8 := head], r.start, [r] + free)
  {
    var mem' := mem[r.start := r.size][r.start + 8 := head];
    var free' := [r] + free;
    forall i | 0 <= i < |free'|
      ensures IsNode(mem', free', i)
    {
      if i > 0 {
        assert IsNode(mem, free, i - 1) && free'[i] == free[i - 1];
        assert NodeAt(free', i + 1) == NodeAt(free, i);
      }
    }
  }

  // Unlinking node k: its predecessor, or the head, takes over its successor.
  lemma {:induction false} LinksRemove(mem: Words, head: nat, free: seq<Region>, k: nat)
    requires Links(mem, head, free) && k < |free| && NodesApart(free)
    ensures var taken := mem[free[k].start + 8 := 0];
      if k == 0 then Links(taken, NodeAt(free, 1), Without(free, k))
      else Links(taken[free[k - 1].start + 8 := NodeAt(free, k + 1)], head, Without(free, k))
  {
    var taken := mem[free[k].start + 8 := 0];
    var mem' := if k == 0 then taken else taken[free[k - 1].start + 8 := NodeAt(free, k + 1)];
    var free' := Without(free, k);
    forall i | 0 <= i < |free'|
      ensures IsNode(mem', free', i)
    {
      var j := if i < k then i else i + 1;
      assert free'[i] == free[j] && IsNode(mem, free, j);
      assert Far(free[j].start, free[k].start);
      assert j + 1 != k ==> NodeAt(free', i + 1) == NodeAt(free, j + 1);
      if k > 0 && j != k - 1 {
        assert Far(free[j].start, free[k - 1].start);
      }
    }
  }

  lemma {:induction false} NodesAreNotNull(mem: Words, head: nat, free: seq<Region>)
    requires Links(mem, head, free)
    ensures forall i :: 0 <= i < |free| ==> free[i].start > 0
  {
    forall i | 0 <= i < |free|
      ensures free[i].start > 0
    {
      assert IsNode(mem, free, i);
    }
  }

  lemma {:induction false} LinksFrame(mem: Words, mem': Words, head: nat, free: seq<Region>)
    requires Links(mem, head, free)
    requires forall i :: 0 <= i < |free| ==> Same(mem, mem', free[i].start) && Same(mem, mem', free[i].start + 8)
    ensures Links(mem', head, free)
  {
    forall i | 0 <= i < |free|
      ensures IsNode(mem', free, i)
    {
      assert IsNode(mem, free, i);
    }
  }

  lemma {:induction false} ValidNodesApart(h: Heap)
    requires Valid(h)
    ensures NodesApart(h.free) && Addressable(h.free)
  {
    ValidIsSound(h);
    ValidIsAddressable(h);
    forall i, j | 0 <= i < j < |h.free|
      ensures Far(h.free[i].start, h.free[j].start)
    {
      assert Disjoint(h.free[i], h.free[j]) && NodeFits(h, h.free[i]) && NodeFits(h, h.free[j]);
    }
  }

  // A word inside a free region belongs to no client.
  lemma {:induction false} FreeWordIsNotLive(h: Heap, k: nat, w: nat)
    requires Valid(h) && k < |h.free| && h.free[k].start <= w && w + WORD <= h.free[k].End()
    ensures forall i :: 0 <= i < |h.live| ==> !Touches(LiveRegions(h.live)[i], w)
  {
    ValidIsSound(h);
    forall i | 0 <= i < |h.live|
      ensures !Touches(LiveRegions(h.live)[i], w)
    {
      assert Disjoint(h.free[k], LiveRegions(h.live)[i]);
    }
  }

  lemma {:induction false} FirstFitIs(free: seq<Region>, a: Adjusted, k: nat)
    requires Addressable(free) && 1 <= a.align <= ADDRESS_LIMIT && k <= |free|
    requires forall j :: 0 <= j < k ==> AllocFromRegion(free[j], a.size, a.align).None?
    requires k < |free| ==> AllocFromRegion(free[k], a.size, a.align).Some?
    ensures FirstFit(free, a) == k
  {
  }

  // The end of a block carved from region i is no list node's neighbour.
  lemma {:induction false} ExcessIsFar(h: Heap, i: nat, addr: nat)
    requires Valid(h) && i < |h.free|
    requires h.free[i].start <= addr && addr + NODE_SIZE <= h.free[i].End()
    ensures var rest := Without(h.free, i); forall j :: 0 <= j < |rest| ==> Far(rest[j].start, addr)
  {
    ValidIsSound(h);
    var rest := Without(h.free, i);
    forall j | 0 <= j < |rest|
      ensures Far(rest[j].start, addr)
    {
      var k := if j < i then j else j + 1;
      assert rest[j] == h.free[k] && NodeFits(h, h.free[k]);
      assert Disjoint(h.free[if i < k then i else k], h.free[if i < k then k else i]);
    }
  }

  lemma {:induction false} ExcessIsNotLive(h: Heap, i: nat, addr: nat)
    requires Valid(h) && i < |h.free|
    requires h.free[i].start <= addr && addr + NODE_SIZE <= h.free[i].End()
    ensures forall j :: 0 <= j < |h.live| ==>
      !Touches(LiveRegions(h.live)[j], addr) && !Touches(LiveRegions(h.live)[j], addr + 8)
  {
    FreeWordIsNotLive(h, i, addr);
    FreeWordIsNotLive(h, i, addr + 8);
  }

  // The checks of alloc hold: the end of the block does not overflow, and an excess is
  // aligned and large enough for a node that disturbs no other node and no client.
  ghost predicate ChecksHold(h: Heap, i: nat, ptr: nat, size: nat)
    requires i < |h.free|
  {
    var end := ptr + size;
    && end <= h.free[i].End() && end < ADDRESS_LIMIT + 1
    && (end < h.free[i].End() ==>
          && end % NODE_ALIGN == 0 && end > 0 && h.free[i].End() - end >= NODE_SIZE
          && (forall j :: 0 <= j < |h.free| - 1 ==> Far(Without(h.free, i)[j].start, end))
          && (forall j :: 0 <= j < |h.live| ==>
                !Touches(LiveRegions(h.live)[j], end) && !Touches(LiveRegions(h.live)[j], end + 8)))
  }

  function AfterCarve(free: seq<Region>, i: nat, end: nat): seq<Region>
    requires i < |free|
  {
    if end < free[i].End() then [Region(end, free[i].End() - end)] + Without(free, i) else Without(free, i)
  }

  lemma {:induction false} AllocOutcome(h: Heap, l: Layout)
    requires Valid(h) && ValidLayout(l) && SizeAlign(l).Some?
    ensures var a := SizeAlign(l).value;
      && Workable(a) && Addressable(h.free)
      && var i := FirstFit(h.free, a);
      var (h', answer) := LinkedList.Alloc(h, l);
      && Valid(h')
      && if i == |h.free| then (h', answer) == (h, Null)
         else
           var ptr := AllocFromRegion(h.free[i], a.size, a.align).value;
           && answer == Pointer(ptr)
           && ptr + a.size < USIZE && ChecksHold(h, i, ptr, a.size)
           && h'.free == AfterCarve(h.free, i, ptr + a.size)
  {
    hide LinkedList.Valid, AlignUp, AllocFromRegion;
    var a := SizeAlign(l).value;
    SizeAlignIsWorkable(l);
    ValidIsAddressable(h);
    AllocKeepsValid(h, l);
    var i := FirstFit(h.free, a);
    if i < |h.free| {
      SuitableRegion(h.free[i], a);
      FreeInHeap(h, i);
      var end := AllocFromRegion(h.free[i], a.size, a.align).value + a.size;
      if end < h.free[i].End() {
        ExcessIsFar(h, i, end);
        ExcessIsNotLive(h, i, end);
      }
    }
  }

  lemma {:induction false} AllocPanics(h: Heap, l: Layout)
    requires Valid(h) && ValidLayout(l) && SizeAlign(l).None?
    ensures LinkedList.Alloc(h, l) == (h, Panic)
  {
  }

  // alloc adds one live block or none; dealloc takes one out.
  lemma {:induction false} LiveMoves(h: Heap, l: Layout, i: nat)
    requires Valid(h) && ValidLayout(l)
    ensures var live := LiveRegions(h.live);
      var live' := LiveRegions(LinkedList.Alloc(h, l).0.live);
      live <= live' && |live'| <= |live| + 1
    ensures i < |h.live| ==> LiveRegions(LinkedList.Dealloc(h, i).live) == Without(LiveRegions(h.live), i)
  {
    hide LinkedList.Valid, AllocFromRegion;
    if i < |h.live| {
      LiveRegionsWithout(h.live, i);
    }
    var h' := LinkedList.Alloc(h, l).0;
    if h' != h {
      LiveRegionsAppend(h.live, h'.live[|h.live|]);
    }
  }

  lemma {:induction false} LiveIsFar(h: Heap, i: nat)
    requires Valid(h) && i < |h.live|
    ensures forall j :: 0 <= j < |h.free| ==> Far(h.free[j].start, h.live[i].region.start)
  {
    ValidIsSound(h);
    forall j | 0 <= j < |h.free|
      ensures Far(h.free[j].start, h.live[i].region.start)
    {
      assert Disjoint(h.free[j], LiveRegions(h.live)[i]);
      assert NodeFits(h, h.free[j]) && NodeFits(h, LiveRegions(h.live)[i]);
    }
  }

  // The word around an address of a live block is no part of a list node.
  lemma {:induction false} LiveWordIsNotNode(h: Heap, i: nat, addr: nat)
    requires Valid(h) && i < |h.live| && h.live[i].region.Contains(addr)
    ensures var w := WordOf(addr);
      forall j :: 0 <= j < |h.free| ==> w != h.free[j].start && w != h.free[j].start + 8
  {
    hide LinkedList.Valid;
    ValidIsSound(h);
    var w := WordOf(addr);
    var r := LiveRegions(h.live)[i];
    assert NodeFits(h, r);
    forall j | 0 <= j < |h.free|
      ensures w != h.free[j].start && w != h.free[j].start + 8
    {
      assert Disjoint(h.free[j], r) && NodeFits(h, h.free[j]);
    }
  }

  lemma {:induction false} WordsApart(r: Region, other: Region, addr: nat)
    requires r.start % WORD == 0 && other.start % WORD == 0 && Disjoint(r, other) && r.Contains(addr)
    ensures !Touches(other, WordOf(addr))
  {
  }

  // Blocks are 8-aligned and disjoint, so no two clients share a word.
  lemma {:induction false} BlocksShareNoWord(h: Heap, mem: Words)
    requires Valid(h)
    ensures Unshared(View(LiveRegions(h.live), mem))
  {
    hide LinkedList.Valid, Touches, WordOf;
    ValidIsSound(h);
    var live := LiveRegions(h.live);
    forall i, j, addr: nat | 0 <= i < |live| && 0 <= j < |live| && i != j && live[i].Contains(addr)
      ensures !Touches(live[j], WordOf(addr))
    {
      assert NodeFits(h, live[i]) && NodeFits(h, live[j]);
      assert Disjoint(live[if i < j then i else j], live[if i < j then j else i]);
      WordsApart(live[i], live[j], addr);
    }
  }

  lemma {:induction false} NodeAlignIsPow2()
    ensures IsPow2(NODE_ALIGN)
  {
    assert Pow2(3) == NODE_ALIGN;
  }

  datatype Found = Found(region: Region, allocStart: nat)

  class LinkedListAllocator {
    var head: nat
    var mem: Words
    ghost var heap: Heap

    ghost predicate Inv()
      reads this
    {
      Valid(heap) && Links(mem, head, heap.free)
    }

    // What clients see.
    ghost function Clients(): View
      reads this
    {
      View(LiveRegions(heap.live), mem)
    }

    // add_free_region; the result is false when one of its two assertions fails.
    method AddFreeRegion(addr: nat, size: nat, ghost free: seq<Region>) returns (ok: bool)
      requires addr + NODE_ALIGN - 1 < USIZE && addr > 0
      requires Links(mem, head, free)
      requires forall i :: 0 <= i < |free| ==> Far(free[i].start, addr)
      modifies this`head, this`mem
      ensures ok <==> addr % NODE_ALIGN == 0 && size >= NODE_SIZE
      ensures ok ==> Links(mem, head, [Region(addr, size)] + free)
      ensures !ok ==> mem == old(mem) && head == old(head)
      ensures forall w :: w != addr && w != addr + 8 ==> Same(old(mem), mem, w)
    {
      hide AlignUp, Links, IsPow2;
      NodeAlignIsPow2();
      AlignUpIsLeast(addr, NODE_ALIGN);
      if AlignUp(addr, NODE_ALIGN) != addr || size < NODE_SIZE {
        return false;
      }
      LinksPush(mem, head, free, Region(addr, size));
      var next := head;
      mem := mem[addr := size][addr + 8 := next];
      head := addr;
      return true;
    }

    // new() and init(), on memory of any content
    constructor (heapStart: nat, heapSize: nat, mem: Words)
      requires 0 < heapStart && heapStart % NODE_ALIGN == 0 && heapSize >= NODE_SIZE
      requires heapStart + heapSize <= ADDRESS_LIMIT
      ensures Inv() && heap == Init(heapStart, heapSize)
    {
      this.head, this.mem := 0, mem;
      this.heap := Init(heapStart, heapSize);
      new;
      var ok := AddFreeRegion(heapStart, heapSize, []);
      InitIsValid(heapStart, heapSize);
      assert [Region(heapStart, heapSize)] + [] == heap.free;
    }

    // find_region: walk the list, unlink the first suitable region.
    method FindRegion(a: Adjusted) returns (r: Option<Found>)
      requires Inv() && Workable(a)
      modifies this`head, this`mem
      ensures Addressable(heap.free)
      ensures var i := FirstFit(heap.free, a);
        if i == |heap.free| then r.None? && mem == old(mem) && head == old(head)
        else
          && r == Some(Found(heap.free[i], AllocFromRegion(heap.free[i], a.size, a.align).value))
          && Links(mem, head, Without(heap.free, i))
      ensures Preserved(old(mem), mem, LiveRegions(heap.live))
    {
      ghost var free := heap.free;
      ValidNodesApart(heap);
      NodesAreNotNull(mem, head, free);
      PreservedTwice(mem, mem, mem, LiveRegions(heap.live));
      hide LinkedList.Valid, Preserved, NodesApart;
      var current := 0;  // 0 stands for the dummy head node
      var next := head;
      ghost var k := 0;
      while next != 0
        invariant mem == old(mem) && head == old(head)
        invariant k <= |free| && next == NodeAt(free, k)
        invariant current == if k == 0 then 0 else free[k - 1].start
        invariant forall j :: 0 <= j < k ==> AllocFromRegion(free[j], a.size, a.align).None?
        decreases |free| - k
      {
        assert IsNode(mem, free, k);
        var region := Region(next, mem[next]);
        var allocStart := AllocFromRegion(region, a.size, a.align);
        if allocStart.Some? {
          FirstFitIs(free, a, k);
          var after := mem[next + 8];
          Unlink(current, next, after, k);
          return Some(Found(region, allocStart.value));
        }
        current := next;
        next := mem[next + 8];
        k := k + 1;
      }
      FirstFitIs(free, a, k);
      return None;
    }

    // region.next.take(), and its successor becomes current.next
    method Unlink(current: nat, next: nat, after: nat, ghost k: nat)
      requires Inv() && k < |heap.free|
      requires next == heap.free[k].start && after == NodeAt(heap.free, k + 1)
      requires current == if k == 0 then 0 else heap.free[k - 1].start
      modifies this`head, this`mem
      ensures Links(mem, head, Without(heap.free, k))
      ensures Preserved(old(mem), mem, LiveRegions(heap.live))
    {
      ghost var free := heap.free;
      ValidNodesApart(heap);
      LinksRemove(mem, head, free, k);
      NodesAreNotNull(mem, head, free);
      assert FreeOk(free[k]);
      FreeWordIsNotLive(heap, k, next + 8);
      mem := mem[next + 8 := 0];
      if current == 0 {
        head := after;
      } else {
        assert FreeOk(free[k - 1]);
        FreeWordIsNotLive(heap, k - 1, current + 8);
        mem := mem[current + 8 := after];
      }
    }

    // What is left of the region behind the block goes back to the list.
    method ReturnExcess(found: Found, allocEnd: nat, ghost size: nat, ghost i: nat) returns (ok: bool)
      requires i < |heap.free| && found.region == heap.free[i] && allocEnd == found.allocStart + size
      requires ChecksHold(heap, i, found.allocStart, size)
      requires Links(mem, head, Without(heap.free, i))
      modifies this`head, this`mem
      ensures ok
      ensures Links(mem, head, AfterCarve(heap.free, i, allocEnd))
      ensures Preserved(old(mem), mem, LiveRegions(heap.live))
    {
      var excess := found.region.End() - allocEnd;
      ok := true;
      if excess > 0 {
        ok := AddFreeRegion(allocEnd, excess, Without(heap.free, i));
      }
    }

    method Alloc(layout: Layout) returns (answer: Answer)
      requires Inv() && ValidLayout(layout)
      modifies this
      ensures Inv()
      ensures (heap, answer) == LinkedList.Alloc(old(heap), layout)
      ensures answer.Panic? <==> SizeAlign(layout).None?
      ensures Moves(old(Clients()), Take, Clients())
    {
      LiveMoves(heap, layout, 0);
      hide LinkedList.Alloc, LinkedList.Valid, Links, ChecksHold, AfterCarve, Preserved,
           AllocFromRegion, SizeAlign;
      var adjusted := SizeAlign(layout);
      if adjusted.None? {
        AllocPanics(heap, layout);
        PreservedTwice(mem, mem, mem, LiveRegions(heap.live));
        return Panic;  // "adjusting alignment failed"
      }
      var a := adjusted.value;
      AllocOutcome(heap, layout);
      var found := FindRegion(a);
      ghost var mem1 := mem;
      if found.None? {
        return Null;
      }
      ghost var i := FirstFit(heap.free, a);
      var allocEnd := found.value.allocStart + a.size;
      if allocEnd >= USIZE {
        return Panic;  // "overflow"
      }
      var ok := ReturnExcess(found.value, allocEnd, a.size, i);
      if !ok {
        return Panic;
      }
      PreservedTwice(old(mem), mem1, mem, LiveRegions(heap.live));
      heap := LinkedList.Alloc(heap, layout).0;
      return Pointer(found.value.allocStart);
    }

    // `i` names the live block that the client frees with its own layout.
    method Dealloc(ptr: nat, layout: Layout, ghost i: nat) returns (ok: bool)
      requires Inv() && i < |heap.live|
      requires heap.live[i].region.start == ptr && heap.live[i].layout == layout
      modifies this
      ensures ok && Inv()
      ensures heap == LinkedList.Dealloc(old(heap), i)
      ensures Moves(old(Clients()), Release(i), Clients())
    {
      assert LiveOk(heap.live[i]);
      LiveIsFreeOk(heap.live[i]);
      LiveInHeap(heap, i);
      DeallocKeepsValid(heap, i);
      LiveIsFar(heap, i);
      LiveMoves(heap, layout, i);
      ok := AddFreeRegion(ptr, SizeAlign(layout).value.size, heap.free);
      ghost var h' := LinkedList.Dealloc(heap, i);
      assert h'.free[0] == Region(ptr, SizeAlign(layout).value.size);
      FreeWordIsNotLive(h', 0, ptr);
      FreeWordIsNotLive(h', 0, ptr + 8);
      heap := h';
    }

    // A client stores something at `addr` inside its block; the word around it changes.
    method ClientWrite(i: nat, addr: nat, word: nat)
      requires Inv() && i < |heap.live| && heap.live[i].region.Contains(addr)
      modifies this`mem
      ensures Inv()
      ensures Moves(old(Clients()), Write(i, addr, word), Clients())
    {
      hide LinkedList.Valid, Links;
      LiveWordIsNotNode(heap, i, addr);
      ghost var before := mem;
      var w := WordOf(addr);
      mem := mem[w := word];
      LinksFrame(before, mem, head, heap.free);
    }
  }
}
