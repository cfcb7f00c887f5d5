/**
 What every GlobalAlloc implementation of the kernel owes its clients, independent of
 how it keeps track of memory.
 */
module AllocatorSpec {
  import opened Alignment
  import opened Regions

  // The heap of the kernel.
  const HEAP_START: nat := 0x4444_4444_0000
  const HEAP_SIZE: nat := 100 * 1024

  datatype Layout = Layout(size: nat, align: nat)

  // Guaranteed by core::alloc::Layout, plus the non-zero size GlobalAlloc::alloc demands. The
  // padded size is limited by usize, as in older versions of core; newer ones limit it by
  // isize::MAX.
  ghost predicate ValidLayout(l: Layout) {
    && l.size > 0
    && IsPow2(l.align) && l.align < USIZE
    && AlignUpByRemainder(l.size, l.align) < USIZE
  }

  // A block handed out and not freed yet.
  datatype Grant = Grant(ptr: nat, layout: Layout) {
    function Bytes(): Region {
      Region(ptr, layout.size)
    }
  }

  datatype Memory = Memory(start: nat, size: nat, live: seq<Grant>)

  // A call and its outcome: a pointer, a null pointer, or the i-th live block freed.
  datatype Call = Allocated(layout: Layout, ptr: nat) | Refused(layout: Layout) | Freed(i: nat)

  // A client call: allocate, or free the i-th live block with the layout it was
  // allocated with.
  datatype Op = AllocOp(layout: Layout) | FreeOp(i: nat)

  ghost predicate OpOk(op: Op) {
    op.AllocOp? ==> ValidLayout(op.layout)
  }

  ghost predicate InHeap(m: Memory, r: Region) {
    m.start <= r.start && r.End() <= m.start + m.size
  }

  ghost predicate WellPlaced(m: Memory, g: Grant) {
    ValidLayout(g.layout) && g.ptr % g.layout.align == 0 && InHeap(m, g.Bytes())
  }

  // The allocator may answer like this.
  ghost predicate Allowed(m: Memory, c: Call, m': Memory) {
    match c
    case Allocated(layout, ptr) =>
      var g := Grant(ptr, layout);
      && WellPlaced(m, g)
      && (forall i :: 0 <= i < |m.live| ==> Disjoint(m.live[i].Bytes(), g.Bytes()))
      && m' == m.(live := m.live + [g])
    case Refused(layout) => m' == m
    case Freed(i) => i < |m.live| && m' == m.(live := Without(m.live, i))
  }

  ghost predicate Safe(m: Memory) {
    && (forall i :: 0 <= i < |m.live| ==> WellPlaced(m, m.live[i]))
    && (forall i, j :: 0 <= i < j < |m.live| ==> Disjoint(m.live[i].Bytes(), m.live[j].Bytes()))
  }

  lemma {:induction false} AllowedKeepsSafe(m: Memory, c: Call, m': Memory)
    requires Safe(m) && Allowed(m, c, m')
    ensures Safe(m')
  {
    match c
    case Allocated(layout, ptr) =>
    case Refused(layout) =>
    case Freed(i) =>
      assert forall k :: 0 <= k < |m'.live| ==> m'.live[k] == m.live[if k < i then k else k + 1];
  }

  // No address is covered twice, so two blocks are disjoint.
  lemma {:induction false} CoveredOnceIsDisjoint(s: seq<Region>, i: nat, j: nat)
    requires i < j < |s| && s[i].size > 0 && s[j].size > 0
    requires forall b: int :: Covers(s, b) <= 1
    ensures Disjoint(s[i], s[j])
  {
    if !Disjoint(s[i], s[j]) {
      var b := if s[i].start < s[j].start then s[j].start else s[i].start;
      SumAtLeastTwo(s, i, j, HitAt(b));
      assert Covers(s, b) <= 1;
    }
  }
}
