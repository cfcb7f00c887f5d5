/**
 The fixed-size block allocator on values: nine lists of free blocks over a fallback
 heap.

 The fallback is any allocator that meets AllocatorSpec: `fb` is the memory it has
 handed out to this allocator, and each call of it brings its own answer along.
 */
module FixedSize {
  import opened Options
  import opened Alignment
  import opened Regions
  import opened AllocatorSpec

  const BLOCK_SIZES: seq<nat> := [8, 16, 32, 64, 128, 256, 512, 1024, 2048]
  const CLASSES: nat := 9
  const NODE_SIZE: nat := 8  // a ListNode is one word

  function Required(l: Layout): nat {
    if l.size < l.align then l.align else l.size
  }

  // list_index: the first block size that is large enough.
  function ListIndex(l: Layout): (k: Option<nat>)
    ensures k.Some? ==> k.value < CLASSES && BLOCK_SIZES[k.value] >= Required(l)
    ensures k.Some? ==> forall j :: 0 <= j < k.value ==> BLOCK_SIZES[j] < Required(l)
    ensures k.None? <==> Required(l) > 2048
  {
    Position(Required(l), 0)
  }

  function Position(required: nat, from: nat): (k: Option<nat>)
    requires from <= CLASSES
    requires forall j :: 0 <= j < from ==> BLOCK_SIZES[j] < required
    ensures k.Some? ==> k.value < CLASSES && BLOCK_SIZES[k.value] >= required
    ensures k.Some? ==> forall j :: 0 <= j < k.value ==> BLOCK_SIZES[j] < required
    ensures k.None? <==> required > 2048
    decreases CLASSES - from
  {
    if from == CLASSES then assert BLOCK_SIZES[8] < required; None
    else if BLOCK_SIZES[from] >= required then Some(from)
    else Position(required, from + 1)
  }

  // The smallest block size that is at least the size and at least the alignment.
  lemma {:induction false} ListIndexIs(l: Layout, k: nat)
    ensures ListIndex(l) == Some(k) <==>
            && k < 9 && BLOCK_SIZES[k] >= l.size && BLOCK_SIZES[k] >= l.align
            && forall j :: 0 <= j < k ==> BLOCK_SIZES[j] < l.size || BLOCK_SIZES[j] < l.align
    ensures ListIndex(l) == None <==> l.size > 2048 || l.align > 2048
  {
    hide Position;
    if k < 9 && ListIndex(l).Some? {
      var i := ListIndex(l).value;
      assert BLOCK_SIZES[i] >= l.size && BLOCK_SIZES[i] >= l.align;
      assert forall j :: 0 <= j < i ==> BLOCK_SIZES[j] < l.size || BLOCK_SIZES[j] < l.align;
    }
  }

  // Layout::from_size_align(block_size, block_size)
  function ClassLayout(k: nat): Layout
    requires k < CLASSES
  {
    Layout(BLOCK_SIZES[k], BLOCK_SIZES[k])
  }

  lemma {:induction false} BlockSizeIsPow2(k: nat)
    requires k < CLASSES
    ensures BLOCK_SIZES[k] == Pow2(k + 3) && IsPow2(BLOCK_SIZES[k])
  {
    if k == 0 {
      assert Pow2(3) == 8;
    } else {
      BlockSizeIsPow2(k - 1);
      assert Pow2(k + 3) == 2 * Pow2(k + 2);
      assert BLOCK_SIZES[k] == 2 * BLOCK_SIZES[k - 1];
    }
  }

  datatype State = State(
    lists: seq<seq<nat>>,  // free blocks of each class, first one on top
    live: seq<Grant>,      // blocks in the hands of clients
    fb: Memory,            // blocks taken from the fallback
    taken: seq<nat>        // how many were taken for each class, ever
  )

  // The fallback block behind a client's block.
  function Backing(g: Grant): Grant {
    var k := ListIndex(g.layout);
    if k.Some? then Grant(g.ptr, ClassLayout(k.value)) else g
  }

  function Backings(live: seq<Grant>): (r: seq<Grant>)
    ensures |r| == |live| && forall i :: 0 <= i < |live| ==> r[i] == Backing(live[i])
  {
    seq(|live|, i requires 0 <= i < |live| => Backing(live[i]))
  }

  function ListGrants(list: seq<nat>, k: nat): (r: seq<Grant>)
    requires k < CLASSES
    ensures |r| == |list| && forall i :: 0 <= i < |list| ==> r[i] == Grant(list[i], ClassLayout(k))
  {
    seq(|list|, i requires 0 <= i < |list| => Grant(list[i], ClassLayout(k)))
  }

  // The free blocks of the classes below k, as the fallback granted them.
  ghost function FreeGrants(lists: seq<seq<nat>>, k: nat): multiset<Grant>
    requires |lists| == CLASSES && k <= |lists|
  {
    if k == 0 then multiset{} else FreeGrants(lists, k - 1) + multiset(ListGrants(lists[k - 1], k - 1))
  }

  // Everything this allocator holds: the free blocks and those behind live blocks.
  ghost function Held(s: State): multiset<Grant>
    requires |s.lists| == CLASSES
  {
    FreeGrants(s.lists, |s.lists|) + multiset(Backings(s.live))
  }

  ghost predicate Valid(s: State) {
    && |s.lists| == CLASSES && |s.taken| == CLASSES
    && 0 < s.fb.start && s.fb.start + s.fb.size <= ADDRESS_LIMIT
    && Safe(s.fb)
    && Held(s) == multiset(s.fb.live)
    && (forall i :: 0 <= i < |s.live| ==> ValidLayout(s.live[i].layout))
    && (forall k :: 0 <= k < CLASSES ==> TakenOk(s, k))
  }

  // Blocks of class k are on the list or behind live blocks.
  ghost predicate TakenOk(s: State, k: nat)
    requires k < |s.lists| && k < |s.taken|
  {
    s.taken[k] == |s.lists[k]| + LiveCount(s.live, k)
  }

  function InClass(k: nat): Grant -> nat {
    (g: Grant) => if ListIndex(g.layout) == Some(k) then 1 else 0
  }

  function LiveCount(live: seq<Grant>, k: nat): nat {
    SumOf(live, InClass(k))
  }

  lemma {:induction false} NoFreeGrants(lists: seq<seq<nat>>, n: nat)
    requires |lists| == CLASSES && n <= CLASSES
    requires forall k :: 0 <= k < CLASSES ==> lists[k] == []
    ensures FreeGrants(lists, n) == multiset{}
    decreases n
  {
    if n == 0 {
    } else {
      NoFreeGrants(lists, n - 1);
    }
  }

  function Init(start: nat, size: nat): (s: State)
    ensures 0 < start && start + size <= ADDRESS_LIMIT ==> Valid(s)
  {
    var s := State(seq(CLASSES, i => []), [], Memory(start, size, []), seq(CLASSES, i => 0));
    NoFreeGrants(s.lists, |s.lists|);
    s
  }

  datatype Answer = Pointer(ptr: nat) | Null

  // The layout with which the fallback is asked, if it is asked at all.
  function Asked(s: State, l: Layout): Option<Layout>
    requires |s.lists| == CLASSES
  {
    match ListIndex(l)
    case None => Some(l)
    case Some(k) => if s.lists[k] == [] then Some(ClassLayout(k)) else None
  }

  function Granted(s: State, l: Layout, asked: Layout, ptr: nat): State
    requires |s.taken| == CLASSES
  {
    var k := ListIndex(l);
    s.(live := s.live + [Grant(ptr, l)],
    fb := s.fb.(live := s.fb.live + [Grant(ptr, asked)]),
    taken := if k.Some? then s.taken[k.value := s.taken[k.value] + 1] else s.taken)
  }

  // alloc; `answer` is what allocate_first_fit returns if it is called.
  function Alloc(s: State, l: Layout, answer: Option<nat>): (State, Answer)
    requires |s.lists| == CLASSES && |s.taken| == CLASSES
  {
    match Asked(s, l)
    case None =>
      var k := ListIndex(l).value;
      var ptr := s.lists[k][0];
      (s.(lists := s.lists[k := s.lists[k][1..]], live := s.live + [Grant(ptr, l)]), Pointer(ptr))
    case Some(asked) =>
      if answer.None? then (s, Null) else (Granted(s, l, asked, answer.value), Pointer(answer.value))
  }

  // The fallback keeps to its specification.
  ghost predicate AnswerOk(s: State, l: Layout, answer: Option<nat>)
    requires |s.lists| == CLASSES
  {
    var asked := Asked(s, l);
    asked.Some? && answer.Some? ==>
      var g := Grant(answer.value, asked.value);
      Allowed(s.fb, Allocated(asked.value, answer.value), s.fb.(live := s.fb.live + [g]))
  }

  function IndexOf(gs: seq<Grant>, g: Grant): (i: nat)
    ensures i <= |gs|
    ensures g in gs ==> i < |gs| && gs[i] == g
  {
    if gs == [] || gs[0] == g then 0 else 1 + IndexOf(gs[1..], g)
  }

  // dealloc of the i-th live block
  function Dealloc(s: State, i: nat): State
    requires |s.lists| == CLASSES && i < |s.live|
  {
    var g := s.live[i];
    var s1 := s.(live := Without(s.live, i));
    match ListIndex(g.layout)
    case Some(k) => s1.(lists := s.lists[k := [g.ptr] + s.lists[k]])
    case None =>
      var j := IndexOf(s.fb.live, g);
      if j == |s.fb.live| then s1  // not a block of the fallback
      else s1.(fb := s.fb.(live := Without(s.fb.live, j)))
  }
}
