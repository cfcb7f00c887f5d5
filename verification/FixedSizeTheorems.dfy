/**
 What holds of the fixed-size block allocator over every run, given only that the
 fallback heap keeps to AllocatorSpec.
 */
module FixedSizeTheorems {
  import opened Options
  import opened Alignment
  import opened Regions
  import opened AllocatorSpec
  import opened FixedSize

  // -------- bookkeeping --------

  lemma {:induction false} MultisetWithout<T>(s: seq<T>, i: nat)
    requires i < |s|
    ensures multiset(s) == multiset(Without(s, i)) + multiset{s[i]}
  {
    assert s == s[..i] + [s[i]] + s[i + 1..];
  }

  lemma {:induction false} SwapAcross<T>(a: multiset<T>, b: multiset<T>, x: multiset<T>, y: multiset<T>, c: multiset<T>)
    requires a + x == b + y
    ensures a + c + x == b + c + y
  {
    assert a + c + x == (a + x) + c;
    assert b + c + y == (b + y) + c;
  }

  lemma {:induction false} Cancel<T>(a: multiset<T>, b: multiset<T>, x: multiset<T>, y: multiset<T>)
    requires a + x == b + (y + x)
    ensures a == b + y
  {
    assert forall e :: a[e] + x[e] == (a + x)[e] && b[e] + (y[e] + x[e]) == (b + (y + x))[e];
  }

  lemma {:induction false} CancelOne<T>(a: multiset<T>, b: multiset<T>, x: multiset<T>)
    requires a + x == b + x
    ensures a == b
  {
    assert b + x == b + (multiset{} + x);
    Cancel(a, b, x, multiset{});
  }

  lemma {:induction false} FreeGrantsUpdate(lists: seq<seq<nat>>, k: nat, list: seq<nat>, n: nat)
    requires |lists| == CLASSES && k < CLASSES && n <= CLASSES
    ensures var lists' := lists[k := list];
      if n <= k then FreeGrants(lists', n) == FreeGrants(lists, n)
      else FreeGrants(lists', n) + multiset(ListGrants(lists[k], k))
           == FreeGrants(lists, n) + multiset(ListGrants(list, k))
    decreases n
  {
    hide ListGrants, ClassLayout;
    if n == 0 {
    } else {
      FreeGrantsUpdate(lists, k, list, n - 1);
      var lists' := lists[k := list];
      var old', new' := multiset(ListGrants(lists[k], k)), multiset(ListGrants(list, k));
      if n - 1 > k {
        SwapAcross(FreeGrants(lists', n - 1), FreeGrants(lists, n - 1), old', new', multiset(ListGrants(lists[n - 1], n - 1)));
      } else if n - 1 == k {
        assert FreeGrants(lists', n) == FreeGrants(lists, k) + new';
        assert FreeGrants(lists, n) == FreeGrants(lists, k) + old';
      }
    }
  }

  // Taking the top block off list k, or putting one back, as multisets of grants.
  lemma {:induction false} PushOnList(lists: seq<seq<nat>>, k: nat, ptr: nat)
    requires |lists| == CLASSES && k < CLASSES
    ensures FreeGrants(lists[k := [ptr] + lists[k]], |lists|)
            == FreeGrants(lists, |lists|) + multiset{Grant(ptr, ClassLayout(k))}
  {
    hide FreeGrants, ClassLayout;
    var g := Grant(ptr, ClassLayout(k));
    assert ListGrants([ptr] + lists[k], k) == [g] + ListGrants(lists[k], k);
    var list := [ptr] + lists[k];
    FreeGrantsUpdate(lists, k, list, |lists|);
    Cancel(FreeGrants(lists[k := list], |lists|), FreeGrants(lists, |lists|),
           multiset(ListGrants(lists[k], k)), multiset{g});
  }

  lemma {:induction false} PopOffList(lists: seq<seq<nat>>, k: nat)
    requires |lists| == CLASSES && k < CLASSES && lists[k] != []
    ensures FreeGrants(lists, |lists|)
            == FreeGrants(lists[k := lists[k][1..]], |lists|) + multiset{Grant(lists[k][0], ClassLayout(k))}
  {
    hide FreeGrants, ClassLayout;
    var rest := lists[k := lists[k][1..]];
    PushOnList(rest, k, lists[k][0]);
    assert [lists[k][0]] + rest[k] == lists[k];
    assert rest[k := lists[k]] == lists;
  }

  lemma {:induction false} BackingsAppend(live: seq<Grant>, g: Grant)
    ensures Backings(live + [g]) == Backings(live) + [Backing(g)]
  {
  }

  lemma {:induction false} BackingsWithout(live: seq<Grant>, i: nat)
    requires i < |live|
    ensures multiset(Backings(live)) == multiset(Backings(Without(live, i))) + multiset{Backing(live[i])}
  {
    assert Backings(Without(live, i)) == Without(Backings(live), i);
    MultisetWithout(Backings(live), i);
  }

  // -------- every call keeps the allocator valid --------

  lemma {:induction false} CountAppend(s: State, s': State, g: Grant, j: nat)
    requires |s.lists| == |s'.lists| == |s.taken| == |s'.taken| == CLASSES && j < CLASSES
    requires TakenOk(s, j) && s'.live == s.live + [g]
    requires s'.taken[j] - |s'.lists[j]| == s.taken[j] - |s.lists[j]| + InClass(j)(g)
    ensures TakenOk(s', j)
  {
    hide ListIndex, InClass;
    SumAppend(s.live, g, InClass(j));
  }

  lemma {:induction false} CountWithout(s: State, s': State, i: nat, j: nat)
    requires |s.lists| == |s'.lists| == |s.taken| == |s'.taken| == CLASSES && j < CLASSES
    requires i < |s.live| && TakenOk(s, j) && s'.live == Without(s.live, i)
    requires s'.taken[j] - |s'.lists[j]| == s.taken[j] - |s.lists[j]| - InClass(j)(s.live[i])
    ensures TakenOk(s', j)
  {
    hide ListIndex, InClass;
    SumWithout(s.live, i, InClass(j));
  }

  lemma {:induction false} PopKeepsValid(s: State, l: Layout)
    requires Valid(s) && ValidLayout(l) && Asked(s, l).None?
    ensures Valid(Alloc(s, l, None).0)
  {
    hide FreeGrants, ClassLayout, TakenOk, Safe, LiveCount;
    var k := ListIndex(l).value;
    var ptr := s.lists[k][0];
    var s' := Alloc(s, l, None).0;
    assert Held(s') == Held(s) by {
      PopOffList(s.lists, k);
      BackingsAppend(s.live, Grant(ptr, l));
    }
    forall j | 0 <= j < CLASSES
      ensures TakenOk(s', j)
    {
      CountAppend(s, s', Grant(ptr, l), j);
    }
  }

  lemma {:induction false} GrantKeepsHeld(s: State, l: Layout, asked: Layout, ptr: nat)
    requires Valid(s) && Asked(s, l) == Some(asked)
    ensures var s' := Granted(s, l, asked, ptr);
      |s'.lists| == CLASSES && Held(s') == multiset(s'.fb.live)
  {
    hide FreeGrants, TakenOk, Safe;
    BackingsAppend(s.live, Grant(ptr, l));
    assert Backing(Grant(ptr, l)) == Grant(ptr, asked);
  }

  lemma {:induction false} GrantKeepsValid(s: State, l: Layout, asked: Layout, ptr: nat)
    requires Valid(s) && ValidLayout(l) && Asked(s, l) == Some(asked) && AnswerOk(s, l, Some(ptr))
    ensures Valid(Granted(s, l, asked, ptr))
  {
    hide Held, TakenOk, Safe, LiveCount, Allowed, ClassLayout, ValidLayout;
    var s' := Granted(s, l, asked, ptr);
    AllowedKeepsSafe(s.fb, Allocated(asked, ptr), s'.fb);
    GrantKeepsHeld(s, l, asked, ptr);
    forall j | 0 <= j < CLASSES
      ensures TakenOk(s', j)
    {
      CountAppend(s, s', Grant(ptr, l), j);
    }
  }

  lemma {:induction false} AllocKeepsValid(s: State, l: Layout, answer: Option<nat>)
    requires Valid(s) && ValidLayout(l) && AnswerOk(s, l, answer)
    ensures Valid(Alloc(s, l, answer).0)
  {
    if Asked(s, l).None? {
      PopKeepsValid(s, l);
    } else if answer.Some? {
      GrantKeepsValid(s, l, Asked(s, l).value, answer.value);
    }
  }

  lemma {:induction false} ClassFreeKeepsHeld(s: State, i: nat)
    requires Valid(s) && i < |s.live| && ListIndex(s.live[i].layout).Some?
    ensures |Dealloc(s, i).lists| == CLASSES && Held(Dealloc(s, i)) == Held(s)
  {
    hide FreeGrants, ClassLayout, TakenOk, Safe;
    var g := s.live[i];
    PushOnList(s.lists, ListIndex(g.layout).value, g.ptr);
    BackingsWithout(s.live, i);
  }

  lemma {:induction false} ClassFreeKeepsValid(s: State, i: nat)
    requires Valid(s) && i < |s.live| && ListIndex(s.live[i].layout).Some?
    ensures Valid(Dealloc(s, i))
  {
    hide Held, ClassLayout, TakenOk, Safe, LiveCount, ValidLayout;
    var s' := Dealloc(s, i);
    ClassFreeKeepsHeld(s, i);
    forall j | 0 <= j < CLASSES
      ensures TakenOk(s', j)
    {
      CountWithout(s, s', i, j);
    }
    forall j | 0 <= j < |s'.live|
      ensures ValidLayout(s'.live[j].layout)
    {
      assert s'.live[j] == s.live[if j < i then j else j + 1];
    }
  }

  // A large block is given back to the fallback as the fallback granted it.
  lemma {:induction false} LargeBlockIsGranted(s: State, i: nat)
    requires Valid(s) && i < |s.live| && ListIndex(s.live[i].layout).None?
    ensures s.live[i] in s.fb.live
  {
    hide FreeGrants, TakenOk, Safe;
    assert Backings(s.live)[i] == s.live[i];
    assert s.live[i] in Held(s);
  }

  lemma {:induction false} LargeFreeIsAllowed(s: State, i: nat)
    requires Valid(s) && i < |s.live| && ListIndex(s.live[i].layout).None?
    ensures exists n :: Allowed(s.fb, Freed(n), Dealloc(s, i).fb)
  {
    hide Held, TakenOk, Safe;
    LargeBlockIsGranted(s, i);
    assert Allowed(s.fb, Freed(IndexOf(s.fb.live, s.live[i])), Dealloc(s, i).fb);
  }

  lemma {:induction false} LargeFreeKeepsHeld(s: State, i: nat)
    requires Valid(s) && i < |s.live| && ListIndex(s.live[i].layout).None?
    ensures var s' := Dealloc(s, i);
      && |s'.lists| == CLASSES && Held(s') == multiset(s'.fb.live)
  {
    hide FreeGrants, TakenOk, Safe, Allowed;
    var g := s.live[i];
    var s' := Dealloc(s, i);
    LargeBlockIsGranted(s, i);
    var n := IndexOf(s.fb.live, g);
    MultisetWithout(s.fb.live, n);
    BackingsWithout(s.live, i);
    assert Held(s) == Held(s') + multiset{g};
    CancelOne(Held(s'), multiset(s'.fb.live), multiset{g});
  }

  lemma {:induction false} LargeFreeKeepsValid(s: State, i: nat)
    requires Valid(s) && i < |s.live| && ListIndex(s.live[i].layout).None?
    ensures Valid(Dealloc(s, i))
  {
    hide Held, TakenOk, Safe, LiveCount, Allowed, ClassLayout;
    var s' := Dealloc(s, i);
    LargeFreeKeepsHeld(s, i);
    LargeFreeIsAllowed(s, i);
    var n :| Allowed(s.fb, Freed(n), s'.fb);
    AllowedKeepsSafe(s.fb, Freed(n), s'.fb);
    forall j | 0 <= j < CLASSES
      ensures TakenOk(s', j)
    {
      CountWithout(s, s', i, j);
    }
    forall j | 0 <= j < |s'.live|
      ensures ValidLayout(s'.live[j].layout)
    {
      assert s'.live[j] == s.live[if j < i then j else j + 1];
    }
  }

  lemma {:induction false} DeallocKeepsValid(s: State, i: nat)
    requires Valid(s) && i < |s.live|
    ensures Valid(Dealloc(s, i))
  {
    if ListIndex(s.live[i].layout).Some? {
      ClassFreeKeepsValid(s, i);
    } else {
      LargeFreeKeepsValid(s, i);
    }
  }

  // -------- runs --------

  // A client call, together with what the fallback answers if it is asked.
  datatype Request = Ask(layout: Layout, answer: Option<nat>) | GiveBack(i: nat)

  ghost predicate RequestOk(s: State, op: Request)
    requires |s.lists| == CLASSES
  {
    op.Ask? ==> ValidLayout(op.layout) && AnswerOk(s, op.layout, op.answer)
  }

  function Step(s: State, op: Request): (s': State)
    requires |s.lists| == CLASSES && |s.taken| == CLASSES
    ensures |s'.lists| == CLASSES && |s'.taken| == CLASSES
  {
    match op
    case Ask(l, answer) => Alloc(s, l, answer).0
    case GiveBack(i) => if i < |s.live| then Dealloc(s, i) else s
  }

  lemma {:induction false} StepKeepsValid(s: State, op: Request)
    requires Valid(s) && RequestOk(s, op)
    ensures Valid(Step(s, op))
  {
    hide Valid, AnswerOk, ValidLayout;
    match op
    case Ask(l, answer) => AllocKeepsValid(s, l, answer);
    case GiveBack(i) =>
      if i < |s.live| {
        DeallocKeepsValid(s, i);
      }
  }

  ghost predicate RunOk(s: State, ops: seq<Request>)
    requires Valid(s)
    decreases |ops|
  {
    ops == [] ||
    (RequestOk(s, ops[0]) && (StepKeepsValid(s, ops[0]); RunOk(Step(s, ops[0]), ops[1..])))
  }

  ghost function Run(s: State, ops: seq<Request>): (s': State)
    requires Valid(s) && RunOk(s, ops)
    ensures Valid(s')
    decreases |ops|
  {
    if ops == [] then s
    else
      StepKeepsValid(s, ops[0]);
      Run(Step(s, ops[0]), ops[1..])
  }

  lemma {:induction false} ValidHasClasses(s: State)
    requires Valid(s)
    ensures |s.lists| == CLASSES && |s.taken| == CLASSES
  {
  }

  // -------- no block is in two places --------

  // A place where the allocator keeps a block: on a list, or behind a live block.
  datatype Slot = FreeSlot(k: nat, i: nat) | LiveSlot(i: nat)

  predicate IsSlot(s: State, p: Slot)
    requires |s.lists| == CLASSES
  {
    match p
    case FreeSlot(k, i) => k < CLASSES && i < |s.lists[k]|
    case LiveSlot(i) => i < |s.live|
  }

  function GrantAt(s: State, p: Slot): Grant
    requires |s.lists| == CLASSES && IsSlot(s, p)
  {
    match p
    case FreeSlot(k, i) => Grant(s.lists[k][i], ClassLayout(k))
    case LiveSlot(i) => Backing(s.live[i])
  }

  lemma {:induction false} PairOf<T>(s: seq<T>, i: nat, j: nat)
    requires i < |s| && j < |s| && i != j
    ensures multiset{s[i]} + multiset{s[j]} <= multiset(s)
  {
    MultisetWithout(s, i);
    var j' := if j < i then j else j - 1;
    assert Without(s, i)[j'] == s[j];
    MultisetWithout(Without(s, i), j');
  }

  lemma {:induction false} PairIn<T>(s: seq<T>, x: T, y: T) returns (i: nat, j: nat)
    requires multiset{x} + multiset{y} <= multiset(s)
    ensures i < |s| && j < |s| && i != j && s[i] == x && s[j] == y
  {
    assert x in multiset(s);
    i :| i < |s| && s[i] == x;
    MultisetWithout(s, i);
    assert y in multiset(Without(s, i)) by {
      assert (multiset{x} + multiset{y})[y] <= multiset(s)[y];
    }
    var j' :| 0 <= j' < |s| - 1 && Without(s, i)[j'] == y;
    j := if j' < i then j' else j' + 1;
  }

  lemma {:induction false} ListInFree(lists: seq<seq<nat>>, k: nat, n: nat)
    requires |lists| == CLASSES && k < n <= |lists|
    ensures multiset(ListGrants(lists[k], k)) <= FreeGrants(lists, n)
    decreases n
  {
    hide ListGrants;
    if k < n - 1 {
      ListInFree(lists, k, n - 1);
    }
  }

  lemma {:induction false} ListsInFree(lists: seq<seq<nat>>, k: nat, k': nat, n: nat)
    requires |lists| == CLASSES && k < k' < n <= |lists|
    ensures multiset(ListGrants(lists[k], k)) + multiset(ListGrants(lists[k'], k')) <= FreeGrants(lists, n)
    decreases n
  {
    hide ListGrants;
    if k' < n - 1 {
      ListsInFree(lists, k, k', n - 1);
    } else {
      ListInFree(lists, k, n - 1);
    }
  }

  lemma {:induction false} FreeSlotsHeld(lists: seq<seq<nat>>, k: nat, i: nat, k': nat, i': nat)
    requires |lists| == CLASSES && k <= k' < CLASSES && i < |lists[k]| && i' < |lists[k']| && (k, i) != (k', i')
    ensures multiset{Grant(lists[k][i], ClassLayout(k))} + multiset{Grant(lists[k'][i'], ClassLayout(k'))}
            <= FreeGrants(lists, |lists|)
  {
    hide FreeGrants, ClassLayout;
    var a, b := ListGrants(lists[k], k), ListGrants(lists[k'], k');
    assert a[i] == Grant(lists[k][i], ClassLayout(k)) && b[i'] == Grant(lists[k'][i'], ClassLayout(k'));
    if k == k' {
      PairOf(a, i, i');
      ListInFree(lists, k, |lists|);
    } else {
      assert a[i] in multiset(a) && b[i'] in multiset(b);
      ListsInFree(lists, k, k', |lists|);
    }
  }

  // Two different slots hold two grants of the fallback.
  lemma {:induction false} SlotsHeld(s: State, p: Slot, q: Slot)
    requires |s.lists| == CLASSES && IsSlot(s, p) && IsSlot(s, q) && p != q
    ensures multiset{GrantAt(s, p)} + multiset{GrantAt(s, q)} <= Held(s)
  {
    hide FreeGrants, ClassLayout, Backing;
    var behind := Backings(s.live);
    match (p, q)
    case (FreeSlot(k, i), FreeSlot(k', i')) =>
      if k <= k' {
        FreeSlotsHeld(s.lists, k, i, k', i');
      } else {
        FreeSlotsHeld(s.lists, k', i', k, i);
      }
    case (FreeSlot(k, i), LiveSlot(j)) => FreeAndLiveHeld(s, k, i, j);
    case (LiveSlot(j), FreeSlot(k, i)) => FreeAndLiveHeld(s, k, i, j);
    case (LiveSlot(i), LiveSlot(j)) =>
      assert behind[i] == Backing(s.live[i]) && behind[j] == Backing(s.live[j]);
      PairOf(behind, i, j);
  }

  lemma {:induction false} FreeAndLiveHeld(s: State, k: nat, i: nat, j: nat)
    requires |s.lists| == CLASSES && k < CLASSES && i < |s.lists[k]| && j < |s.live|
    ensures multiset{Grant(s.lists[k][i], ClassLayout(k))} + multiset{Backing(s.live[j])} <= Held(s)
  {
    hide FreeGrants, ClassLayout, Backing;
    var a, behind := ListGrants(s.lists[k], k), Backings(s.live);
    ListInFree(s.lists, k, |s.lists|);
    assert a[i] == Grant(s.lists[k][i], ClassLayout(k)) && a[i] in multiset(a);
    assert behind[j] == Backing(s.live[j]) && behind[j] in multiset(behind);
  }

  // Blocks on the lists and behind live blocks never overlap, so no block is on two
  // lists, or twice on one, or on a list while a client has it.
  lemma {:induction false} SlotsAreDisjoint(s: State, p: Slot, q: Slot)
    requires Valid(s) && IsSlot(s, p) && IsSlot(s, q) && p != q
    ensures Disjoint(GrantAt(s, p).Bytes(), GrantAt(s, q).Bytes())
  {
    hide Held, GrantAt, TakenOk;
    SlotsHeld(s, p, q);
    var i, j := PairIn(s.fb.live, GrantAt(s, p), GrantAt(s, q));
    var a, b := if i < j then i else j, if i < j then j else i;
    assert Disjoint(s.fb.live[a].Bytes(), s.fb.live[b].Bytes());
  }

  // Each of them was granted with its class as size and alignment, or with the client's
  // own layout, and lies where that layout wants it.
  lemma {:induction false} SlotsAreGranted(s: State, p: Slot)
    requires Valid(s) && IsSlot(s, p)
    ensures GrantAt(s, p) in s.fb.live && WellPlaced(s.fb, GrantAt(s, p))
  {
    hide FreeGrants, TakenOk, WellPlaced, ClassLayout, Backing;
    assert GrantAt(s, p) in Held(s) by {
      match p
      case FreeSlot(k, i) =>
        ListInFree(s.lists, k, |s.lists|);
        assert ListGrants(s.lists[k], k)[i] in multiset(ListGrants(s.lists[k], k));
      case LiveSlot(i) =>
        assert Backings(s.live)[i] in multiset(Backings(s.live));
    }
    var n :| 0 <= n < |s.fb.live| && s.fb.live[n] == GrantAt(s, p);
  }

  // -------- refinement of the common specification --------

  // Every block on list k was granted with that size and alignment, and so was the block
  // behind every small request; a large one was granted as it was asked for.
  lemma {:induction false} BlocksAreGranted(s: State, k: nat, i: nat)
    requires Valid(s) && k < 9
    ensures i < |s.lists[k]| ==>
              && Grant(s.lists[k][i], Layout(BLOCK_SIZES[k], BLOCK_SIZES[k])) in s.fb.live
              && s.lists[k][i] % BLOCK_SIZES[k] == 0
    ensures i < |s.live| && ListIndex(s.live[i].layout) == Some(k) ==>
              Grant(s.live[i].ptr, Layout(BLOCK_SIZES[k], BLOCK_SIZES[k])) in s.fb.live
    ensures i < |s.live| && ListIndex(s.live[i].layout) == None ==> s.live[i] in s.fb.live
  {
    ValidHasClasses(s);
    hide Valid, ListIndex;
    if i < |s.lists[k]| {
      SlotsAreGranted(s, FreeSlot(k, i));
    }
    if i < |s.live| {
      SlotsAreGranted(s, LiveSlot(i));
    }
  }

  // A fresh allocator asks a fallback that may hand out the whole heap and nothing else.
  lemma {:induction false} FreshHeapIsWhole(start: nat, size: nat, l: Layout, ptr: nat)
    requires ValidLayout(l) && l.size > 2048
    ensures AnswerOk(Init(start, size), l, Some(ptr)) <==>
            start <= ptr && ptr + l.size <= start + size && ptr % l.align == 0
    ensures Init(start, size).live == [] && forall k :: 0 <= k < 9 ==> Init(start, size).lists[k] == []
  {
    hide Position;
  }

  function Abs(s: State): Memory {
    Memory(s.fb.start, s.fb.size, s.live)
  }

  // The block behind a live block contains it and is aligned for it.
  lemma {:induction false} BackingServes(s: State, i: nat)
    requires Valid(s) && i < |s.live|
    ensures WellPlaced(Abs(s), s.live[i])
    ensures var g := s.live[i]; g.layout.size <= Backing(g).layout.size && Backing(g).ptr == g.ptr
  {
    hide Held, TakenOk;
    var g := s.live[i];
    SlotsAreGranted(s, LiveSlot(i));
    var k := ListIndex(g.layout);
    if k.Some? {
      BlockSizeIsPow2(k.value);
      var a: nat :| g.layout.align == Pow2(a);
      Pow2Divides(BLOCK_SIZES[k.value], a);
      DividesTransitive(g.ptr, BLOCK_SIZES[k.value], g.layout.align);
    }
  }

  lemma {:induction false} LiveAreDisjoint(s: State, i: nat, j: nat)
    requires Valid(s) && i < |s.live| && j < |s.live| && i != j
    ensures Disjoint(s.live[i].Bytes(), s.live[j].Bytes())
  {
    BackingServes(s, i);
    BackingServes(s, j);
    SlotsAreDisjoint(s, LiveSlot(i), LiveSlot(j));
  }

  lemma {:induction false} AllocRefines(s: State, l: Layout, answer: Option<nat>)
    requires Valid(s) && ValidLayout(l) && AnswerOk(s, l, answer)
    ensures var (s', a) := Alloc(s, l, answer);
      Allowed(Abs(s), if a.Pointer? then Allocated(l, a.ptr) else Refused(l), Abs(s'))
  {
    AllocKeepsValid(s, l, answer);
    var (s', a) := Alloc(s, l, answer);
    hide Valid, AnswerOk, WellPlaced;
    if a.Pointer? {
      var n := |s.live|;
      assert s'.live == s.live + [Grant(a.ptr, l)] && s'.live[n] == Grant(a.ptr, l);
      BackingServes(s', n);
      WellPlacedFrame(Abs(s'), Abs(s), s'.live[n]);
      forall i | 0 <= i < n
        ensures Disjoint(s.live[i].Bytes(), Grant(a.ptr, l).Bytes())
      {
        LiveAreDisjoint(s', i, n);
      }
    }
  }

  lemma {:induction false} WellPlacedFrame(m: Memory, m': Memory, g: Grant)
    requires m.start == m'.start && m.size == m'.size && WellPlaced(m, g)
    ensures WellPlaced(m', g)
  {
  }

  lemma {:induction false} DeallocRefines(s: State, i: nat)
    requires Valid(s) && i < |s.live|
    ensures Allowed(Abs(s), Freed(i), Abs(Dealloc(s, i)))
  {
  }

  // Whatever mix of classes and large layouts is asked for, in every reachable state live
  // blocks are disjoint, aligned, large enough and inside the heap.
  lemma {:induction false} AllocatorStaysSafe(start: nat, size: nat, ops: seq<Request>)
    requires 0 < start && start + size <= ADDRESS_LIMIT
    requires RunOk(Init(start, size), ops)
    ensures Safe(Abs(Run(Init(start, size), ops)))
  {
    var s := Run(Init(start, size), ops);
    forall i | 0 <= i < |s.live|
      ensures WellPlaced(Abs(s), s.live[i])
    {
      BackingServes(s, i);
    }
    forall i, j | 0 <= i < j < |s.live|
      ensures Disjoint(s.live[i].Bytes(), s.live[j].Bytes())
    {
      LiveAreDisjoint(s, i, j);
    }
  }

  // -------- blocks are taken only at a new peak --------

  // The largest number of live blocks of class k in any state of the run.
  ghost function Peak(s: State, ops: seq<Request>, k: nat): nat
    requires Valid(s) && RunOk(s, ops)
    decreases |ops|
  {
    if ops == [] then LiveCount(s.live, k)
    else
      StepKeepsValid(s, ops[0]);
      Max(LiveCount(s.live, k), Peak(Step(s, ops[0]), ops[1..], k))
  }

  // A block of class k is taken only while list k is empty.
  lemma {:induction false} TakesWhenEmpty(s: State, op: Request, k: nat)
    requires |s.lists| == CLASSES && |s.taken| == CLASSES && k < CLASSES
    ensures var s' := Step(s, op);
      s'.taken[k] == s.taken[k] || (s'.taken[k] == s.taken[k] + 1 && s'.lists[k] == [])
  {
    hide ClassLayout;
  }

  lemma {:induction false} StepTakesAtPeak(s: State, op: Request, k: nat)
    requires Valid(s) && RequestOk(s, op) && k < CLASSES
    ensures Step(s, op).taken[k] == Max(s.taken[k], LiveCount(Step(s, op).live, k))
  {
    StepKeepsValid(s, op);
    TakesWhenEmpty(s, op, k);
    hide Step, Held, Safe, LiveCount, RequestOk, ValidLayout;
    assert TakenOk(s, k) && TakenOk(Step(s, op), k);
  }

  lemma {:induction false} TakenIsPeak(s: State, ops: seq<Request>, k: nat)
    requires Valid(s) && RunOk(s, ops) && k < CLASSES
    ensures Run(s, ops).taken[k] == Max(s.taken[k], Peak(s, ops, k))
    decreases |ops|
  {
    assert TakenOk(s, k);
    if ops == [] {
    } else {
      StepKeepsValid(s, ops[0]);
      StepTakesAtPeak(s, ops[0], k);
      hide Valid, Step, RequestOk, TakenOk;
      TakenIsPeak(Step(s, ops[0]), ops[1..], k);
      PeakAtLeast(Step(s, ops[0]), ops[1..], k);
    }
  }

  lemma {:induction false} PeakAtLeast(s: State, ops: seq<Request>, k: nat)
    requires Valid(s) && RunOk(s, ops)
    ensures Peak(s, ops, k) >= LiveCount(s.live, k)
  {
  }

  // High-water mark: for each class, the blocks ever taken from the fallback are as many
  // as were ever live at the same time.
  lemma {:induction false} HighWaterMark(start: nat, size: nat, ops: seq<Request>, k: nat)
    requires 0 < start && start + size <= ADDRESS_LIMIT && k < CLASSES
    requires RunOk(Init(start, size), ops)
    ensures Run(Init(start, size), ops).taken[k] == Peak(Init(start, size), ops, k)
  {
    TakenIsPeak(Init(start, size), ops, k);
  }

  // alloc answers null exactly when the fallback refuses and either the request is too
  // large for the classes or every block ever taken for its class is live.
  lemma {:induction false} NullExactly(s: State, l: Layout, answer: Option<nat>)
    requires Valid(s)
    ensures var k := ListIndex(l);
      Alloc(s, l, answer).1.Null? <==>
        answer.None? && (l.size > 2048 || l.align > 2048 || LiveCount(s.live, k.value) == s.taken[k.value])
    ensures Alloc(s, l, answer).1.Null? ==> Alloc(s, l, answer).0 == s
  {
    hide LiveCount, Held, Safe;
    if ListIndex(l).Some? {
      assert TakenOk(s, ListIndex(l).value);
    }
  }

  // After any run that is: as many blocks of its class are live as ever were at once.
  lemma {:induction false} NullAtThePeak(start: nat, size: nat, ops: seq<Request>, l: Layout, answer: Option<nat>)
    requires 0 < start && start + size <= ADDRESS_LIMIT && RunOk(Init(start, size), ops)
    ensures var s := Run(Init(start, size), ops);
      && |s.lists| == CLASSES && |s.taken| == CLASSES
      && (Alloc(s, l, answer).1.Null? <==>
            && answer.None?
            && (|| l.size > 2048 || l.align > 2048
                || LiveCount(s.live, ListIndex(l).value) == Peak(Init(start, size), ops, ListIndex(l).value)))
  {
    hide LiveCount, Peak, Held, Safe, Run, RunOk;
    NullExactly(Run(Init(start, size), ops), l, answer);
    if ListIndex(l).Some? {
      HighWaterMark(start, size, ops, ListIndex(l).value);
    }
  }

  // -------- how much rounding up costs --------

  // A class block is the smallest that fits: 8 bytes, or less than twice the size or the
  // alignment.
  lemma {:induction false} ClassIsTight(l: Layout)
    requires ListIndex(l).Some?
    ensures var block := BLOCK_SIZES[ListIndex(l).value];
      && block >= l.size && block >= l.align
      && (block == 8 || block <= 2 * (l.size - 1) || block <= 2 * (l.align - 1))
  {
    var k := ListIndex(l).value;
    if k > 0 {
      assert BLOCK_SIZES[k - 1] < Required(l);
      assert BLOCK_SIZES[k] == 2 * BLOCK_SIZES[k - 1];
    }
  }

  function BlockBytes(): Grant -> nat {
    (g: Grant) => if ListIndex(g.layout).Some? then BLOCK_SIZES[ListIndex(g.layout).value] else 0
  }

  function BoundBytes(): Grant -> nat {
    (g: Grant) =>
      if ListIndex(g.layout).None? then 0
      else if g.layout.size <= 5 && g.layout.align <= 5 then 8
      else if g.layout.size >= g.layout.align then 2 * (g.layout.size - 1)
      else 2 * (g.layout.align - 1)
  }

  lemma {:induction false} LiveBytesAreBounded(live: seq<Grant>)
    ensures SumOf(live, BlockBytes()) <= SumOf(live, BoundBytes())
  {
    if live == [] {
    } else {
      if ListIndex(live[0].layout).Some? {
        ClassIsTight(live[0].layout);
      }
      hide ListIndex;
      assert BlockBytes()(live[0]) <= BoundBytes()(live[0]);
      LiveBytesAreBounded(live[1..]);
    }
  }

  // After any run: the class blocks in use are granted by the fallback, and together they
  // are at most that large.
  lemma {:induction false} BlocksInUseAreBounded(start: nat, size: nat, ops: seq<Request>)
    requires 0 < start && start + size <= ADDRESS_LIMIT && RunOk(Init(start, size), ops)
    ensures var s := Run(Init(start, size), ops);
      && SumOf(s.live, BlockBytes()) <= SumOf(s.live, BoundBytes())
      && forall i :: 0 <= i < |s.live| && ListIndex(s.live[i].layout).Some? ==>
           Backing(s.live[i]) in s.fb.live && Backing(s.live[i]).layout.size == BlockBytes()(s.live[i])
  {
    var s := Run(Init(start, size), ops);
    LiveBytesAreBounded(s.live);
    hide Valid, RunOk, Run, SumOf;
    forall i | 0 <= i < |s.live| && ListIndex(s.live[i].layout).Some?
      ensures Backing(s.live[i]) in s.fb.live
    {
      ValidHasClasses(s);
      SlotsAreGranted(s, LiveSlot(i));
    }
  }

  // -------- free, then allocate --------

  // Freeing a class block and asking for the same layout gives the same block back, with
  // no call of the fallback and every list as it was.
  lemma {:induction false} FreeThenAlloc(s: State, i: nat, answer: Option<nat>)
    requires Valid(s) && i < |s.live| && ListIndex(s.live[i].layout).Some?
    ensures var g := s.live[i];
      var s1 := Dealloc(s, i);
      && |s1.lists| == CLASSES && |s1.taken| == CLASSES && Asked(s1, g.layout).None?
      && Alloc(s1, g.layout, answer) == (s.(live := Without(s.live, i) + [g]), Pointer(g.ptr))
  {
    hide Held, Safe, TakenOk;
    var g := s.live[i];
    var k := ListIndex(g.layout).value;
    assert ([g.ptr] + s.lists[k])[1..] == s.lists[k];
    assert s.lists[k := [g.ptr] + s.lists[k]][k := s.lists[k]] == s.lists;
  }

  function Cycles(l: Layout, last: nat, n: nat): seq<Request> {
    if n == 0 then [] else [GiveBack(last), Ask(l, None)] + Cycles(l, last, n - 1)
  }

  lemma {:induction false} CycleIsIdentity(s: State)
    requires Valid(s) && |s.live| > 0 && ListIndex(s.live[|s.live| - 1].layout).Some?
    ensures var last := |s.live| - 1;
      var l := s.live[last].layout;
      var s1 := Step(s, GiveBack(last));
      && RequestOk(s, GiveBack(last)) && Valid(s1)
      && RequestOk(s1, Ask(l, None)) && Step(s1, Ask(l, None)) == s
  {
    hide Held, Safe, TakenOk, ValidLayout, Dealloc, Alloc, ListIndex;
    var last := |s.live| - 1;
    DeallocKeepsValid(s, last);
    FreeThenAlloc(s, last, None);
    assert ValidLayout(s.live[last].layout);
    assert Without(s.live, last) + [s.live[last]] == s.live;
  }

  lemma {:induction false} RunTwo(s: State, a: Request, b: Request, rest: seq<Request>)
    requires Valid(s) && RequestOk(s, a) && Valid(Step(s, a)) && RequestOk(Step(s, a), b)
    requires Valid(Step(Step(s, a), b)) && RunOk(Step(Step(s, a), b), rest)
    ensures RunOk(s, [a, b] + rest) && Run(s, [a, b] + rest) == Run(Step(Step(s, a), b), rest)
  {
    hide Valid, Step, RequestOk;
    ValidHasClasses(s);
    var ops := [a, b] + rest;
    assert ops[1..] == [b] + rest && ([b] + rest)[1..] == rest;
    assert RunOk(Step(s, a), [b] + rest);
  }

  // A loop that frees its block and allocates it again never runs out, whatever else is
  // live, even when the fallback has nothing left to give.
  lemma {:induction false} LoopsNeverRunOut(s: State, n: nat)
    requires Valid(s) && |s.live| > 0 && ListIndex(s.live[|s.live| - 1].layout).Some?
    ensures var last := |s.live| - 1;
      var ops := Cycles(s.live[last].layout, last, n);
      RunOk(s, ops) && Run(s, ops) == s
    decreases n
  {
    hide Valid, Step, RequestOk, ListIndex;
    if n == 0 {
    } else {
      var last := |s.live| - 1;
      var l := s.live[last].layout;
      CycleIsIdentity(s);
      LoopsNeverRunOut(s, n - 1);
      RunTwo(s, GiveBack(last), Ask(l, None), Cycles(l, last, n - 1));
    }
  }
}
