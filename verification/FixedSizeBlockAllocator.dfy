/**
 The fixed-size block allocator as the code that runs: an array of list heads, and in
 each free block one word with the address of the next free block of its class.
 */
module FixedSizeBlockAllocator {
  import opened Options
  import opened Alignment
  import opened Regions
  import opened AllocatorSpec
  import opened FixedSize
  import opened FixedSizeTheorems
  import opened WordMemory
  import opened ClientData

  // Address of the i-th block of a list; 0 behind the last one.
  function BlockAt(list: seq<nat>, i: nat): nat {
    if i < |list| then list[i] else 0
  }

  ghost predicate IsNode(mem: Words, list: seq<nat>, i: nat)
    requires i < |list|
  {
    list[i] > 0 && list[i] in mem && mem[list[i]] == BlockAt(list, i + 1)
  }

  // The words in memory, from `head` on, spell out the list.
  ghost predicate Links(mem: Words, head: nat, list: seq<nat>) {
    head == BlockAt(list, 0) && forall i :: 0 <= i < |list| ==> IsNode(mem, list, i)
  }

  lemma {:induction false} LinksFrame(mem: Words, mem': Words, head: nat, list: seq<nat>)
    requires Links(mem, head, list)
    requires forall i :: 0 <= i < |list| ==> Same(mem, mem', list[i])
    ensures Links(mem', head, list)
  {
    forall i | 0 <= i < |list|
      ensures IsNode(mem', list, i)
    {
      assert IsNode(mem, list, i);
    }
  }

  lemma {:induction false} LinksPop(mem: Words, head: nat, list: seq<nat>)
    requires Links(mem, head, list) && list != []
    requires forall i :: 1 <= i < |list| ==> list[i] != list[0]
    ensures head in mem && Links(mem[head := 0], mem[head], list[1..])
  {
    assert IsNode(mem, list, 0);
    var rest, mem' := list[1..], mem[head := 0];
    forall i | 0 <= i < |rest|
      ensures IsNode(mem', rest, i)
    {
      assert IsNode(mem, list, i + 1);
    }
  }

  lemma {:induction false} LinksPush(mem: Words, head: nat, list: seq<nat>, ptr: nat)
    requires Links(mem, head, list) && ptr > 0 && ptr !in list
    ensures Links(mem[ptr := head], ptr, [ptr] + list)
  {
    var list', mem' := [ptr] + list, mem[ptr := head];
    forall i | 0 <= i < |list'|
      ensures IsNode(mem', list', i)
    {
      if i > 0 {
        assert IsNode(mem, list, i - 1) && list'[i] == list[i - 1];
      }
    }
  }

  // -------- blocks in different slots have different addresses --------

  lemma {:induction false} ClassBlock(s: State, k: nat, i: nat)
    requires Valid(s) && k < CLASSES && i < |s.lists[k]|
    ensures var b := Region(s.lists[k][i], BLOCK_SIZES[k]);
      && b == GrantAt(s, FreeSlot(k, i)).Bytes() && b.size >= WORD && b.start > 0 && b.start % WORD == 0
  {
    hide Held, TakenOk;
    SlotsAreGranted(s, FreeSlot(k, i));
    BlockSizeIsPow2(k);
    Pow2Divides(BLOCK_SIZES[k], 3);
    assert Pow2(3) == WORD;
    DividesTransitive(s.lists[k][i], BLOCK_SIZES[k], WORD);
  }

  lemma {:induction false} BlocksDiffer(s: State, k: nat, i: nat, k': nat, i': nat)
    requires Valid(s) && k < CLASSES && i < |s.lists[k]| && k' < CLASSES && i' < |s.lists[k']|
    requires (k, i) != (k', i')
    ensures s.lists[k][i] != s.lists[k'][i']
  {
    hide Valid, BLOCK_SIZES;
    ClassBlock(s, k, i);
    ClassBlock(s, k', i');
    SlotsAreDisjoint(s, FreeSlot(k, i), FreeSlot(k', i'));
  }

  // A block a client has is on no list.
  lemma {:induction false} LiveIsNotListed(s: State, i: nat, k: nat, j: nat)
    requires Valid(s) && i < |s.live| && k < CLASSES && j < |s.lists[k]|
    ensures s.lists[k][j] != s.live[i].ptr
    ensures !Touches(s.live[i].Bytes(), s.lists[k][j])
  {
    ClassBlock(s, k, j);
    BackingServes(s, i);
    SlotsAreDisjoint(s, FreeSlot(k, j), LiveSlot(i));
    assert s.live[i].layout.size > 0;
  }

  function LiveBytes(live: seq<Grant>): (r: seq<Region>)
    ensures |r| == |live| && forall i :: 0 <= i < |live| ==> r[i] == live[i].Bytes()
  {
    seq(|live|, i requires 0 <= i < |live| => live[i].Bytes())
  }

  // All nine lists are in memory.
  ghost predicate AllLinked(mem: Words, heads: seq<nat>, lists: seq<seq<nat>>) {
    |heads| == |lists| == CLASSES && forall k :: 0 <= k < CLASSES ==> Links(mem, heads[k], lists[k])
  }

  // Popping block 0 of class k leaves the other lists alone.
  lemma {:induction false} PopLinks(s: State, mem: Words, heads: seq<nat>, k: nat)
    requires Valid(s) && AllLinked(mem, heads, s.lists) && k < CLASSES && s.lists[k] != []
    ensures var node := heads[k];
      && node == s.lists[k][0] && node > 0 && node in mem
      && AllLinked(mem[node := 0], heads[k := mem[node]], s.lists[k := s.lists[k][1..]])
      && Preserved(mem, mem[node := 0], LiveBytes(s.live))
  {
    var node := heads[k];
    assert Links(mem, heads[k], s.lists[k]) && IsNode(mem, s.lists[k], 0);
    var heads', lists', mem' := heads[k := mem[node]], s.lists[k := s.lists[k][1..]], mem[node := 0];
    forall j | 0 <= j < CLASSES
      ensures Links(mem', heads'[j], lists'[j])
    {
      assert Links(mem, heads[j], s.lists[j]);
      forall i | 0 <= i < |s.lists[j]| && (j, i) != (k, 0)
        ensures s.lists[j][i] != node
      {
        BlocksDiffer(s, j, i, k, 0);
      }
      if j == k {
        LinksPop(mem, node, s.lists[k]);
      } else {
        LinksFrame(mem, mem', heads[j], s.lists[j]);
      }
    }
    WriteInFreeBlock(s, mem, k, 0, 0);
  }

  // A write to the word of a free block changes nothing a client has.
  lemma {:induction false} WriteInFreeBlock(s: State, mem: Words, k: nat, i: nat, word: nat)
    requires Valid(s) && k < CLASSES && i < |s.lists[k]|
    ensures Preserved(mem, mem[s.lists[k][i] := word], LiveBytes(s.live))
  {
    var mem' := mem[s.lists[k][i] := word];
    forall w: nat, n | 0 <= n < |s.live| && w % WORD == 0 && Touches(LiveBytes(s.live)[n], w)
      ensures Same(mem, mem', w)
    {
      LiveIsNotListed(s, n, k, i);
    }
  }

  // Pushing the freed block on list k leaves the other lists alone.
  lemma {:induction false} PushLinks(s: State, mem: Words, heads: seq<nat>, i: nat)
    requires Valid(s) && AllLinked(mem, heads, s.lists) && i < |s.live| && ListIndex(s.live[i].layout).Some?
    ensures var k := ListIndex(s.live[i].layout).value;
      var ptr := s.live[i].ptr;
      && AllLinked(mem[ptr := heads[k]], heads[k := ptr], s.lists[k := [ptr] + s.lists[k]])
      && Preserved(mem, mem[ptr := heads[k]], LiveBytes(Without(s.live, i)))
  {
    var k := ListIndex(s.live[i].layout).value;
    var ptr := s.live[i].ptr;
    BackingServes(s, i);
    var heads', lists', mem' := heads[k := ptr], s.lists[k := [ptr] + s.lists[k]], mem[ptr := heads[k]];
    forall j | 0 <= j < CLASSES
      ensures Links(mem', heads'[j], lists'[j])
    {
      assert Links(mem, heads[j], s.lists[j]);
      forall n | 0 <= n < |s.lists[j]|
        ensures s.lists[j][n] != ptr
      {
        LiveIsNotListed(s, i, j, n);
      }
      if j == k {
        LinksPush(mem, heads[k], s.lists[k], ptr);
      } else {
        LinksFrame(mem, mem', heads[j], s.lists[j]);
      }
    }
    DeallocKeepsValid(s, i);
    WriteInFreeBlock(Dealloc(s, i), mem, k, 0, heads[k]);
  }

  // -------- what the fallback writes --------

  // The fallback keeps its own list in the memory it has not granted.
  ghost predicate FallbackKeepsOff(fb: Memory, mem: Words, mem': Words) {
    Preserved(mem, mem', LiveBytes(fb.live))
  }

  // A listed block is one that the fallback granted, so its node survives.
  lemma {:induction false} NodesSurvive(s: State, mem: Words, mem': Words, k: nat, i: nat)
    requires Valid(s) && FallbackKeepsOff(s.fb, mem, mem') && k < CLASSES && i < |s.lists[k]|
    ensures Same(mem, mem', s.lists[k][i])
  {
    hide Held, TakenOk, Safe;
    ClassBlock(s, k, i);
    SlotsAreGranted(s, FreeSlot(k, i));
    var n :| 0 <= n < |s.fb.live| && s.fb.live[n] == GrantAt(s, FreeSlot(k, i));
    assert Touches(LiveBytes(s.fb.live)[n], s.lists[k][i]);
  }

  // A client's bytes lie in a block that the fallback granted.
  lemma {:induction false} ClientWordSurvives(s: State, mem: Words, mem': Words, i: nat, w: nat)
    requires Valid(s) && FallbackKeepsOff(s.fb, mem, mem') && i < |s.live|
    requires w % WORD == 0 && Touches(s.live[i].Bytes(), w)
    ensures Same(mem, mem', w)
  {
    hide Held, TakenOk, Safe;
    BackingServes(s, i);
    SlotsAreGranted(s, LiveSlot(i));
    var n :| 0 <= n < |s.fb.live| && s.fb.live[n] == GrantAt(s, LiveSlot(i));
    assert Touches(LiveBytes(s.fb.live)[n], w);
  }

  // Whatever the fallback writes outside the blocks it granted, all nine lists and all
  // data of clients are still there.
  lemma {:induction false} FallbackLeavesAll(s: State, mem: Words, mem': Words, heads: seq<nat>)
    requires Valid(s) && AllLinked(mem, heads, s.lists) && FallbackKeepsOff(s.fb, mem, mem')
    ensures AllLinked(mem', heads, s.lists) && Preserved(mem, mem', LiveBytes(s.live))
  {
    hide Valid, FallbackKeepsOff;
    ValidHasClasses(s);
    forall k | 0 <= k < CLASSES
      ensures Links(mem', heads[k], s.lists[k])
    {
      assert Links(mem, heads[k], s.lists[k]);
      forall i | 0 <= i < |s.lists[k]|
        ensures Same(mem, mem', s.lists[k][i])
      {
        NodesSurvive(s, mem, mem', k, i);
      }
      LinksFrame(mem, mem', heads[k], s.lists[k]);
    }
    forall w: nat, i | 0 <= i < |s.live| && w % WORD == 0 && Touches(LiveBytes(s.live)[i], w)
      ensures Same(mem, mem', w)
    {
      ClientWordSurvives(s, mem, mem', i, w);
    }
  }

  // Only words of granted blocks changed: the fallback's own list was left alone.
  ghost predicate KeepsOffFallback(fb: Memory, mem: Words, mem': Words) {
    forall w: nat :: Same(mem, mem', w) || exists n :: 0 <= n < |fb.live| && Touches(fb.live[n].Bytes(), w)
  }

  lemma {:induction false} WriteInGrant(s: State, p: Slot, mem: Words, w: nat, word: nat)
    requires Valid(s) && IsSlot(s, p) && Touches(GrantAt(s, p).Bytes(), w)
    ensures KeepsOffFallback(s.fb, mem, mem[w := word])
  {
    hide Valid, GrantAt;
    ValidHasClasses(s);
    SlotsAreGranted(s, p);
    var mem' := mem[w := word];
    forall v: nat
      ensures Same(mem, mem', v) || exists n :: 0 <= n < |s.fb.live| && Touches(s.fb.live[n].Bytes(), v)
    {
      if v == w {
        var n :| 0 <= n < |s.fb.live| && s.fb.live[n] == GrantAt(s, p);
        assert Touches(s.fb.live[n].Bytes(), v);
      }
    }
  }

  // The node of a listed block, and any word of a client's block.
  lemma {:induction false} NodeInGrant(s: State, k: nat, i: nat, mem: Words, word: nat)
    requires Valid(s) && k < CLASSES && i < |s.lists[k]|
    ensures KeepsOffFallback(s.fb, mem, mem[s.lists[k][i] := word])
  {
    hide Valid, KeepsOffFallback;
    ValidHasClasses(s);
    ClassBlock(s, k, i);
    WriteInGrant(s, FreeSlot(k, i), mem, s.lists[k][i], word);
  }

  lemma {:induction false} ClientWordInGrant(s: State, i: nat, mem: Words, w: nat, word: nat)
    requires Valid(s) && i < |s.live| && Touches(s.live[i].Bytes(), w)
    ensures KeepsOffFallback(s.fb, mem, mem[w := word])
  {
    hide Valid, KeepsOffFallback;
    ValidHasClasses(s);
    BackingServes(s, i);
    WriteInGrant(s, LiveSlot(i), mem, w, word);
  }

  lemma {:induction false} LiveBytesAppend(live: seq<Grant>, g: Grant)
    ensures LiveBytes(live + [g]) == LiveBytes(live) + [g.Bytes()]
  {
  }

  lemma {:induction false} LiveBytesWithout(live: seq<Grant>, i: nat)
    requires i < |live|
    ensures LiveBytes(Without(live, i)) == Without(LiveBytes(live), i)
  {
  }

  // alloc adds one live block or none; dealloc takes one out.
  lemma {:induction false} AllocAddsOne(s: State, l: Layout, answer: Option<nat>)
    requires |s.lists| == CLASSES && |s.taken| == CLASSES
    ensures var s' := Alloc(s, l, answer).0;
      s'.live == s.live || exists g :: s'.live == s.live + [g]
  {
    hide ListIndex;
  }

  lemma {:induction false} AllocMoves(s: State, l: Layout, answer: Option<nat>)
    requires Valid(s)
    ensures var live, live' := LiveBytes(s.live), LiveBytes(Alloc(s, l, answer).0.live);
      live <= live' && |live'| <= |live| + 1
  {
    hide Valid, LiveBytes, Alloc;
    ValidHasClasses(s);
    AllocAddsOne(s, l, answer);
    var live' := Alloc(s, l, answer).0.live;
    if live' != s.live {
      var g :| live' == s.live + [g];
      LiveBytesAppend(s.live, g);
    }
  }

  lemma {:induction false} DeallocMoves(s: State, i: nat)
    requires |s.lists| == CLASSES && i < |s.live|
    ensures LiveBytes(Dealloc(s, i).live) == Without(LiveBytes(s.live), i)
  {
    hide ListIndex, LiveBytes;
    LiveBytesWithout(s.live, i);
  }

  class FixedSizeBlockAllocator {
    const listHeads: array<nat>
    var mem: Words
    ghost var st: State

    ghost predicate Inv()
      reads this, listHeads
    {
      Valid(st) && AllLinked(mem, listHeads[..], st.lists)
    }

    // What clients see.
    ghost function Clients(): View
      reads this
    {
      View(LiveBytes(st.live), mem)
    }

    // new() and init(): all lists empty, the heap handed to the fallback
    constructor (heapStart: nat, heapSize: nat, mem: Words)
      requires 0 < heapStart && heapStart + heapSize <= ADDRESS_LIMIT
      ensures Inv() && st == Init(heapStart, heapSize) && fresh(listHeads)
    {
      listHeads := new nat[CLASSES](i => 0);
      this.mem := mem;
      st := Init(heapStart, heapSize);
    }

    // alloc; if allocate_first_fit is called, `answer` is what it returns, None for an Err,
    // and `left` is the memory as it leaves it.
    method AllocBlock(layout: Layout, answer: Option<nat>, left: Words) returns (r: Answer)
      requires Inv() && ValidLayout(layout) && AnswerOk(st, layout, answer)
      requires Asked(st, layout).Some? ==> FallbackKeepsOff(st.fb, mem, left)
      modifies this, listHeads
      ensures Inv()
      ensures (st, r) == Alloc(old(st), layout, answer)
      ensures Moves(old(Clients()), Take, Clients())
      ensures if Asked(old(st), layout).Some? then mem == left else KeepsOffFallback(st.fb, old(mem), mem)
    {
      AllocKeepsValid(st, layout, answer);
      AllocMoves(st, layout, answer);
      ghost var st' := Alloc(st, layout, answer).0;
      hide Valid, Preserved, AnswerOk, ValidLayout, FallbackKeepsOff, KeepsOffFallback;
      var index := ListIndex(layout);
      if index.Some? {
        var node := listHeads[index.value];
        assert Links(mem, listHeads[..][index.value], st.lists[index.value]);
        if node != 0 {
          PopLinks(st, mem, listHeads[..], index.value);
          NodeInGrant(st, index.value, 0, mem, 0);
          listHeads[index.value] := mem[node];
          mem := mem[node := 0];  // node.next.take()
          st := st';
          return Pointer(node);
        }
        NullIsEmpty(mem, st.lists[index.value]);
      }
      FallbackLeavesAll(st, mem, left, listHeads[..]);
      mem := left;
      st := st';
      r := if answer.Some? then Pointer(answer.value) else Null;
    }

    // dealloc of the i-th live block, with the layout it was allocated with; if the fallback
    // is called, `left` is the memory as it leaves it, which may change in that block too
    method DeallocBlock(ptr: nat, layout: Layout, left: Words, ghost i: nat)
      requires Inv() && i < |st.live| && st.live[i] == Grant(ptr, layout)
      requires ListIndex(layout).None? ==> FallbackKeepsOff(Dealloc(st, i).fb, mem, left)
      modifies this, listHeads
      ensures Inv()
      ensures st == Dealloc(old(st), i)
      ensures Moves(old(Clients()), Release(i), Clients())
      ensures if ListIndex(layout).None? then mem == left else KeepsOffFallback(st.fb, old(mem), mem)
    {
      DeallocKeepsValid(st, i);
      DeallocMoves(st, i);
      var index := ListIndex(layout);
      ghost var st' := Dealloc(st, i);
      if index.Some? {
        PushLinks(st, mem, listHeads[..], i);
        NodeInGrant(st', index.value, 0, mem, listHeads[index.value]);
        hide Valid, Preserved, KeepsOffFallback;
        assert NODE_SIZE <= BLOCK_SIZES[index.value];
        mem := mem[ptr := listHeads[index.value]];
        listHeads[index.value] := ptr;
      } else {
        LargeBlockIsGranted(st, i);
        assert Grant(ptr, layout) in st.fb.live;  // fallback_allocator.deallocate may be called
        FallbackLeavesAll(st', mem, left, listHeads[..]);
        mem := left;
      }
      st := st';
    }

    // A client stores something at `addr` inside its block; the word around it changes.
    method ClientWrite(i: nat, addr: nat, word: nat)
      requires Inv() && i < |st.live| && st.live[i].Bytes().Contains(addr)
      modifies this`mem
      ensures Inv()
      ensures Moves(old(Clients()), Write(i, addr, word), Clients())
      ensures KeepsOffFallback(st.fb, old(mem), mem)
    {
      ghost var before := mem;
      var w := WordOf(addr);
      ClientWordInGrant(st, i, mem, w, word);
      hide KeepsOffFallback;
      mem := mem[w := word];
      forall k | 0 <= k < CLASSES
        ensures Links(mem, listHeads[..][k], st.lists[k])
      {
        assert Links(before, listHeads[..][k], st.lists[k]);
        forall j | 0 <= j < |st.lists[k]|
          ensures st.lists[k][j] != w
        {
          LiveIsNotListed(st, i, k, j);
        }
        LinksFrame(before, mem, listHeads[..][k], st.lists[k]);
      }
    }
  }

  // A null head stands for an empty list.
  lemma {:induction false} NullIsEmpty(mem: Words, list: seq<nat>)
    requires Links(mem, 0, list)
    ensures list == []
  {
    assert |list| > 0 ==> IsNode(mem, list, 0);
  }
}
