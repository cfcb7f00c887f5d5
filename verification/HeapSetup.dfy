/**
 init_heap: every heap page gets a frame, while the mapper draws the frames of its own
 page tables from the same allocator.
 */
module HeapSetup {
  import opened Options
  import opened Frames
  import opened AllocatorSpec
  import FixedSize
  import Blocks = FixedSizeBlockAllocator
  import WordMemory

  const FIRST_PAGE: nat := HEAP_START / PAGE
  const LAST_PAGE: nat := (HEAP_START + HEAP_SIZE - 1) / PAGE

  datatype MapToError = FrameAllocationFailed | ParentEntryHugePage | PageAlreadyMapped

  // What the page-table walk for one page meets: the number of tables it has to create
  // and whether it ends at a huge page.
  datatype Walk = Walk(tables: nat, hugePage: bool)

  // Frames still to hand out, page number to frame, and frames used for page tables.
  datatype Paging = Paging(free: seq<nat>, table: map<nat, nat>, tables: seq<nat>)

  datatype Outcome = Outcome(error: Option<MapToError>, paging: Paging)

  // create_next_table, `n` times.
  function TablesCreated(p: Paging, n: nat): Outcome {
    if n <= |p.free| then
      Outcome(None, p.(free := p.free[n..], tables := p.tables + p.free[..n]))
    else
      Outcome(Some(FrameAllocationFailed), p.(free := [], tables := p.tables + p.free))
  }

  // Mapper::map_to.
  function MappedTo(p: Paging, page: nat, frame: nat, walk: Walk): Outcome {
    var o := TablesCreated(p, walk.tables);
    if o.error.Some? then o
    else if walk.hugePage then o.(error := Some(ParentEntryHugePage))
    else if page in p.table then o.(error := Some(PageAlreadyMapped))
    else o.(paging := o.paging.(table := p.table[page := frame]))
  }

  // One turn of the loop.
  function MapPage(p: Paging, page: nat, walk: Walk): Outcome {
    if p.free == [] then Outcome(Some(FrameAllocationFailed), p)
    else MappedTo(p.(free := p.free[1..]), page, p.free[0], walk)
  }

  // The first n turns, stopping at an error.
  function MapPages(p: Paging, first: nat, n: nat, walks: nat -> Walk): Outcome {
    if n == 0 then Outcome(None, p)
    else
      var o := MapPages(p, first, n - 1, walks);
      if o.error.Some? then o else MapPage(o.paging, first + n - 1, walks(first + n - 1))
  }

  lemma {:induction false} MapPagesUnfold(p: Paging, first: nat, n: nat, walks: nat -> Walk)
    ensures n == 0 ==> MapPages(p, first, n, walks) == Outcome(None, p)
    ensures n > 0 ==>
              var o := MapPages(p, first, n - 1, walks);
              MapPages(p, first, n, walks)
              == if o.error.Some? then o else MapPage(o.paging, first + n - 1, walks(first + n - 1))
  {
    hide MapPage;
  }

  lemma {:induction false} ErrorsStay(p: Paging, first: nat, k: nat, n: nat, walks: nat -> Walk)
    requires k <= n && MapPages(p, first, k, walks).error.Some?
    ensures MapPages(p, first, n, walks) == MapPages(p, first, k, walks)
    decreases n
  {
    hide MapPage;
    if k < n { ErrorsStay(p, first, k, n - 1, walks); }
  }

  // One turn: it succeeds exactly when nothing is in the way and the frames suffice, and
  // then takes its frame and the frames of the tables off the front.
  lemma {:induction false} MapPageIs(p: Paging, page: nat, walk: Walk)
    ensures MapPage(p, page, walk).error.None? <==>
            page !in p.table && !walk.hugePage && 1 + walk.tables <= |p.free|
    ensures MapPage(p, page, walk).error.None? ==>
              MapPage(p, page, walk).paging == Paging(p.free[1 + walk.tables..],
                p.table[page := p.free[0]], p.tables + p.free[1..1 + walk.tables])
  {
    if p.free != [] {
      var rest := p.free[1..];
      assert walk.tables <= |rest| ==>
          rest[walk.tables..] == p.free[1 + walk.tables..] && rest[..walk.tables] == p.free[1..1 + walk.tables];
    }
  }

  function Wanted(first: nat, n: nat, walks: nat -> Walk): nat {
    if n == 0 then 0 else Wanted(first, n - 1, walks) + walks(first + n - 1).tables
  }

  ghost predicate Clear(p: Paging, first: nat, n: nat, walks: nat -> Walk) {
    forall page :: first <= page < first + n ==> page !in p.table && !walks(page).hugePage
  }

  // Exactly the pages were added.
  ghost predicate Added(p: Paging, first: nat, n: nat, p': Paging) {
    && (forall page :: page in p'.table <==> page in p.table || first <= page < first + n)
    && (forall page :: page in p.table ==> page in p'.table && p'.table[page] == p.table[page])
  }

  // init_heap succeeds exactly when no heap page is mapped or behind a huge page and the
  // frames suffice for the pages and all the tables on the way.
  lemma {:induction false} SucceedsExactly(p: Paging, first: nat, n: nat, walks: nat -> Walk)
    ensures MapPages(p, first, n, walks).error.None? <==>
            Clear(p, first, n, walks) && n + Wanted(first, n, walks) <= |p.free|
    ensures var p' := MapPages(p, first, n, walks).paging;
            MapPages(p, first, n, walks).error.None? ==>
              && |p'.free| == |p.free| - n - Wanted(first, n, walks)
              && Added(p, first, n, p')
  {
    hide MapPage, MapPages;
    MapPagesUnfold(p, first, n, walks);
    if n == 0 {
    } else {
      var page := first + n - 1;
      SucceedsExactly(p, first, n - 1, walks);
      MapPageIs(MapPages(p, first, n - 1, walks).paging, page, walks(page));
      assert Clear(p, first, n, walks) <==>
             Clear(p, first, n - 1, walks) && page !in p.table && !walks(page).hugePage;
    }
  }

  // Each error says what went wrong, and mappings that existed are never touched.
  ghost predicate Explained(p: Paging, first: nat, n: nat, walks: nat -> Walk, o: Outcome) {
    && (forall page :: page in p.table ==> page in o.paging.table && o.paging.table[page] == p.table[page])
    && (o.error == Some(FrameAllocationFailed) ==>
          o.paging.free == [] && n + Wanted(first, n, walks) > |p.free|)
    && (o.error == Some(ParentEntryHugePage) ==>
          exists page :: first <= page < first + n && walks(page).hugePage)
    && (o.error == Some(PageAlreadyMapped) ==>
          exists page :: first <= page < first + n && page in p.table)
  }

  lemma {:induction false} MapPageErrors(p: Paging, page: nat, walk: Walk)
    ensures var o := MapPage(p, page, walk);
      && (o.error.Some? ==> o.paging.table == p.table)
      && (o.error == Some(FrameAllocationFailed) ==> o.paging.free == [] && 1 + walk.tables > |p.free|)
      && (o.error == Some(ParentEntryHugePage) ==> walk.hugePage)
      && (o.error == Some(PageAlreadyMapped) ==> page in p.table)
  {
  }

  lemma {:induction false} ErrorsAreExplained(p: Paging, first: nat, n: nat, walks: nat -> Walk)
    ensures Explained(p, first, n, walks, MapPages(p, first, n, walks))
  {
    hide MapPage, MapPages;
    MapPagesUnfold(p, first, n, walks);
    if n == 0 {
    } else {
      var page := first + n - 1;
      var o := MapPages(p, first, n - 1, walks);
      ErrorsAreExplained(p, first, n - 1, walks);
      SucceedsExactly(p, first, n - 1, walks);
      MapPageErrors(o.paging, page, walks(page));
      MapPageIs(o.paging, page, walks(page));
      assert walks(page).hugePage ==> exists q :: first <= q < first + n && walks(q).hugePage;
    }
  }

  // The frames the pages are mapped to.
  ghost function Data(table: map<nat, nat>, first: nat, n: nat): (r: seq<nat>)
    requires forall page :: first <= page < first + n ==> page in table
    ensures |r| == n && forall i :: 0 <= i < n ==> r[i] == table[first + i]
  {
    seq(n, i requires 0 <= i < n => table[first + i])
  }

  // Frames were taken off the front, and tables only added.
  ghost predicate Drawn(p: Paging, p': Paging) {
    && |p'.free| <= |p.free| && p'.free == p.free[|p.free| - |p'.free|..]
    && p.tables <= p'.tables
  }

  ghost function Spent(p: Paging, p': Paging): multiset<nat>
    requires Drawn(p, p')
  {
    multiset(p.free[..|p.free| - |p'.free|])
  }

  ghost function NewTables(p: Paging, p': Paging): multiset<nat>
    requires Drawn(p, p')
  {
    multiset(p'.tables[|p.tables|..])
  }

  // The frames drawn are the frames of the pages and of the new tables, each once.
  ghost predicate Conserved(p: Paging, first: nat, n: nat, p': Paging) {
    && Drawn(p, p')
    && (forall page :: first <= page < first + n ==> page in p'.table)
    && Spent(p, p') == NewTables(p, p') + multiset(Data(p'.table, first, n))
  }

  lemma {:induction false} FramesAreConserved(p: Paging, first: nat, n: nat, walks: nat -> Walk)
    requires MapPages(p, first, n, walks).error.None?
    ensures Conserved(p, first, n, MapPages(p, first, n, walks).paging)
  {
    hide MapPage, MapPages;
    MapPagesUnfold(p, first, n, walks);
    if n == 0 {
      NothingConserves(p, first);
    } else {
      hide Conserved;
      FramesAreConserved(p, first, n - 1, walks);
      PageConserves(p, first, n - 1, MapPages(p, first, n - 1, walks).paging, walks(first + n - 1));
    }
  }

  // Which frame each page gets: the pages before it and the tables created before it took
  // the earlier ones.
  lemma {:induction false} FramesInOrder(p: Paging, first: nat, n: nat, walks: nat -> Walk, i: nat)
    requires MapPages(p, first, n, walks).error.None? && i < n
    ensures var p' := MapPages(p, first, n, walks).paging;
      && |p'.free| <= |p.free| && p'.free == p.free[|p.free| - |p'.free|..]
      && i + Wanted(first, i, walks) < |p.free| && first + i in p'.table
      && p'.table[first + i] == p.free[i + Wanted(first, i, walks)]
  {
    hide MapPage, MapPages, Conserved;
    MapPagesUnfold(p, first, n, walks);
    var q := MapPages(p, first, n - 1, walks).paging;
    SucceedsExactly(p, first, n - 1, walks);
    FramesAreConserved(p, first, n - 1, walks);
    FramesAreConserved(p, first, n, walks);
    ConservedMeans(p, first, n - 1, q);
    ConservedMeans(p, first, n, MapPages(p, first, n, walks).paging);
    MapPageIs(q, first + n - 1, walks(first + n - 1));
    if i < n - 1 {
      FramesInOrder(p, first, n - 1, walks, i);
    } else {
      assert q.free[0] == p.free[|p.free| - |q.free|];
    }
  }

  lemma {:induction false} ConservedMeans(p: Paging, first: nat, n: nat, p': Paging)
    requires Conserved(p, first, n, p')
    ensures |p'.free| <= |p.free| && p'.free == p.free[|p.free| - |p'.free|..]
  {
  }

  lemma {:induction false} NothingConserves(p: Paging, first: nat)
    ensures Conserved(p, first, 0, p)
  {
    assert p.tables[|p.tables|..] == [] && p.free[..0] == [] && Data(p.table, first, 0) == [];
  }

  lemma {:induction false} PageConserves(p: Paging, first: nat, n: nat, q: Paging, walk: Walk)
    requires Conserved(p, first, n, q) && MapPage(q, first + n, walk).error.None?
    ensures Conserved(p, first, n + 1, MapPage(q, first + n, walk).paging)
  {
    hide MapPage, Drawn, Spent, NewTables;
    var q' := MapPage(q, first + n, walk).paging;
    MapPageIs(q, first + n, walk);
    DrawMore(p, q, q', 1 + walk.tables);
    DataGrows(q.table, first, n, q.free[0]);
  }

  lemma {:induction false} DataGrows(table: map<nat, nat>, first: nat, n: nat, frame: nat)
    requires forall page :: first <= page < first + n ==> page in table
    ensures multiset(Data(table[first + n := frame], first, n + 1))
            == multiset(Data(table, first, n)) + multiset{frame}
  {
    assert Data(table[first + n := frame], first, n + 1) == Data(table, first, n) + [frame];
  }

  lemma {:induction false} DrawMore(p: Paging, q: Paging, q': Paging, k: nat)
    requires Drawn(p, q) && 1 <= k <= |q.free|
    requires q'.free == q.free[k..] && q'.tables == q.tables + q.free[1..k]
    ensures Drawn(p, q')
    ensures Spent(p, q') == Spent(p, q) + multiset{q.free[0]} + multiset(q.free[1..k])
    ensures NewTables(p, q') == NewTables(p, q) + multiset(q.free[1..k])
  {
    assert p.free[..|p.free| - |q'.free|] == p.free[..|p.free| - |q.free|] + [q.free[0]] + q.free[1..k];
    assert q'.tables[|p.tables|..] == q.tables[|p.tables|..] + q.free[1..k];
  }

  lemma {:induction false} DistinctCounts(s: seq<nat>, f: nat)
    requires Distinct(s)
    ensures multiset(s)[f] <= 1
  {
    if s == [] {
    } else {
      var last := |s| - 1;
      assert s == s[..last] + [s[last]];
      DistinctCounts(s[..last], f);
      assert s[last] !in s[..last];
    }
  }

  lemma {:induction false} TwiceCounts(s: seq<nat>, i: nat, j: nat)
    requires i < j < |s| && s[i] == s[j]
    ensures multiset(s)[s[i]] >= 2
  {
    assert s == s[..j] + s[j..];
    assert s[i] in s[..j] && s[j] in s[j..];
  }

  // Distinct frames drawn stay distinct, and pages and tables never share one.
  lemma {:induction false} FramesStayApart(p: Paging, first: nat, n: nat, p': Paging)
    requires Distinct(p.free) && Conserved(p, first, n, p')
    ensures Distinct(Data(p'.table, first, n)) && Distinct(p'.tables[|p.tables|..])
    ensures forall f: nat :: f in Data(p'.table, first, n) ==> f in p.free && f !in p'.tables[|p.tables|..]
  {
    var data, tables, drawn := Data(p'.table, first, n), p'.tables[|p.tables|..], p.free[..|p.free| - |p'.free|];
    forall f: nat
      ensures multiset(tables)[f] + multiset(data)[f] <= 1
    {
      DistinctCounts(drawn, f);
    }
    forall i, j | 0 <= i < j < |data|
      ensures data[i] != data[j]
    {
      if data[i] == data[j] { TwiceCounts(data, i, j); }
    }
    forall i, j | 0 <= i < j < |tables|
      ensures tables[i] != tables[j]
    {
      if tables[i] == tables[j] { TwiceCounts(tables, i, j); }
    }
    forall f: nat | f in data
      ensures f in p.free && f !in tables
    {
      assert f in multiset(data);
      assert f in multiset(drawn);
    }
  }

  // init_heap after its page range is computed.
  function HeapMapped(p: Paging, walks: nat -> Walk): Outcome {
    MapPages(p, FIRST_PAGE, LAST_PAGE + 1 - FIRST_PAGE, walks)
  }

  function Translate(p: Paging, address: nat): nat
    requires address / PAGE in p.table
  {
    p.table[address / PAGE] + address % PAGE
  }

  ghost predicate HeapByte(address: nat) {
    HEAP_START <= address < HEAP_START + HEAP_SIZE
  }

  lemma {:induction false} HeapPages(address: nat)
    ensures HeapByte(address) <==> FIRST_PAGE <= address / PAGE <= LAST_PAGE
  {
  }

  // The heap is the 100 KiB from 0x4444_4444_0000 on, 25 pages: init_heap needs that many
  // frames and those of the tables.
  lemma {:induction false} HeapNeeds25Frames(p: Paging, walks: nat -> Walk, address: nat)
    ensures HeapByte(address) <==> 0x4444_4444_0000 <= address < 0x4444_4445_9000
    ensures HeapMapped(p, walks).error.None? ==>
              25 + Wanted(FIRST_PAGE, 25, walks) == |p.free| - |HeapMapped(p, walks).paging.free|
  {
    hide MapPages, Wanted;
    SucceedsExactly(p, FIRST_PAGE, 25, walks);
  }

  lemma {:induction false} OffsetsStayInFrames(f: nat, g: nat, a: nat, b: nat)
    requires f % PAGE == 0 && g % PAGE == 0 && f != g
    ensures f + a % PAGE != g + b % PAGE
  {
    if f < g { NextMultiple(f, g); } else { NextMultiple(g, f); }
  }

  // Frames of the kept iterator of a valid memory map.
  ghost predicate FromMap(p: Paging, memoryMap: seq<MemoryRegion>) {
    && ValidMap(memoryMap)
    && var all := UsableFrames(memoryMap);
       |p.free| <= |all| && p.free == all[|all| - |p.free|..]
  }

  lemma {:induction false} FromMapMeans(p: Paging, memoryMap: seq<MemoryRegion>)
    requires FromMap(p, memoryMap)
    ensures Distinct(p.free) && forall f: nat :: f in p.free ==> IsUsable(f, memoryMap)
  {
    UsableFramesAreExact(memoryMap);
    hide UsableFrames, IsUsable;
    assert forall f: nat :: f in p.free ==> f in UsableFrames(memoryMap);
  }

  // What the loop over any pages leaves behind.
  lemma {:induction false} PagesAreBacked(memoryMap: seq<MemoryRegion>, p: Paging, first: nat, n: nat, walks: nat -> Walk)
    requires FromMap(p, memoryMap) && MapPages(p, first, n, walks).error.None?
    ensures var p' := MapPages(p, first, n, walks).paging;
      && Clear(p, first, n, walks) && Added(p, first, n, p') && p.tables <= p'.tables
      && (forall page :: first <= page < first + n ==>
            && p'.table[page] in p.free && IsUsable(p'.table[page], memoryMap)
            && p'.table[page] !in p'.tables[|p.tables|..])
      && (forall a, b :: first <= a < b < first + n ==> p'.table[a] != p'.table[b])
  {
    hide MapPages, FromMap, Distinct, IsUsable, Wanted, Spent, NewTables;
    var p' := MapPages(p, first, n, walks).paging;
    FromMapMeans(p, memoryMap);
    FramesAreConserved(p, first, n, walks);
    FramesStayApart(p, first, n, p');
    SucceedsExactly(p, first, n, walks);
    var data := Data(p'.table, first, n);
    assert forall page :: first <= page < first + n ==> p'.table[page] == data[page - first];
    DistinctMeans(data);
  }

  lemma {:induction false} DistinctMeans(s: seq<nat>)
    requires Distinct(s)
    ensures forall i, j :: 0 <= i < j < |s| ==> s[i] != s[j]
  {
  }

  lemma {:induction false} TranslateStays(p: Paging, address: nat)
    requires address / PAGE in p.table && p.table[address / PAGE] % PAGE == 0
    ensures ContainingFrame(Translate(p, address)) == p.table[address / PAGE]
  {
  }

  lemma {:induction false} UsableIsAligned(frame: nat, memoryMap: seq<MemoryRegion>)
    requires IsUsable(frame, memoryMap)
    ensures frame % PAGE == 0
  {
  }

  // After a successful init_heap every heap byte is mapped to a byte of usable memory,
  // and no page outside the heap changed.
  lemma {:induction false} HeapIsMapped(memoryMap: seq<MemoryRegion>, p: Paging, walks: nat -> Walk, address: nat)
    requires FromMap(p, memoryMap) && HeapMapped(p, walks).error.None?
    ensures var p' := HeapMapped(p, walks).paging;
      && (HeapByte(address) ==>
            && address / PAGE !in p.table && address / PAGE in p'.table
            && p'.table[address / PAGE] in p.free && IsUsable(p'.table[address / PAGE], memoryMap))
      && (!HeapByte(address) ==>
            && (address / PAGE in p'.table <==> address / PAGE in p.table)
            && (address / PAGE in p.table ==> Translate(p', address) == Translate(p, address)))
  {
    hide MapPages, UsableFrames, IsUsable;
    PagesAreBacked(memoryMap, p, FIRST_PAGE, LAST_PAGE + 1 - FIRST_PAGE, walks);
    HeapPages(address);
  }

  // A heap byte never lies in a page table created on the way or in a frame that was
  // mapped before and not free.
  lemma {:induction false} HeapIsPrivate(memoryMap: seq<MemoryRegion>, p: Paging, walks: nat -> Walk, address: nat)
    requires FromMap(p, memoryMap) && HeapMapped(p, walks).error.None? && HeapByte(address)
    ensures var p' := HeapMapped(p, walks).paging;
      && address / PAGE in p'.table
      && (forall k :: |p.tables| <= k < |p'.tables| ==>
            ContainingFrame(Translate(p', address)) != p'.tables[k])
      && (forall page :: page in p.table && p.table[page] !in p.free ==>
            ContainingFrame(Translate(p', address)) != p.table[page])
  {
    hide MapPages, FromMap, IsUsable, ContainingFrame, Translate, HeapByte;
    PagesAreBacked(memoryMap, p, FIRST_PAGE, LAST_PAGE + 1 - FIRST_PAGE, walks);
    HeapPages(address);
    var p' := HeapMapped(p, walks).paging;
    var frame := p'.table[address / PAGE];
    UsableIsAligned(frame, memoryMap);
    TranslateStays(p', address);
    forall k | |p.tables| <= k < |p'.tables|
      ensures frame != p'.tables[k]
    {
      assert p'.tables[k] == p'.tables[|p.tables|..][k - |p.tables|];
    }
  }

  // Two heap bytes never share a physical byte.
  lemma {:induction false} HeapIsInjective(memoryMap: seq<MemoryRegion>, p: Paging, walks: nat -> Walk, a: nat, b: nat)
    requires FromMap(p, memoryMap) && HeapMapped(p, walks).error.None?
    requires HeapByte(a) && HeapByte(b) && a != b
    ensures var p' := HeapMapped(p, walks).paging;
      && a / PAGE in p'.table && b / PAGE in p'.table
      && Translate(p', a) != Translate(p', b)
  {
    hide MapPages, UsableFrames;
    PagesAreBacked(memoryMap, p, FIRST_PAGE, LAST_PAGE + 1 - FIRST_PAGE, walks);
    HeapPages(a);
    HeapPages(b);
    var p' := HeapMapped(p, walks).paging;
    var f, g := p'.table[a / PAGE], p'.table[b / PAGE];
    assert IsUsable(f, memoryMap) && IsUsable(g, memoryMap);
    if a / PAGE != b / PAGE {
      OffsetsStayInFrames(f, g, a, b);
    }
  }

  lemma {:induction false} TakesNext(free: seq<nat>, i: nat)
    requires i < |free|
    ensures free[i..][0] == free[i] && free[i..][1..] == free[i + 1..]
    ensures forall before: seq<nat> :: before + free[..i] + [free[i]] == before + free[..i + 1]
  {
    assert free[..i + 1] == free[..i] + [free[i]];
  }

  class Mapper {
    var table: map<nat, nat>
    var tables: seq<nat>
    const walks: nat -> Walk

    ghost function View(allocator: BootInfoFrameAllocator): Paging
      reads this, allocator
    {
      Paging(allocator.Rest(), table, tables)
    }

    constructor (table: map<nat, nat>, walks: nat -> Walk)
      ensures this.table == table && tables == [] && this.walks == walks
    {
      this.table, this.tables, this.walks := table, [], walks;
    }

    // The tables that are missing on the way to a page.
    method CreateTables(n: nat, allocator: BootInfoFrameAllocator) returns (error: Option<MapToError>)
      modifies this`tables, allocator
      ensures Outcome(error, View(allocator)) == TablesCreated(old(View(allocator)), n)
    {
      hide UsableFrames, Draw, BootInfoFrameAllocator.Rest;
      ghost var free, before := allocator.Rest(), tables;
      var i := 0;
      while i < n
        invariant i <= n && i <= |free|
        invariant allocator.Rest() == free[i..] && tables == before + free[..i]
      {
        var frame := allocator.AllocateFrame();
        if frame.None? {
          assert i == |free| && free[..i] == free;
          return Some(FrameAllocationFailed);
        }
        TakesNext(free, i);
        tables := tables + [frame.value];
        i := i + 1;
      }
      error := None;
    }

    method MapTo(page: nat, frame: nat, allocator: BootInfoFrameAllocator) returns (error: Option<MapToError>)
      modifies this, allocator
      ensures Outcome(error, View(allocator)) == MappedTo(old(View(allocator)), page, frame, walks(page))
    {
      error := CreateTables(walks(page).tables, allocator);
      if error.Some? {
        return;
      }
      if walks(page).hugePage {
        return Some(ParentEntryHugePage);
      }
      if page in table {
        return Some(PageAlreadyMapped);
      }
      table := table[page := frame];
    }

    // init_heap: the page loop, which an error ends at once, and then the initialization of
    // the global allocator on the memory that is mapped now, whatever it holds.
    method InitHeap(allocator: BootInfoFrameAllocator, content: WordMemory.Words)
      returns (error: Option<MapToError>, heap: Option<Blocks.FixedSizeBlockAllocator>)
      modifies this, allocator
      ensures Outcome(error, View(allocator)) == HeapMapped(old(View(allocator)), walks)
      ensures ValidMap(allocator.memoryMap) ==> FromMap(old(View(allocator)), allocator.memoryMap)
      ensures error.Some? <==> heap.None?
      ensures heap.Some? ==> heap.value.Inv() && heap.value.st == FixedSize.Init(HEAP_START, HEAP_SIZE)
    {
      hide MapPages, UsableFrames, Draw, TablesCreated, MappedTo, ValidMap, BootInfoFrameAllocator.Rest;
      heap := None;
      ghost var start := View(allocator);
      MapPagesUnfold(start, FIRST_PAGE, 0, walks);
      var page := FIRST_PAGE;
      while page <= LAST_PAGE
        invariant FIRST_PAGE <= page <= LAST_PAGE + 1
        invariant MapPages(start, FIRST_PAGE, page - FIRST_PAGE, walks) == Outcome(None, View(allocator))
      {
        ghost var before := View(allocator);
        var frame := allocator.AllocateFrame();
        if frame.None? {
          error := Some(FrameAllocationFailed);
        } else {
          error := MapTo(page, frame.value, allocator);
        }
        assert Outcome(error, View(allocator)) == MapPage(before, page, walks(page));
        MapPagesUnfold(start, FIRST_PAGE, page + 1 - FIRST_PAGE, walks);
        if error.Some? {
          ErrorsStay(start, FIRST_PAGE, page + 1 - FIRST_PAGE, LAST_PAGE + 1 - FIRST_PAGE, walks);
          return;
        }
        page := page + 1;
      }
      error := None;
      var blocks := new Blocks.FixedSizeBlockAllocator(HEAP_START, HEAP_SIZE, content);
      heap := Some(blocks);
    }
  }
}
