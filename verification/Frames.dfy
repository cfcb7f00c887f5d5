/**
 The boot-info frame allocator: the usable frames of the bootloader's memory map, handed
 out by recomputing the list and picking element `next`.
 */
module Frames {
  import opened Options

  const PAGE: nat := 4096

  // A region in physical byte addresses, `end` exclusive.
  datatype MemoryRegion = MemoryRegion(start: nat, end: nat, usable: bool)

  // (start..end).step_by(4096)
  function StepBy(start: nat, end: nat): seq<nat>
    decreases if start < end then end - start else 0
  {
    if start >= end then [] else [start] + StepBy(start + PAGE, end)
  }

  // PhysFrame::containing_address, as the start address of the frame.
  function ContainingFrame(address: nat): nat {
    address - address % PAGE
  }

  function FramesOf(addresses: seq<nat>): (r: seq<nat>)
    ensures |r| == |addresses| && forall i :: 0 <= i < |r| ==> r[i] == ContainingFrame(addresses[i])
  {
    seq(|addresses|, i requires 0 <= i < |addresses| => ContainingFrame(addresses[i]))
  }

  function UsableFrames(memoryMap: seq<MemoryRegion>): seq<nat> {
    if memoryMap == [] then []
    else
      var region := memoryMap[0];
      (if region.usable then FramesOf(StepBy(region.start, region.end)) else []) + UsableFrames(memoryMap[1..])
  }

  // What the bootloader guarantees: usable areas are page aligned and do not overlap.
  ghost predicate ValidMap(memoryMap: seq<MemoryRegion>) {
    && (forall i :: 0 <= i < |memoryMap| && memoryMap[i].usable ==>
          memoryMap[i].start % PAGE == 0 && memoryMap[i].end % PAGE == 0)
    && (forall i, j :: 0 <= i < j < |memoryMap| && memoryMap[i].usable && memoryMap[j].usable ==>
          memoryMap[i].end <= memoryMap[j].start || memoryMap[j].end <= memoryMap[i].start)
  }

  // The whole frame lies in a region marked usable.
  ghost predicate Inside(frame: nat, region: MemoryRegion) {
    region.usable && frame % 4096 == 0 && region.start <= frame && frame + 4096 <= region.end
  }

  ghost predicate IsUsable(frame: nat, memoryMap: seq<MemoryRegion>) {
    exists i :: 0 <= i < |memoryMap| && Inside(frame, memoryMap[i])
  }

  ghost predicate Distinct(frames: seq<nat>) {
    forall i, j :: 0 <= i < j < |frames| ==> frames[i] != frames[j]
  }

  lemma {:induction false} DistinctConcat(a: seq<nat>, b: seq<nat>)
    requires Distinct(a) && Distinct(b)
    requires forall f: nat :: f in a ==> f !in b
    ensures Distinct(a + b)
  {
    forall i, j | 0 <= i < j < |a + b|
      ensures (a + b)[i] != (a + b)[j]
    {
      assert i < |a| <= j ==> a[i] in a && b[j - |a|] in b;
    }
  }

  lemma {:induction false} NextMultiple(a: nat, b: nat)
    requires a % PAGE == 0 && b % PAGE == 0 && a < b
    ensures a + PAGE <= b && (a + PAGE) % PAGE == 0
  {
  }

  lemma {:induction false} StepByIs(start: nat, end: nat)
    requires start % PAGE == 0 && end % PAGE == 0
    ensures forall f: nat :: f in StepBy(start, end) <==> f % PAGE == 0 && start <= f && f + PAGE <= end
    ensures Distinct(StepBy(start, end))
    ensures FramesOf(StepBy(start, end)) == StepBy(start, end)
    decreases if start < end then end - start else 0
  {
    if start < end {
      NextMultiple(start, end);
      var rest := StepBy(start + PAGE, end);
      StepByIs(start + PAGE, end);
      assert StepBy(start, end) == [start] + rest;
      DistinctConcat([start], rest);
      forall f: nat | f % PAGE == 0 && start <= f && f + PAGE <= end
        ensures f in [start] + rest
      {
        if f != start { NextMultiple(start, f); }
      }
    }
  }

  // The recomputed list is exactly the usable frames, each once.
  lemma {:induction false} UsableFramesAreExact(memoryMap: seq<MemoryRegion>)
    requires ValidMap(memoryMap)
    ensures forall f: nat :: f in UsableFrames(memoryMap) <==> IsUsable(f, memoryMap)
    ensures Distinct(UsableFrames(memoryMap))
  {
    if memoryMap == [] {
    } else {
      var region, rest := memoryMap[0], memoryMap[1..];
      UsableFramesAreExact(rest);
      forall f: nat
        ensures IsUsable(f, memoryMap) <==> Inside(f, region) || IsUsable(f, rest)
      {
        UsableSplits(f, memoryMap);
      }
      if region.usable {
        StepByIs(region.start, region.end);
        forall f: nat | Inside(f, region)
          ensures !IsUsable(f, rest)
        {
          InsideOnlyOne(f, memoryMap);
        }
        DistinctConcat(StepBy(region.start, region.end), UsableFrames(rest));
      }
    }
  }

  lemma {:induction false} UsableSplits(f: nat, memoryMap: seq<MemoryRegion>)
    requires memoryMap != []
    ensures IsUsable(f, memoryMap) <==> Inside(f, memoryMap[0]) || IsUsable(f, memoryMap[1..])
  {
    var rest := memoryMap[1..];
    if IsUsable(f, memoryMap) {
      var i :| 0 <= i < |memoryMap| && Inside(f, memoryMap[i]);
      assert i > 0 ==> rest[i - 1] == memoryMap[i];
    }
    if IsUsable(f, rest) {
      var i :| 0 <= i < |rest| && Inside(f, rest[i]);
      assert memoryMap[i + 1] == rest[i];
    }
  }

  lemma {:induction false} InsideOnlyOne(f: nat, memoryMap: seq<MemoryRegion>)
    requires ValidMap(memoryMap) && memoryMap != [] && Inside(f, memoryMap[0])
    ensures !IsUsable(f, memoryMap[1..])
  {
    forall i | 0 <= i < |memoryMap| - 1
      ensures !Inside(f, memoryMap[1..][i])
    {
      assert memoryMap[1..][i] == memoryMap[i + 1];
    }
  }

  // What call number n to allocate_frame returns.
  function Draw(memoryMap: seq<MemoryRegion>, n: nat): Option<nat> {
    var frames := UsableFrames(memoryMap);
    if n < |frames| then Some(frames[n]) else None
  }

  // Over any number of calls: every frame is usable memory, no two calls return frames
  // that share a byte, every usable frame is returned by some call, and once the
  // allocator is empty it stays so.
  lemma {:induction false} FramesAreUnique(memoryMap: seq<MemoryRegion>)
    requires ValidMap(memoryMap)
    ensures forall n: nat :: Draw(memoryMap, n).Some? ==> IsUsable(Draw(memoryMap, n).value, memoryMap)
    ensures forall n: nat, m: nat :: n != m && Draw(memoryMap, n).Some? && Draw(memoryMap, m).Some? ==>
              var f, g := Draw(memoryMap, n).value, Draw(memoryMap, m).value;
              f + 4096 <= g || g + 4096 <= f
    ensures forall f: nat :: IsUsable(f, memoryMap) ==> exists n: nat :: Draw(memoryMap, n) == Some(f)
    ensures forall n: nat, m: nat :: n <= m && Draw(memoryMap, n).None? ==> Draw(memoryMap, m).None?
  {
    UsableFramesAreExact(memoryMap);
    var frames := UsableFrames(memoryMap);
    forall n: nat, m: nat | n != m && Draw(memoryMap, n).Some? && Draw(memoryMap, m).Some?
      ensures var f, g := Draw(memoryMap, n).value, Draw(memoryMap, m).value;
              f + PAGE <= g || g + PAGE <= f
    {
      var f, g := frames[n], frames[m];
      assert f != g;
      assert f in frames && g in frames;
      if f < g { NextMultiple(f, g); } else { NextMultiple(g, f); }
    }
    forall f: nat | IsUsable(f, memoryMap)
      ensures exists n: nat :: Draw(memoryMap, n) == Some(f)
    {
      var n: nat :| 0 <= n < |frames| && frames[n] == f;
      assert Draw(memoryMap, n) == Some(f);
    }
  }

  // -------- the order of the frames --------

  // f lies in an earlier region than g, or below it in the same one.
  ghost predicate Before(f: nat, g: nat, memoryMap: seq<MemoryRegion>) {
    exists i, j ::
      && 0 <= i <= j < |memoryMap| && Inside(f, memoryMap[i]) && Inside(g, memoryMap[j])
      && (i == j ==> f < g)
  }

  lemma {:induction false} BeforeWithin(f: nat, g: nat, memoryMap: seq<MemoryRegion>)
    requires memoryMap != [] && Inside(f, memoryMap[0]) && Inside(g, memoryMap[0]) && f < g
    ensures Before(f, g, memoryMap)
  {
  }

  lemma {:induction false} BeforeLater(f: nat, g: nat, memoryMap: seq<MemoryRegion>)
    requires memoryMap != [] && Before(f, g, memoryMap[1..])
    ensures Before(f, g, memoryMap)
  {
    var rest := memoryMap[1..];
    var i, j :| 0 <= i <= j < |rest| && Inside(f, rest[i]) && Inside(g, rest[j]) && (i == j ==> f < g);
    assert rest[i] == memoryMap[i + 1] && rest[j] == memoryMap[j + 1];
  }

  lemma {:induction false} BeforeAcross(f: nat, g: nat, memoryMap: seq<MemoryRegion>)
    requires memoryMap != [] && Inside(f, memoryMap[0]) && IsUsable(g, memoryMap[1..])
    ensures Before(f, g, memoryMap)
  {
    var rest := memoryMap[1..];
    var j :| 0 <= j < |rest| && Inside(g, rest[j]);
    assert rest[j] == memoryMap[j + 1];
  }

  lemma {:induction false} StepByRises(start: nat, end: nat)
    requires start % PAGE == 0 && end % PAGE == 0
    ensures var frames := StepBy(start, end);
      forall n, m :: 0 <= n < m < |frames| ==> frames[n] < frames[m]
    decreases if start < end then end - start else 0
  {
    if start >= end {
    } else {
      NextMultiple(start, end);
      StepByRises(start + PAGE, end);
      StepByIs(start + PAGE, end);
      var frames, rest := StepBy(start, end), StepBy(start + PAGE, end);
      assert forall m :: 0 < m < |frames| ==> frames[m] == rest[m - 1] && rest[m - 1] in rest;
    }
  }

  lemma {:induction false} RestIsValid(memoryMap: seq<MemoryRegion>)
    requires ValidMap(memoryMap) && memoryMap != []
    ensures ValidMap(memoryMap[1..])
  {
  }

  // The frames of one region.
  function RegionFrames(region: MemoryRegion): seq<nat> {
    if region.usable then FramesOf(StepBy(region.start, region.end)) else []
  }

  lemma {:induction false} RegionFramesRise(region: MemoryRegion)
    requires region.usable ==> region.start % PAGE == 0 && region.end % PAGE == 0
    ensures var frames := RegionFrames(region);
      && (forall n :: 0 <= n < |frames| ==> Inside(frames[n], region))
      && (forall n, m :: 0 <= n < m < |frames| ==> frames[n] < frames[m])
  {
    if region.usable {
      StepByIs(region.start, region.end);
      StepByRises(region.start, region.end);
      var frames := StepBy(region.start, region.end);
      hide StepBy;
      assert forall n :: 0 <= n < |frames| ==> frames[n] in frames;
    }
  }

  lemma {:induction false} UsableFramesSplit(memoryMap: seq<MemoryRegion>)
    requires ValidMap(memoryMap) && memoryMap != []
    ensures UsableFrames(memoryMap) == RegionFrames(memoryMap[0]) + UsableFrames(memoryMap[1..])
    ensures forall m :: 0 <= m < |UsableFrames(memoryMap[1..])| ==>
              IsUsable(UsableFrames(memoryMap[1..])[m], memoryMap[1..])
  {
    RestIsValid(memoryMap);
    UsableFramesAreExact(memoryMap[1..]);
    var frames := UsableFrames(memoryMap[1..]);
    hide IsUsable, StepBy, FramesOf;
    assert forall m :: 0 <= m < |frames| ==> frames[m] in frames;
  }

  lemma {:induction false} FirstRegionRises(memoryMap: seq<MemoryRegion>, n: nat, m: nat)
    requires ValidMap(memoryMap) && memoryMap != [] && n < m
    ensures var first := RegionFrames(memoryMap[0]);
      && (n < |first| ==> Inside(first[n], memoryMap[0]))
      && (m < |first| ==> Inside(first[m], memoryMap[0]) && first[n] < first[m])
  {
    RegionFramesRise(memoryMap[0]);
  }

  lemma {:induction false} NothingUsable()
    ensures UsableFrames([]) == []
  {
  }

  // Draws from the first region, and from the others behind them.
  lemma {:induction false} DrawSplit(memoryMap: seq<MemoryRegion>, n: nat)
    requires ValidMap(memoryMap) && memoryMap != []
    ensures var first := RegionFrames(memoryMap[0]);
      Draw(memoryMap, n) == if n < |first| then Some(first[n]) else Draw(memoryMap[1..], n - |first|)
    ensures Draw(memoryMap[1..], n).Some? ==> IsUsable(Draw(memoryMap[1..], n).value, memoryMap[1..])
  {
    UsableFramesSplit(memoryMap);
    hide UsableFrames, RegionFrames, IsUsable;
  }

  // Frames come region by region in the order of the memory map, and from low to high
  // addresses within each.
  lemma {:induction false} FramesAreOrdered(memoryMap: seq<MemoryRegion>, n: nat, m: nat)
    requires ValidMap(memoryMap) && n < m
    ensures Draw(memoryMap, m).Some? ==>
              Draw(memoryMap, n).Some? && Before(Draw(memoryMap, n).value, Draw(memoryMap, m).value, memoryMap)
  {
    hide ValidMap, RegionFrames, Inside, IsUsable, Before, UsableFrames;
    if memoryMap == [] {
      NothingUsable();
    } else {
      hide Draw;
      var rest := memoryMap[1..];
      RestIsValid(memoryMap);
      DrawSplit(memoryMap, n);
      DrawSplit(memoryMap, m);
      var first := RegionFrames(memoryMap[0]);
      FirstRegionRises(memoryMap, n, m);
      if m < |first| {
        BeforeWithin(first[n], first[m], memoryMap);
      } else if Draw(memoryMap, m).Some? {
        DrawSplit(memoryMap, m - |first|);
        if n < |first| {
          BeforeAcross(first[n], Draw(memoryMap, m).value, memoryMap);
        } else {
          FramesAreOrdered(rest, n - |first|, m - |first|);
          BeforeLater(Draw(memoryMap, n).value, Draw(memoryMap, m).value, memoryMap);
        }
      }
    }
  }

  // The first frame is the start of the first usable region that is not empty.
  lemma {:induction false} FirstFrame(memoryMap: seq<MemoryRegion>, i: nat)
    requires i < |memoryMap| && memoryMap[i].usable && memoryMap[i].start < memoryMap[i].end
    requires memoryMap[i].start % PAGE == 0
    requires forall j :: 0 <= j < i && memoryMap[j].usable ==> memoryMap[j].start >= memoryMap[j].end
    ensures Draw(memoryMap, 0) == Some(memoryMap[i].start)
  {
    if i == 0 {
      assert StepBy(memoryMap[0].start, memoryMap[0].end)[0] == memoryMap[0].start;
    } else {
      assert memoryMap[1..][i - 1] == memoryMap[i];
      FirstFrame(memoryMap[1..], i - 1);
      assert UsableFrames(memoryMap) == [] + UsableFrames(memoryMap[1..]);
    }
  }

  class BootInfoFrameAllocator {
    const memoryMap: seq<MemoryRegion>
    // The number of the next frame to return.
    var next: nat

    // What an iterator kept between calls would still hold.
    ghost function Rest(): (rest: seq<nat>)
      reads this
      ensures var all := UsableFrames(memoryMap);
        |rest| <= |all| && rest == all[|all| - |rest|..]
    {
      var frames := UsableFrames(memoryMap);
      if next <= |frames| then frames[next..] else []
    }

    constructor (memoryMap: seq<MemoryRegion>)
      ensures this.memoryMap == memoryMap && next == 0
      ensures Rest() == UsableFrames(memoryMap)
    {
      this.memoryMap, this.next := memoryMap, 0;
    }

    // Recomputing the list and skipping `next` frames is a step of the kept iterator,
    // also after its end.
    method AllocateFrame() returns (frame: Option<nat>)
      modifies this
      ensures next == old(next) + 1 && frame == Draw(memoryMap, old(next))
      ensures old(Rest()) == [] ==> frame == None && Rest() == []
      ensures old(Rest()) != [] ==> frame == Some(old(Rest())[0]) && Rest() == old(Rest())[1..]
    {
      var frames := UsableFrames(memoryMap);
      frame := if next < |frames| then Some(frames[next]) else None;
      next := next + 1;
    }
  }
}
