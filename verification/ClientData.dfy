/**
 Data of clients over whole runs: whatever an allocator does between two calls, a word in
 use holds what was last written to it.
 */
module ClientData {
  import opened Regions
  import opened WordMemory

  // The blocks in use and the memory, between two calls.
  datatype View = View(live: seq<Region>, mem: Words)

  datatype Act = Take | Release(i: nat) | Write(i: nat, addr: nat, word: nat)

  // What an allocator may do to its clients: hand out one more block or none, take back
  // block i, or let its owner write; blocks in use before and after keep their words.
  ghost predicate Moves(v: View, act: Act, v': View) {
    match act
    case Take => v.live <= v'.live && |v'.live| <= |v.live| + 1 && Preserved(v.mem, v'.mem, v.live)
    case Release(i) => i < |v.live| && v'.live == Without(v.live, i) && Preserved(v.mem, v'.mem, v'.live)
    case Write(i, addr, word) =>
      i < |v.live| && v.live[i].Contains(addr) && v' == v.(mem := v.mem[WordOf(addr) := word])
  }

  ghost predicate IsRun(views: seq<View>, acts: seq<Act>) {
    |views| == |acts| + 1 && forall j :: 0 <= j < |acts| ==> Moves(views[j], acts[j], views[j + 1])
  }

  ghost predicate InUse(v: View, w: nat) {
    exists i :: 0 <= i < |v.live| && Touches(v.live[i], w)
  }

  predicate Writes(act: Act, w: nat) {
    act.Write? && WordOf(act.addr) == w
  }

  lemma {:induction false} MoveKeepsWord(v: View, act: Act, v': View, w: nat)
    requires Moves(v, act, v') && !Writes(act, w) && w % WORD == 0 && InUse(v, w) && InUse(v', w)
    ensures Same(v.mem, v'.mem, w)
  {
    var i :| 0 <= i < |v.live| && Touches(v.live[i], w);
    var j :| 0 <= j < |v'.live| && Touches(v'.live[j], w);
  }

  // No two clients have bytes in one word.
  ghost predicate Unshared(v: View) {
    forall i, j, addr: nat :: 0 <= i < |v.live| && 0 <= j < |v.live| && i != j && v.live[i].Contains(addr) ==>
      !Touches(v.live[j], WordOf(addr))
  }

  // A write is what is read at the end of the run, if nobody wrote the word again and it
  // was in use all the time.
  lemma {:induction false} LastWriteIsRead(views: seq<View>, acts: seq<Act>, k: nat)
    requires IsRun(views, acts) && k < |acts| && acts[k].Write?
    requires forall j :: k < j < |acts| ==> !Writes(acts[j], WordOf(acts[k].addr))
    requires forall j :: k < j < |views| ==> InUse(views[j], WordOf(acts[k].addr))
    ensures var mem := views[|acts|].mem;
      WordOf(acts[k].addr) in mem && mem[WordOf(acts[k].addr)] == acts[k].word
    decreases |acts|
  {
    var n := |acts| - 1;
    assert Moves(views[n], acts[n], views[n + 1]);
    if k < n {
      hide Moves;
      LastWriteIsRead(views[..n + 1], acts[..n], k);
      MoveKeepsWord(views[n], acts[n], views[n + 1], WordOf(acts[k].addr));
    }
  }

  // The act writes the word as the owner of block r.
  ghost predicate OwnerWrites(v: View, act: Act, r: Region, w: nat) {
    Writes(act, w) && act.i < |v.live| && v.live[act.i] == r
  }

  // Who does not own the block cannot write its words.
  lemma {:induction false} OnlyOwnersWrite(v: View, act: Act, v': View, r: Region, w: nat)
    requires Moves(v, act, v') && Unshared(v) && r in v.live && Touches(r, w) && Writes(act, w)
    ensures OwnerWrites(v, act, r, w)
  {
    var j :| 0 <= j < |v.live| && v.live[j] == r;
    if act.i != j {
      assert !Touches(v.live[j], WordOf(act.addr));
    }
  }

  // As long as a block is in use and its owner does not write the word again, it holds
  // what its owner wrote.
  lemma {:induction false} OwnersReadBack(views: seq<View>, acts: seq<Act>, k: nat)
    requires IsRun(views, acts) && k < |acts| && acts[k].Write? && acts[k].i < |views[k].live|
    requires forall j :: 0 <= j < |views| ==> Unshared(views[j])
    requires forall j :: k < j < |views| ==> views[k].live[acts[k].i] in views[j].live
    requires forall j :: k < j < |acts| ==>
      !OwnerWrites(views[j], acts[j], views[k].live[acts[k].i], WordOf(acts[k].addr))
    ensures var mem := views[|acts|].mem;
      WordOf(acts[k].addr) in mem && mem[WordOf(acts[k].addr)] == acts[k].word
  {
    var r, w := views[k].live[acts[k].i], WordOf(acts[k].addr);
    assert Moves(views[k], acts[k], views[k + 1]);
    assert Touches(r, w);
    hide Unshared, Preserved, OwnerWrites;
    forall j | k < j < |acts|
      ensures !Writes(acts[j], w)
    {
      assert Moves(views[j], acts[j], views[j + 1]);
      if Writes(acts[j], w) {
        OnlyOwnersWrite(views[j], acts[j], views[j + 1], r, w);
      }
    }
    forall j | k < j < |views|
      ensures InUse(views[j], w)
    {
      var i :| 0 <= i < |views[j].live| && views[j].live[i] == r;
    }
    LastWriteIsRead(views, acts, k);
  }
}
