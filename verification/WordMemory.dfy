/**
 The heap memory as 8-byte words at addresses divisible by 8.
 */
module WordMemory {
  import opened Regions

  const WORD: nat := 8

  type Words = map<nat, nat>

  // The word an address lies in.
  function WordOf(addr: nat): (w: nat)
    ensures w % WORD == 0 && w <= addr < w + WORD
  {
    addr - addr % WORD
  }

  predicate Same(mem: Words, mem': Words, w: nat) {
    (w in mem <==> w in mem') && (w in mem ==> mem[w] == mem'[w])
  }

  // The word at w has a byte of the region in it.
  predicate Touches(r: Region, w: nat) {
    w < r.End() && r.start < w + WORD
  }

  // What clients stored in these regions is still there.
  ghost predicate Preserved(mem: Words, mem': Words, regions: seq<Region>) {
    forall w: nat, i ::
      0 <= i < |regions| && w % WORD == 0 && Touches(regions[i], w) ==> Same(mem, mem', w)
  }

  lemma {:induction false} PreservedTwice(a: Words, b: Words, c: Words, regions: seq<Region>)
    requires a == b || Preserved(a, b, regions)
    requires b == c || Preserved(b, c, regions)
    ensures Preserved(a, c, regions)
  {
    forall w: nat, i | 0 <= i < |regions| && w % WORD == 0 && Touches(regions[i], w)
      ensures Same(a, c, w)
    {
      assert Same(a, b, w) && Same(b, c, w);
    }
  }
}
