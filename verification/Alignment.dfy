/**
 align_up of src/allocator.rs: the bitmask form the kernel uses, the remainder form
 it replaced, and what both compute.
 */
module Alignment {
  const USIZE: nat := 0x1_0000_0000_0000_0000  // usize is 64 bits wide
  const ADDRESS_LIMIT: nat := 0x8000_0000_0000_0000  // heap addresses are lower-half addresses

  function Max(a: nat, b: nat): nat {
    if a < b then b else a
  }

  function Pow2(k: nat): (r: nat)
    ensures r >= 1
  {
    if k == 0 then 1 else 2 * Pow2(k - 1)
  }

  ghost predicate IsPow2(n: nat) {
    exists k: nat :: n == Pow2(k)
  }

  // Bitwise AND and NOT on machine words, bit by bit from the lowest.
  function BitAnd(x: nat, y: nat): nat {
    if x == 0 || y == 0 then 0
    else (x % 2) * (y % 2) + 2 * BitAnd(x / 2, y / 2)
  }

  function BitNot(x: nat): nat
    requires x < USIZE
  {
    USIZE - 1 - x
  }

  // (addr + align - 1) & !(align - 1)
  function AlignUp(addr: nat, align: nat): nat
    requires 1 <= align && addr + align - 1 < USIZE
  {
    BitAnd(addr + align - 1, BitNot(align - 1))
  }

  function AlignUpByRemainder(addr: nat, align: nat): nat
    requires 1 <= align
  {
    var remainder := addr % align;
    if remainder == 0 then addr else addr - remainder + align
  }

  lemma {:induction false} AndAllOnes(x: nat, w: nat)
    requires x < Pow2(w)
    ensures BitAnd(x, Pow2(w) - 1) == x
    decreases w
  {
    if x != 0 {
      assert (Pow2(w) - 1) / 2 == Pow2(w - 1) - 1;
      AndAllOnes(x / 2, w - 1);
    }
  }

  lemma {:induction false} ModHalves(x: nat, m: nat)
    requires m >= 1
    ensures x % (2 * m) == x % 2 + 2 * (x / 2 % m)
  {
    var q, r := x / 2 / m, x / 2 % m;
    assert x == 2 * m * q + (x % 2 + 2 * r) by {
      assert x / 2 == m * q + r;
    }
    ModUnique(x, 2 * m, q, x % 2 + 2 * r);
  }

  lemma {:induction false} ModUnique(x: int, m: nat, q: int, r: int)
    requires m >= 1 && 0 <= r < m && x == m * q + r
    ensures x % m == r && x / m == q
  {
    var q', r' := x / m, x % m;
    assert m * (q - q') == r' - r;
    MultipleBounds(m, q - q');
  }

  lemma {:induction false} MultipleBounds(m: nat, d: int)
    requires m >= 1
    ensures d >= 1 ==> m * d >= m
    ensures d <= -1 ==> m * d <= 0 - m
  {
  }

  // Masking with the high bits clears the k low ones.
  lemma {:induction false} MaskClearsLowBits(x: nat, k: nat, w: nat)
    requires k <= w && x < Pow2(w)
    ensures Pow2(k) <= Pow2(w) && BitAnd(x, Pow2(w) - Pow2(k)) == x - x % Pow2(k)
    decreases k
  {
    if k == 0 {
      AndAllOnes(x, w);
    } else {
      MaskClearsLowBits(x / 2, k - 1, w - 1);
      var m := Pow2(k - 1);
      ModHalves(x, m);
      var mask := Pow2(w - 1) - m;
      assert Pow2(w) - Pow2(k) == 2 * mask;
      assert BitAnd(x, 2 * mask) == 2 * BitAnd(x / 2, mask);
    }
  }

  lemma {:induction false} UsizeIsPow2()
    ensures Pow2(64) == USIZE
  {
    assert Pow2(4) == 16;
    assert Pow2(8) == 256 by { Pow2Add(4, 4); }
    assert Pow2(16) == 0x1_0000 by { Pow2Add(8, 8); }
    assert Pow2(32) == 0x1_0000_0000 by { Pow2Add(16, 16); }
    Pow2Add(32, 32);
  }

  lemma {:induction false} Pow2Add(a: nat, b: nat)
    ensures Pow2(a + b) == Pow2(a) * Pow2(b)
    decreases a
  {
    if a == 0 {
    } else {
      Pow2Add(a - 1, b);
    }
  }

  lemma {:induction false} Pow2Monotone(a: nat, b: nat)
    requires a <= b
    ensures Pow2(a) <= Pow2(b)
    decreases b
  {
    if a < b {
      Pow2Monotone(a, b - 1);
    }
  }

  lemma {:induction false} Pow2Strict(a: nat, b: nat)
    requires a < b
    ensures Pow2(a) < Pow2(b)
  {
    Pow2Monotone(a + 1, b);
  }

  // An alignment that fits into a usize is at most the address limit.
  lemma {:induction false} AlignIsBounded(align: nat)
    requires IsPow2(align) && align < USIZE
    ensures align <= ADDRESS_LIMIT
  {
    var k: nat :| align == Pow2(k);
    UsizeIsPow2();
    assert Pow2(64) == 2 * Pow2(63);
    if k > 63 {
      Pow2Monotone(64, k);
    } else {
      Pow2Monotone(k, 63);
    }
  }

  // The bitmask form equals the remainder form on every power of two.
  lemma {:induction false} AlignUpForms(addr: nat, align: nat)
    requires IsPow2(align) && addr + align - 1 < USIZE
    ensures AlignUp(addr, align) == AlignUpByRemainder(addr, align)
  {
    var k: nat :| align == Pow2(k);
    UsizeIsPow2();
    if k > 64 {
      Pow2Strict(64, k);
    }
    hide Pow2;
    var x := addr + align - 1;
    MaskClearsLowBits(x, k, 64);
    RoundingDownAbove(addr, align);
  }

  lemma {:induction false} RoundingDownAbove(addr: nat, align: nat)
    requires align >= 1
    ensures var x := addr + align - 1; x - x % align == AlignUpByRemainder(addr, align)
  {
    var q, r := addr / align, addr % align;
    if r == 0 {
      ModUnique(addr + align - 1, align, q, align - 1);
    } else {
      ModUnique(addr + align - 1, align, q + 1, r - 1);
    }
  }

  // It is the least aligned address that is not below `addr`.
  lemma {:induction false} AlignUpIsLeast(addr: nat, align: nat)
    requires IsPow2(align) && addr + align - 1 < USIZE
    ensures var r := AlignUp(addr, align);
      && r % align == 0 && addr <= r < addr + align
      && forall y: nat :: addr <= y && y % align == 0 ==> r <= y
  {
    AlignUpForms(addr, align);
    RoundUpIsLeast(addr, align);
  }

  lemma {:induction false} RoundUpIsLeast(addr: nat, align: nat)
    requires align >= 1
    ensures var r := AlignUpByRemainder(addr, align);
      && r % align == 0 && addr <= r < addr + align
      && forall y: nat :: addr <= y && y % align == 0 ==> r <= y
  {
    var q, r := addr / align, addr % align;
    var up := AlignUpByRemainder(addr, align);
    if r != 0 {
      ModUnique(up, align, q + 1, 0);
    }
    forall y: nat | addr <= y && y % align == 0
      ensures up <= y
    {
      var p := y / align;
      assert y == align * p;
      MultipleBounds(align, p - q);
      MultipleBounds(align, p - (q + 1));
    }
  }

  // Powers of two from m on are multiples of m.
  lemma {:induction false} Pow2Divides(n: nat, k: nat)
    requires IsPow2(n) && n >= Pow2(k)
    ensures n % Pow2(k) == 0
  {
    hide Pow2;
    var j: nat :| n == Pow2(j);
    if j < k {
      Pow2Strict(j, k);
    } else {
      Pow2Add(j - k, k);
      ModUnique(n, Pow2(k), Pow2(j - k), 0);
    }
  }

  lemma {:induction false} DividesTransitive(x: nat, a: nat, m: nat)
    requires a >= 1 && m >= 1 && x % a == 0 && a % m == 0
    ensures x % m == 0
  {
    var p, q := x / a, a / m;
    assert x == m * (q * p) by {
      assert x == a * p && a == m * q;
    }
    ModUnique(x, m, q * p, 0);
  }
}
