/**
 Sums over sequences, and memory regions seen byte by byte.

 A collection of regions is described by how many of them contain each address. That
 single function says whether they overlap, where they lie and what they cover, and it
 changes by simple addition when a region is split, taken out or put back.
 */
module Regions {
  function SumOf<T>(s: seq<T>, f: T -> nat): nat {
    if s == [] then 0 else f(s[0]) + SumOf(s[1..], f)
  }

  lemma {:induction false} SumConcat<T>(a: seq<T>, b: seq<T>, f: T -> nat)
    ensures SumOf(a + b, f) == SumOf(a, f) + SumOf(b, f)
  {
    if a == [] {
      assert a + b == b;
    } else {
      assert (a + b)[0] == a[0] && (a + b)[1..] == a[1..] + b;
      SumConcat(a[1..], b, f);
    }
  }

  lemma {:induction false} SumOne<T>(x: T, f: T -> nat)
    ensures SumOf([x], f) == f(x)
  {
    assert [x][1..] == [];
  }

  function Without<T>(s: seq<T>, i: nat): (r: seq<T>)
    requires i < |s|
    ensures |r| == |s| - 1
  {
    s[..i] + s[i + 1..]
  }

  lemma {:induction false} SumWithout<T>(s: seq<T>, i: nat, f: T -> nat)
    requires i < |s|
    ensures SumOf(s, f) == SumOf(Without(s, i), f) + f(s[i])
  {
    assert s == s[..i] + ([s[i]] + s[i + 1..]);
    SumConcat(s[..i], [s[i]] + s[i + 1..], f);
    SumConcat([s[i]], s[i + 1..], f);
    SumOne(s[i], f);
    SumConcat(s[..i], s[i + 1..], f);
  }

  lemma {:induction false} SumAppend<T>(s: seq<T>, x: T, f: T -> nat)
    ensures SumOf(s + [x], f) == SumOf(s, f) + f(x)
  {
    SumConcat(s, [x], f);
    SumOne(x, f);
  }

  lemma {:induction false} SumPrepend<T>(x: T, s: seq<T>, f: T -> nat)
    ensures SumOf([x] + s, f) == f(x) + SumOf(s, f)
  {
    SumConcat([x], s, f);
    SumOne(x, f);
  }

  lemma {:induction false} SumAtLeast<T>(s: seq<T>, i: nat, f: T -> nat)
    requires i < |s|
    ensures SumOf(s, f) >= f(s[i])
  {
    SumWithout(s, i, f);
  }

  lemma {:induction false} SumAtLeastTwo<T>(s: seq<T>, i: nat, j: nat, f: T -> nat)
    requires i < j < |s|
    ensures SumOf(s, f) >= f(s[i]) + f(s[j])
  {
    SumWithout(s, i, f);
    assert Without(s, i)[j - 1] == s[j];
    SumAtLeast(Without(s, i), j - 1, f);
  }

  datatype Region = Region(start: nat, size: nat) {
    function End(): nat {
      start + size
    }

    predicate Contains(b: int) {
      start <= b < End()
    }
  }

  predicate Disjoint(r: Region, s: Region) {
    r.End() <= s.start || s.End() <= r.start
  }

  function SizeOf(): Region -> nat {
    (r: Region) => r.size
  }

  function HitAt(b: int): Region -> nat {
    (r: Region) => if r.Contains(b) then 1 else 0
  }

  // How many of the regions contain address b.
  function Covers(s: seq<Region>, b: int): nat {
    SumOf(s, HitAt(b))
  }

  function Total(s: seq<Region>): nat {
    SumOf(s, SizeOf())
  }
}
