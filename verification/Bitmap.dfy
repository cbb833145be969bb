/** Bits within bitmap blocks: the `1 << (bi % 8)` arithmetic of balloc and bfree. */
module Bitmap {
  import opened Blocks

  const BPB := 8192

  /** Bit k of a byte: (x & (1 << k)) != 0. */
  predicate TestBit(x: nat, k: nat)
    decreases k
  {
    if k == 0 then x % 2 == 1 else TestBit(x / 2, k - 1)
  }

  /** x | (1 << k) or x & ~(1 << k). */
  function PutBit(x: nat, k: nat, v: bool): (r: nat)
    decreases k
  {
    if k == 0 then x / 2 * 2 + (if v then 1 else 0) else PutBit(x / 2, k - 1, v) * 2 + x % 2
  }

  lemma {:induction false} PutThenTest(x: nat, k: nat, v: bool, j: nat)
    ensures TestBit(PutBit(x, k, v), j) == if j == k then v else TestBit(x, j)
    decreases k
  {
    if k != 0 && j != 0 { PutThenTest(x / 2, k - 1, v, j - 1); }
  }

  function Pow2(k: nat): nat { if k == 0 then 1 else 2 * Pow2(k - 1) }

  lemma {:induction false} PutInRange(x: nat, k: nat, v: bool, n: nat)
    requires k < n && x < Pow2(n)
    ensures PutBit(x, k, v) < Pow2(n)
    decreases k
  {
    if k != 0 { PutInRange(x / 2, k - 1, v, n - 1); }
  }

  lemma PutByte(x: byte, k: nat, v: bool)
    requires k < 8
    ensures PutBit(x, k, v) < 256
  {
    assert Pow2(8) == 256 by {
      assert Pow2(4) == 16;
      assert Pow2(8) == 16 * Pow2(4);
    }
    PutInRange(x, k, v, 8);
  }

  predicate GetBit(d: Block, bi: nat)
    requires bi < BPB
  {
    TestBit(d[bi / 8], bi % 8)
  }

  lemma {:induction false} TestIsDigit(x: nat, k: nat)
    ensures Pow2(k) > 0 && (TestBit(x, k) <==> x / Pow2(k) % 2 == 1)
    decreases k
  {
    if k != 0 {
      TestIsDigit(x / 2, k - 1);
      HalfThen(x, Pow2(k - 1));
    }
  }

  lemma HalfThen(x: nat, n: nat)
    requires n > 0
    ensures x / (2 * n) == x / 2 / n
  {
    var q, r := x / 2 / n, x / 2 % n;
    var rest := 2 * r + x % 2;
    assert x == q * (2 * n) + rest by { assert x / 2 == q * n + r && 2 * (q * n) == q * (2 * n); }
    QuotientIs(x, 2 * n, q, rest);
  }

  lemma Multiples(a: int, b: int, d: nat)
    requires a <= b
    ensures a * d <= b * d
  {
    assert (b - a) * d >= 0;
  }

  lemma QuotientIs(x: nat, d: nat, q: nat, r: nat)
    requires d > 0 && x == q * d + r && r < d
    ensures x / d == q
  {
    var q' := x / d;
    if q' > q {
      Multiples(q + 1, q', d);
    } else if q' < q {
      Multiples(q' + 1, q, d);
    }
  }

  /** Bit bi of a bitmap block is binary digit bi % 8 of its byte bi / 8. */
  lemma BitLayout(d: Block, bi: nat)
    requires bi < BPB
    ensures Pow2(bi % 8) > 0 && (GetBit(d, bi) <==> d[bi / 8] / Pow2(bi % 8) % 2 == 1)
  {
    TestIsDigit(d[bi / 8], bi % 8);
  }

  function SetBit(d: Block, bi: nat, v: bool): (r: Block)
    requires bi < BPB
    ensures forall j: nat :: j < BPB ==> GetBit(r, j) == if j == bi then v else GetBit(d, j)
  {
    PutByte(d[bi / 8], bi % 8, v);
    var r: Block := d[bi / 8 := PutBit(d[bi / 8], bi % 8, v)];
    assert forall j: nat :: j < BPB ==> GetBit(r, j) == if j == bi then v else GetBit(d, j) by {
      forall j: nat | j < BPB
        ensures GetBit(r, j) == if j == bi then v else GetBit(d, j)
      {
        PutThenTest(d[bi / 8], bi % 8, v, j % 8);
      }
    }
    r
  }
}
