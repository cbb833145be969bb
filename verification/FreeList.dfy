/** The free list of the K&R allocator (user/umalloc.c) as a value: the blocks in address order,
    and what inserting, merging and cutting a block mean for the memory they cover.

    Addresses and sizes count units of one header. */
module FreeList {

  datatype Block = Block(addr: nat, size: nat)

  function End(b: Block): nat { b.addr + b.size }

  /** The units a .. a+n-1. */
  ghost function Span(a: nat, n: nat): (s: set<nat>)
    ensures forall u :: u in s <==> a <= u < a + n
  {
    if n == 0 then {} else Span(a, n - 1) + {a + n - 1}
  }

  /** Address order, disjoint, and no two blocks adjacent; the first is `base`, of size 0. */
  ghost predicate Ordered(bs: seq<Block>) {
    && (forall i, j :: 0 <= i < j < |bs| ==> End(bs[i]) < bs[j].addr)
    && (forall i :: 0 < i < |bs| ==> bs[i].size > 0)
  }

  ghost predicate FreeOk(bs: seq<Block>, base: nat) {
    |bs| > 0 && bs[0] == Block(base, 0) && Ordered(bs)
  }

  /** The units the blocks cover. */
  ghost function Units(bs: seq<Block>): set<nat> {
    if bs == [] then {} else Span(bs[0].addr, bs[0].size) + Units(bs[1..])
  }

  lemma {:induction false} UnitsConcat(a: seq<Block>, b: seq<Block>)
    ensures Units(a + b) == Units(a) + Units(b)
  {
    if a == [] {
      assert a + b == b;
    } else {
      UnitsConcat(a[1..], b);
      assert (a + b)[1..] == a[1..] + b;
    }
  }

  lemma UnitsOne(b: Block)
    ensures Units([b]) == Span(b.addr, b.size)
  {
    assert Units([b][1..]) == {};
  }

  lemma {:induction false} UnitsHas(bs: seq<Block>, i: nat)
    requires i < |bs|
    ensures Span(bs[i].addr, bs[i].size) <= Units(bs)
  {
    if i > 0 {
      UnitsHas(bs[1..], i - 1);
    }
  }

  /** Units of bs with block i taken out and `mid` put in its place. */
  lemma UnitsSplice(bs: seq<Block>, i: nat, k: nat, mid: seq<Block>)
    requires i <= k <= |bs|
    ensures Units(bs[..i] + mid + bs[k..]) == Units(bs[..i]) + Units(mid) + Units(bs[k..])
    ensures Units(bs) == Units(bs[..i]) + Units(bs[i..k]) + Units(bs[k..])
  {
    UnitsConcat(bs[..i] + mid, bs[k..]);
    UnitsConcat(bs[..i], mid);
    assert bs == bs[..i] + bs[i..k] + bs[k..];
    UnitsConcat(bs[..i] + bs[i..k], bs[k..]);
    UnitsConcat(bs[..i], bs[i..k]);
  }

  // ----- putting a block back -----

  /** Where a block at address a belongs: after block t. */
  ghost predicate Place(bs: seq<Block>, t: nat, a: nat) {
    t < |bs| && bs[t].addr < a && (t + 1 < |bs| ==> a < bs[t + 1].addr)
  }

  /** The block that results when b is put between its neighbours and merged where they touch. */
  ghost function Merged(bs: seq<Block>, t: nat, b: Block): Block
    requires t < |bs|
  {
    var mid := Block(b.addr, b.size + if MeetsRight(bs, t, b) then bs[t + 1].size else 0);
    if MeetsLeft(bs, t, b) then Block(bs[t].addr, bs[t].size + mid.size) else mid
  }

  ghost predicate MeetsRight(bs: seq<Block>, t: nat, b: Block) { t + 1 < |bs| && End(b) == bs[t + 1].addr }
  ghost predicate MeetsLeft(bs: seq<Block>, t: nat, b: Block) { t < |bs| && End(bs[t]) == b.addr }

  /** bs with b put after block t, merged with its neighbours where they touch. */
  ghost function Insert(bs: seq<Block>, t: nat, b: Block): seq<Block>
    requires t < |bs|
  {
    Splice(bs, if MeetsLeft(bs, t, b) then t else t + 1, if MeetsRight(bs, t, b) then t + 2 else t + 1,
        Merged(bs, t, b))
  }

  /** Blocks i .. k-1 replaced by one. */
  ghost function Splice(bs: seq<Block>, i: nat, k: nat, b: Block): seq<Block>
    requires i <= k <= |bs|
  {
    bs[..i] + [b] + bs[k..]
  }

  lemma SpliceOrdered(bs: seq<Block>, i: nat, k: nat, b: Block)
    requires Ordered(bs) && 0 < i <= k <= |bs| && b.size > 0
    requires End(bs[i - 1]) < b.addr && (k < |bs| ==> End(b) < bs[k].addr)
    ensures Ordered(Splice(bs, i, k, b))
  {
    var cs := Splice(bs, i, k, b);
    forall x | 0 <= x < |cs|
      ensures x < i ==> cs[x] == bs[x] && End(cs[x]) < b.addr
      ensures x > i ==> cs[x] == bs[x - i - 1 + k] && End(b) < cs[x].addr
    {
      if x > i && k < |bs| && x - i - 1 > 0 { assert End(bs[k]) < bs[x - i - 1 + k].addr; }
      if x < i - 1 { assert End(bs[x]) < bs[i - 1].addr; }
    }
    forall x, y | 0 <= x < y < |cs|
      ensures End(cs[x]) < cs[y].addr
    {
    }
  }

  /** The block overlaps no free block. */
  ghost predicate Apart(bs: seq<Block>, b: Block) { Span(b.addr, b.size) !! Units(bs) }

  lemma ApartBounds(bs: seq<Block>, base: nat, t: nat, b: Block)
    requires FreeOk(bs, base) && Place(bs, t, b.addr) && b.size > 0 && Apart(bs, b)
    ensures End(bs[t]) <= b.addr && (t + 1 < |bs| ==> End(b) <= bs[t + 1].addr)
  {
    UnitsHas(bs, t);
    assert b.addr in Span(b.addr, b.size);
    if t + 1 < |bs| {
      UnitsHas(bs, t + 1);
      assert bs[t + 1].addr in Span(bs[t + 1].addr, bs[t + 1].size);
    }
  }

  lemma InsertOrdered(bs: seq<Block>, base: nat, t: nat, b: Block)
    requires FreeOk(bs, base) && Place(bs, t, b.addr) && b.size > 0 && Apart(bs, b)
    ensures FreeOk(Insert(bs, t, b), base)
  {
    ApartBounds(bs, base, t, b);
    var i := if MeetsLeft(bs, t, b) then t else t + 1;
    var k := if MeetsRight(bs, t, b) then t + 2 else t + 1;
    SpliceOrdered(bs, i, k, Merged(bs, t, b));
  }

  lemma InsertUnits(bs: seq<Block>, base: nat, t: nat, b: Block)
    requires FreeOk(bs, base) && Place(bs, t, b.addr) && b.size > 0 && Apart(bs, b)
    ensures Units(Insert(bs, t, b)) == Units(bs) + Span(b.addr, b.size)
  {
    hide Ordered, Units;
    var i := if MeetsLeft(bs, t, b) then t else t + 1;
    var k := if MeetsRight(bs, t, b) then t + 2 else t + 1;
    var put := Merged(bs, t, b);
    UnitsSplice(bs, i, k, [put]);
    Pieces(bs, i, k);
    UnitsOne(put);
    UnitsOne(bs[t]);
    if t + 1 < |bs| { UnitsOne(bs[t + 1]); }
  }

  /** The at most two blocks that an insertion replaces. */
  lemma Pieces(bs: seq<Block>, i: nat, k: nat)
    requires i <= k <= |bs| && k <= i + 2
    ensures i == k ==> Units(bs[i..k]) == {}
    ensures k == i + 1 ==> Units(bs[i..k]) == Units([bs[i]])
    ensures k == i + 2 ==> Units(bs[i..k]) == Units([bs[i]]) + Units([bs[i + 1]])
  {
    if k == i + 1 {
      assert bs[i..k] == [bs[i]];
    } else if k == i + 2 {
      assert bs[i..k] == [bs[i]] + [bs[i + 1]];
      UnitsConcat([bs[i]], [bs[i + 1]]);
    }
  }

  // ----- taking a block out -----

  /** bs after n units have been taken from the end of block x. */
  ghost function Cut(bs: seq<Block>, x: nat, n: nat): seq<Block>
    requires x < |bs| && n <= bs[x].size
  {
    if bs[x].size == n then bs[..x] + bs[x + 1..] else bs[..x] + [Block(bs[x].addr, bs[x].size - n)] + bs[x + 1..]
  }

  lemma CutOrdered(bs: seq<Block>, base: nat, x: nat, n: nat)
    requires FreeOk(bs, base) && x < |bs| && 0 < n <= bs[x].size
    ensures FreeOk(Cut(bs, x, n), base)
  {
    if bs[x].size == n {
      var cs := Cut(bs, x, n);
      assert forall i :: 0 <= i < |cs| ==> cs[i] == bs[if i < x then i else i + 1];
    } else {
      SpliceOrdered(bs, x, x + 1, Block(bs[x].addr, bs[x].size - n));
    }
  }

  lemma CutUnits(bs: seq<Block>, base: nat, x: nat, n: nat)
    requires FreeOk(bs, base) && x < |bs| && 0 < n <= bs[x].size
    ensures var a := bs[x].addr + bs[x].size - n;
            Units(bs) == Units(Cut(bs, x, n)) + Span(a, n) && Span(a, n) !! Units(Cut(bs, x, n))
  {
    hide Ordered, Units;
    var b := bs[x];
    var a := b.addr + b.size - n;
    var left := if b.size == n then [] else [Block(b.addr, b.size - n)];
    Outside(bs, base, x);
    assert Span(b.addr, b.size) == Span(b.addr, b.size - n) + Span(a, n) && Span(a, n) !! Span(b.addr, b.size - n);
    UnitsSplice(bs, x, x + 1, left);
    assert bs[..x] + [] + bs[x + 1..] == bs[..x] + bs[x + 1..];
    Pieces(bs, x, x + 1);
    UnitsOne(b);
    UnitsNone();
    if b.size != n { UnitsOne(left[0]); }
  }

  lemma UnitsNone()
    ensures Units([]) == {}
  {}

  lemma Outside(bs: seq<Block>, base: nat, x: nat)
    requires FreeOk(bs, base) && x < |bs|
    ensures Units(bs[..x]) !! Span(bs[x].addr, bs[x].size) && Units(bs[x + 1..]) !! Span(bs[x].addr, bs[x].size)
  {
    UnitsBelow(bs[..x], bs[x].addr);
    UnitsAbove(bs[x + 1..], End(bs[x]));
  }

  lemma {:induction false} UnitsBelow(bs: seq<Block>, a: nat)
    requires forall i :: 0 <= i < |bs| ==> End(bs[i]) <= a
    ensures forall u :: u in Units(bs) ==> u < a
  {
    if bs != [] { UnitsBelow(bs[1..], a); }
  }

  lemma {:induction false} UnitsAbove(bs: seq<Block>, a: nat)
    requires forall i :: 0 <= i < |bs| ==> a <= bs[i].addr
    ensures forall u :: u in Units(bs) ==> a <= u
  {
    if bs != [] { UnitsAbove(bs[1..], a); }
  }
}
