/** The K&R allocator (user/umalloc.c) on header words: `ptr` and `size` hold the two fields of the
    header at each unit address, `freep` the roving pointer (0 when unset).

    Ghost state: the free blocks in address order, the live blocks with their sizes, and the
    arena, all units obtained from sbrk. */
module Umalloc {
  import opened Common
  import opened FreeList

  type Words = map<nat, nat>

  function Next(i: nat, n: nat): nat { if i + 1 == n then 0 else i + 1 }

  // ----- the linked list -----

  ghost predicate LinkAt(ptr: Words, size: Words, bs: seq<Block>, i: nat)
    requires i < |bs|
  {
    var a := bs[i].addr;
    a in ptr && a in size && size[a] == bs[i].size && Next(i, |bs|) < |bs| && ptr[a] == bs[Next(i, |bs|)].addr
  }

  /** The headers form a circular list of the blocks in address order, with one wrap. */
  ghost predicate Linked(ptr: Words, size: Words, bs: seq<Block>) {
    forall i: nat :: i < |bs| ==> LinkAt(ptr, size, bs, i)
  }

  /** The headers agree on all addresses but those given. */
  ghost predicate AgreeBut(w: Words, w': Words, s: set<nat>) {
    forall a :: a in w && a !in s ==> a in w' && w'[a] == w[a]
  }

  /** Replacing blocks i .. k-1 by one, when the block before is made to point to it and it to
      the block after. */
  lemma SpliceLinked(ptr: Words, size: Words, bs: seq<Block>, i: nat, k: nat, b: Block, ptr': Words, size': Words,
                     s: set<nat>)
    requires Linked(ptr, size, bs) && 0 < i <= k <= |bs|
    requires AgreeBut(ptr, ptr', s + {bs[i - 1].addr, b.addr}) && AgreeBut(size, size', s + {b.addr})
    requires forall x :: 0 <= x < i || k <= x < |bs| ==>
               bs[x].addr !in s && bs[x].addr != b.addr && (x != i - 1 ==> bs[x].addr != bs[i - 1].addr)
    requires bs[i - 1].addr in ptr' && ptr'[bs[i - 1].addr] == b.addr
    requires b.addr in ptr' && b.addr in size' && size'[b.addr] == b.size
             && ptr'[b.addr] == bs[if k < |bs| then k else 0].addr
    ensures Linked(ptr', size', Splice(bs, i, k, b))
  {
    var cs := Splice(bs, i, k, b);
    forall x: nat | x < |cs|
      ensures LinkAt(ptr', size', cs, x)
    {
      if x < i {
        assert LinkAt(ptr, size, bs, x) && cs[x] == bs[x];
        if x + 1 < i { assert cs[x + 1] == bs[x + 1]; }
      } else if x > i {
        var y := x - i - 1 + k;
        assert LinkAt(ptr, size, bs, y) && cs[x] == bs[y];
        if y + 1 < |bs| { assert cs[x + 1] == bs[y + 1]; }
      } else if k < |bs| {
        assert cs[i + 1] == bs[k];
      }
    }
  }

  lemma RemoveLinked(ptr: Words, size: Words, bs: seq<Block>, x: nat, ptr': Words)
    requires Linked(ptr, size, bs) && 0 < x < |bs| && Ordered(bs) && bs[x - 1].addr in ptr
    requires ptr' == ptr[bs[x - 1].addr := bs[Next(x, |bs|)].addr]
    ensures Linked(ptr', size, bs[..x] + bs[x + 1..])
  {
    var cs := bs[..x] + bs[x + 1..];
    forall y: nat | y < |cs|
      ensures LinkAt(ptr', size, cs, y)
    {
      var z := if y < x then y else y + 1;
      assert LinkAt(ptr, size, bs, z) && cs[y] == bs[z];
      if y != x - 1 {
        assert bs[z].addr != bs[x - 1].addr;
        if z + 1 < |bs| { assert cs[y + 1] == bs[z + 1]; }
      } else if x + 1 < |bs| {
        assert cs[x] == bs[x + 1];
      }
    }
  }

  // ----- live blocks -----

  ghost function LiveUnits(live: map<nat, nat>): set<nat> {
    set b, u | b in live && u in Span(b, live[b]) :: u
  }

  ghost predicate LiveApart(live: map<nat, nat>) {
    forall b, c :: b in live && c in live && b != c ==> Span(b, live[b]) !! Span(c, live[c])
  }

  lemma LiveAdd(live: map<nat, nat>, b: nat, n: nat)
    requires b !in live && LiveApart(live) && LiveUnits(live) !! Span(b, n)
    ensures LiveApart(live[b := n]) && LiveUnits(live[b := n]) == LiveUnits(live) + Span(b, n)
  {
    var live' := live[b := n];
    assert forall c :: c in live ==> c in live' && live'[c] == live[c];
    assert b in live' && live'[b] == n;
    forall c | c in live
      ensures Span(c, live[c]) <= LiveUnits(live)
    {
    }
  }

  lemma LiveRemove(live: map<nat, nat>, b: nat)
    requires b in live && LiveApart(live)
    ensures LiveApart(live - {b}) && LiveUnits(live) == LiveUnits(live - {b}) + Span(b, live[b])
    ensures LiveUnits(live - {b}) !! Span(b, live[b])
  {
    hide Span;
    var rest, n := live - {b}, live[b];
    forall u | u in LiveUnits(rest)
      ensures u !in Span(b, n)
    {
      var c :| c in rest && u in Span(c, rest[c]);
    }
    LiveAdd(rest, b, n);
    assert rest[b := n] == live;
  }

  // ----- the heap -----

  /** Everything the allocator relies on. */
  ghost predicate HeapOk(base: nat, ptr: Words, size: Words, freep: nat, bs: seq<Block>, live: map<nat, nat>,
                         arena: set<nat>) {
    && 0 < base && FreeOk(bs, base)
    && (freep == 0 ==> bs == [Block(base, 0)] && live == map[] && arena == {})
    && (freep != 0 ==> Linked(ptr, size, bs) && exists i: nat :: At(bs, i, freep))
    && (forall b :: b in live ==> live[b] > 0 && b in size && size[b] == live[b])
    && LiveApart(live) && Covers(bs, live, arena) && (forall u :: u in arena ==> base < u)
  }

  /** Free and live units are disjoint and together are the arena. */
  ghost predicate Covers(bs: seq<Block>, live: map<nat, nat>, arena: set<nat>) {
    Units(bs) !! LiveUnits(live) && Units(bs) + LiveUnits(live) == arena
  }

  ghost predicate At(bs: seq<Block>, i: nat, a: nat) { i < |bs| && bs[i].addr == a }

  lemma LiveBlock(base: nat, ptr: Words, size: Words, freep: nat, bs: seq<Block>, live: map<nat, nat>,
                  arena: set<nat>, b: nat)
    requires HeapOk(base, ptr, size, freep, bs, live, arena) && b in live
    ensures freep != 0 && base < b && Apart(bs, Block(b, live[b])) && live[b] > 0 && b in size && size[b] == live[b]
  {
    LiveRemove(live, b);
    assert b in Span(b, live[b]);
  }

  // ----- free's search -----

  /** The exit test of free's loop at block i. */
  ghost predicate Stops(bs: seq<Block>, i: nat, a: nat)
    requires i < |bs|
  {
    var p, q := bs[i].addr, bs[Next(i, |bs|)].addr;
    (a > p && a < q) || (p >= q && (a > p || a < q))
  }

  lemma StopsAtPlace(bs: seq<Block>, base: nat, i: nat, a: nat)
    requires FreeOk(bs, base) && i < |bs| && base < a && (forall x :: 0 <= x < |bs| ==> bs[x].addr != a)
    ensures Stops(bs, i, a) <==> Place(bs, i, a)
  {
    if i + 1 < |bs| { assert End(bs[i]) < bs[i + 1].addr; }
    if i > 0 { assert End(bs[0]) < bs[i].addr; }
  }

  lemma {:induction false} PlaceExists(bs: seq<Block>, base: nat, a: nat, i: nat) returns (t: nat)
    requires FreeOk(bs, base) && i < |bs| && bs[i].addr < a && (forall x :: 0 <= x < |bs| ==> bs[x].addr != a)
    ensures Place(bs, t, a)
    decreases |bs| - i
  {
    if i + 1 == |bs| || a < bs[i + 1].addr {
      t := i;
    } else {
      t := PlaceExists(bs, base, a, i + 1);
    }
  }

  lemma ApartFromAll(bs: seq<Block>, base: nat, b: Block)
    requires FreeOk(bs, base) && Apart(bs, b) && b.size > 0 && base < b.addr
    ensures forall x :: 0 <= x < |bs| ==> bs[x].addr != b.addr
  {
    forall x | 0 <= x < |bs|
      ensures bs[x].addr != b.addr
    {
      if x > 0 {
        UnitsHas(bs, x);
        assert bs[x].addr in Span(bs[x].addr, bs[x].size);
        assert b.addr in Span(b.addr, b.size);
      }
    }
  }

  // ----- free's relinking -----

  /** The headers before, with the block at bp of size n to go after block t. */
  ghost predicate Freeing(base: nat, ptr: Words, size: Words, bs: seq<Block>, t: nat, b: Block) {
    && FreeOk(bs, base) && Linked(ptr, size, bs) && Place(bs, t, b.addr) && b.size > 0 && Apart(bs, b)
    && b.addr in size && size[b.addr] == b.size && base < b.addr
  }

  /** The headers after free's two tests, p being the block before bp. */
  ghost predicate Relinked(ptr: Words, size: Words, p: nat, bp: nat, ptr': Words, size': Words)
    requires p in ptr && bp in size && ptr[p] in ptr && ptr[p] in size && p in size && bp != p
  {
    var q, n := ptr[p], size[bp];
    var size1 := if bp + n == q then size[bp := n + size[q]] else size;
    var ptr1 := ptr[bp := if bp + n == q then ptr[q] else q];
    && size' == (if p + size1[p] == bp then size1[p := size1[p] + size1[bp]] else size1)
    && ptr' == ptr1[p := if p + size1[p] == bp then ptr1[bp] else bp]
  }

  lemma FreeingFacts(base: nat, ptr: Words, size: Words, bs: seq<Block>, t: nat, b: Block)
    requires Freeing(base, ptr, size, bs, t, b)
    ensures forall x :: 0 <= x < |bs| ==> bs[x].addr != b.addr
    ensures var p := bs[t].addr; p in ptr && p in size && ptr[p] in ptr && ptr[p] in size && b.addr != p
    ensures var q := ptr[bs[t].addr]; q == bs[Next(t, |bs|)].addr && (b.addr + b.size == q <==> MeetsRight(bs, t, b))
    ensures size[bs[t].addr] == bs[t].size && (MeetsLeft(bs, t, b) ==> t > 0)
    ensures t > 0 ==> bs[t - 1].addr in ptr && ptr[bs[t - 1].addr] == bs[t].addr
    ensures MeetsRight(bs, t, b) ==>
              size[bs[t + 1].addr] == bs[t + 1].size && ptr[bs[t + 1].addr] == bs[Next(t + 1, |bs|)].addr
  {
    ApartFromAll(bs, base, b);
    assert LinkAt(ptr, size, bs, t);
    assert LinkAt(ptr, size, bs, Next(t, |bs|));
    if t > 0 { assert LinkAt(ptr, size, bs, t - 1); }
  }

  lemma RelinkLinked(base: nat, ptr: Words, size: Words, bs: seq<Block>, t: nat, b: Block, ptr': Words, size': Words)
    requires Freeing(base, ptr, size, bs, t, b)
    requires var p := bs[t].addr;
             && p in ptr && p in size && ptr[p] in ptr && ptr[p] in size && b.addr != p
             && Relinked(ptr, size, p, b.addr, ptr', size')
    ensures Linked(ptr', size', Insert(bs, t, b)) && At(Insert(bs, t, b), t, bs[t].addr)
    ensures AgreeBut(size, size', {b.addr, bs[t].addr})
  {
    hide Ordered, Units, Span, Linked, FreeOk, Apart;
    FreeingFacts(base, ptr, size, bs, t, b);
    Distinct(bs, base, t);
    if MeetsLeft(bs, t, b) {
      RelinkLeft(ptr, size, bs, t, b, ptr', size');
    } else {
      RelinkApart(ptr, size, bs, t, b, ptr', size');
    }
  }

  /** What relinking may use of the headers. */
  ghost predicate Around(ptr: Words, size: Words, bs: seq<Block>, t: nat, b: Block) {
    && t < |bs| && Linked(ptr, size, bs) && b.addr in size && size[b.addr] == b.size
    && (forall x :: 0 <= x < |bs| ==> bs[x].addr != b.addr)
    && (forall x :: 0 <= x < |bs| && x != t ==> bs[x].addr != bs[t].addr)
    && (t > 0 ==> forall x :: 0 <= x < |bs| && x != t - 1 ==> bs[x].addr != bs[t - 1].addr)
    && (var p := bs[t].addr;
        && p in ptr && p in size && ptr[p] in ptr && ptr[p] in size && size[p] == bs[t].size
        && ptr[p] == bs[Next(t, |bs|)].addr)
    && (b.addr + b.size == ptr[bs[t].addr] <==> MeetsRight(bs, t, b))
    && (t > 0 ==> bs[t - 1].addr in ptr && ptr[bs[t - 1].addr] == bs[t].addr)
    && (MeetsRight(bs, t, b) ==>
          size[bs[t + 1].addr] == bs[t + 1].size && ptr[bs[t + 1].addr] == bs[Next(t + 1, |bs|)].addr)
  }

  lemma RelinkLeft(ptr: Words, size: Words, bs: seq<Block>, t: nat, b: Block, ptr': Words, size': Words)
    requires Around(ptr, size, bs, t, b) && MeetsLeft(bs, t, b) && t > 0
             && Relinked(ptr, size, bs[t].addr, b.addr, ptr', size')
    ensures Linked(ptr', size', Insert(bs, t, b)) && At(Insert(bs, t, b), t, bs[t].addr)
    ensures AgreeBut(size, size', {b.addr, bs[t].addr})
  {
    hide Linked;
    SpliceLinked(ptr, size, bs, t, if MeetsRight(bs, t, b) then t + 2 else t + 1, Merged(bs, t, b), ptr', size',
        {b.addr});
  }

  lemma RelinkApart(ptr: Words, size: Words, bs: seq<Block>, t: nat, b: Block, ptr': Words, size': Words)
    requires Around(ptr, size, bs, t, b) && !MeetsLeft(bs, t, b) && Relinked(ptr, size, bs[t].addr, b.addr, ptr', size')
    ensures Linked(ptr', size', Insert(bs, t, b)) && At(Insert(bs, t, b), t, bs[t].addr)
    ensures AgreeBut(size, size', {b.addr, bs[t].addr})
  {
    hide Linked;
    SpliceLinked(ptr, size, bs, t + 1, if MeetsRight(bs, t, b) then t + 2 else t + 1, Merged(bs, t, b), ptr', size',
        {b.addr});
  }

  lemma Distinct(bs: seq<Block>, base: nat, t: nat)
    requires FreeOk(bs, base) && t < |bs|
    ensures forall x :: 0 <= x < |bs| && x != t ==> bs[x].addr != bs[t].addr
    ensures t > 0 ==> forall x :: 0 <= x < |bs| && x != t - 1 ==> bs[x].addr != bs[t - 1].addr
  {}

  ghost predicate PutBack(bs: seq<Block>, t: nat, b: Block, bs': seq<Block>) {
    Place(bs, t, b.addr) && bs' == Insert(bs, t, b)
  }

  /** b has been put back, and freep is the block before it. */
  ghost predicate WasFreed(bs: seq<Block>, b: Block, bs': seq<Block>, freep: nat) {
    exists t: nat :: PutBack(bs, t, b, bs') && freep == bs[t].addr
  }

  /** The heap after free. */
  lemma FreedOk(base: nat, ptr: Words, size: Words, freep: nat, bs: seq<Block>, live: map<nat, nat>, arena: set<nat>,
                t: nat, bp: nat, ptr': Words, size': Words)
    requires HeapOk(base, ptr, size, freep, bs, live, arena) && bp in live && Place(bs, t, bp)
    requires Linked(ptr', size', Insert(bs, t, Block(bp, live[bp])))
             && At(Insert(bs, t, Block(bp, live[bp])), t, bs[t].addr)
    requires AgreeBut(size, size', {bp, bs[t].addr})
    ensures HeapOk(base, ptr', size', bs[t].addr, Insert(bs, t, Block(bp, live[bp])), live - {bp}, arena)
  {
    hide Linked, Insert, Units, Ordered, LiveUnits, LiveApart;
    var b := Block(bp, live[bp]);
    LiveBlock(base, ptr, size, freep, bs, live, arena, bp);
    LiveRemove(live, bp);
    InsertOrdered(bs, base, t, b);
    InsertUnits(bs, base, t, b);
    LiveNotFree(base, ptr, size, freep, bs, live, arena, t);
    FirstLowest(bs, base, t);
  }

  lemma FirstLowest(bs: seq<Block>, base: nat, t: nat)
    requires FreeOk(bs, base) && t < |bs|
    ensures base <= bs[t].addr
  {
    if t > 0 { assert End(bs[0]) < bs[t].addr; }
  }

  lemma LiveNotFree(base: nat, ptr: Words, size: Words, freep: nat, bs: seq<Block>, live: map<nat, nat>,
                    arena: set<nat>, t: nat)
    requires HeapOk(base, ptr, size, freep, bs, live, arena) && t < |bs|
    ensures bs[t].addr !in live
  {
    if bs[t].addr in live {
      LiveBlock(base, ptr, size, freep, bs, live, arena, bs[t].addr);
      ApartFromAll(bs, base, Block(bs[t].addr, live[bs[t].addr]));
      assert false;
    }
  }

  // ----- malloc -----

  function NUnits(nbytes: nat): nat { (nbytes + 15) / 16 + 1 }

  /** The units morecore asks sbrk for. */
  function Core(nunits: nat): (c: nat)
    ensures c >= nunits && c >= 4096 && (nunits >= 4096 ==> c == nunits)
  {
    if nunits < 4096 then 4096 else nunits
  }

  /** No free block has n units. */
  ghost predicate TooSmall(bs: seq<Block>, n: nat) { forall i :: 0 <= i < |bs| ==> bs[i].size < n }

  /** What a caller may expect of sbrk: memory of its own, above the program's data. */
  ghost predicate Fresh(base: nat, arena: set<nat>, hp: nat, n: nat) { base < hp && Span(hp, n) !! arena }

  class Heap {
    const base: nat
    var ptr: Words
    var size: Words
    var freep: nat
    ghost var blocks: seq<Block>
    ghost var live: map<nat, nat>
    ghost var arena: set<nat>

    ghost predicate Valid()
      reads this
    {
      HeapOk(base, ptr, size, freep, blocks, live, arena)
    }

    /** Before the first malloc. */
    constructor (base: nat)
      requires base > 0
      ensures Valid() && this.base == base && live == map[] && arena == {}
    {
      this.base := base;
      ptr, size, freep := map[], map[base := 0], 0;
      blocks, live, arena := [Block(base, 0)], map[], {};
    }

    /** free's loop: from freep around the list to the block before bp. */
    method FindPlace(bp: nat, ghost n: nat) returns (p: nat, ghost t: nat)
      requires Valid() && freep != 0 && base < bp && n > 0 && Apart(blocks, Block(bp, n))
      ensures Place(blocks, t, bp) && p == blocks[t].addr
    {
      hide Ordered, Units, LiveUnits, LiveApart, Span, Place, Stops, Apart;
      ApartFromAll(blocks, base, Block(bp, n));
      t := PlaceExists(blocks, base, bp, 0);
      p := freep;
      ghost var i: nat :| At(blocks, i, freep);
      while true
        invariant At(blocks, i, p)
        decreases if i <= t then t - i else t - i + |blocks|
      {
        assert LinkAt(ptr, size, blocks, i);
        StopsAtPlace(blocks, base, i, bp);
        PlaceUnique(blocks, base, i, t, bp);
        StopsMeans(blocks, i, bp);
        if bp > p && bp < ptr[p] { break; }
        if p >= ptr[p] && (bp > p || bp < ptr[p]) { break; }
        p := ptr[p];
        i := Next(i, |blocks|);
      }
    }

    /** free: the block leaves the live blocks and joins the free list, merged with its neighbours;
        all other blocks and the arena stay. */
    method Free(ap: nat)
      requires Valid() && ap > 0 && ap - 1 in live
      modifies this
      ensures Valid() && live == old(live) - {ap - 1} && arena == old(arena) && freep != 0
      ensures WasFreed(old(blocks), Block(ap - 1, old(live)[ap - 1]), blocks, freep)
    {
      hide FreeOk, Linked, Insert, Units, LiveUnits, LiveApart, Span, Apart, Covers, At;
      var bp := ap - 1;
      LiveBlock(base, ptr, size, freep, blocks, live, arena, bp);
      var p, t := FindPlace(bp, live[bp]);
      FreeingFacts(base, ptr, size, blocks, t, Block(bp, live[bp]));
      ghost var ptr0, size0 := ptr, size;
      if bp + size[bp] == ptr[p] {
        ptr := ptr[bp := ptr[ptr[p]]];
        size := size[bp := size[bp] + size[ptr[p]]];
      } else {
        ptr := ptr[bp := ptr[p]];
      }
      if p + size[p] == bp {
        size := size[p := size[p] + size[bp]];
        ptr := ptr[p := ptr[bp]];
      } else {
        ptr := ptr[p := bp];
      }
      freep := p;
      RelinkLinked(base, ptr0, size0, blocks, t, Block(bp, live[bp]), ptr, size);
      FreedOk(base, ptr0, size0, old(freep), blocks, live, arena, t, bp, ptr, size);
      FirstLowest(blocks, base, t);
      assert PutBack(blocks, t, Block(bp, live[bp]), Insert(blocks, t, Block(bp, live[bp])));
      blocks, live := Insert(blocks, t, Block(bp, live[bp])), live - {bp};
    }

    /** morecore: asks sbrk for memory, whose answer is `more`, and frees it into the list. */
    method Morecore(nunits: nat, more: Option<nat>) returns (r: Option<nat>)
      requires Valid() && freep != 0 && nunits > 0 && (more.Some? ==> Fresh(base, arena, more.value, Core(nunits)))
      modifies this
      ensures Valid() && live == old(live) && freep != 0 && r.Some? == more.Some?
      ensures r.None? ==>
                ptr == old(ptr) && size == old(size) && freep == old(freep) && blocks == old(blocks)
                    && arena == old(arena)
      ensures r.Some? ==>
                r.value == freep && arena == old(arena) + Span(more.value, Core(nunits)) && !TooSmall(blocks, nunits)
      ensures r.Some? ==> WasFreed(old(blocks), Block(more.value, Core(nunits)), blocks, freep)
    {
      hide FreeOk, Linked, Insert, Units, LiveUnits, LiveApart, Span, Apart, Covers, At, TooSmall, Fresh;
      var nu := Core(nunits);
      if more.None? {
        return None;
      }
      var hp := more.value;
      SbrkOk(base, ptr, size, freep, blocks, live, arena, hp, nu);
      size := size[hp := nu];
      live, arena := live[hp := nu], arena + Span(hp, nu);
      ghost var bs := blocks;
      Free(hp + 1);
      ghost var t: nat :| PutBack(bs, t, Block(hp, nu), blocks) && freep == bs[t].addr;
      InsertBig(bs, t, Block(hp, nu), nunits);
      assert live == old(live);
      return Some(freep);
    }

    /** malloc's success path: the fitting block p, the one after prevp, is unlinked or cut. */
    method Take(prevp: nat, p: nat, nunits: nat, ghost x: nat) returns (r: nat)
      requires Valid() && freep != 0 && 0 < x < |blocks| && 0 < nunits <= blocks[x].size
      requires p == blocks[x].addr && prevp == blocks[x - 1].addr
      modifies this
      ensures Valid() && r > 0 && r - 1 !in old(live) && live == old(live)[r - 1 := nunits] && arena == old(arena)
              && freep == prevp != 0
      ensures r - 1 == End(old(blocks)[x]) - nunits && blocks == Cut(old(blocks), x, nunits)
    {
      hide FreeOk, Units, LiveUnits, LiveApart, Span, Covers, Cut;
      assert LinkAt(ptr, size, blocks, x) && LinkAt(ptr, size, blocks, x - 1);
      FirstLowest(blocks, base, x - 1);
      ghost var ptr0, size0 := ptr, size;
      var a := p;
      if size[p] == nunits {
        ptr := ptr[prevp := ptr[p]];
      } else {
        size := size[p := size[p] - nunits];
        a := p + size[p];
        size := size[a := nunits];
      }
      freep := prevp;
      TakenLinked(base, ptr0, size0, blocks, x, nunits, ptr, size);
      TakenOk(base, ptr0, size0, old(freep), blocks, live, arena, x, nunits, ptr, size);
      blocks, live := Cut(blocks, x, nunits), live[a := nunits];
      return a + 1;
    }

    /** malloc: next-fit from freep; if a whole round finds no block, one request to sbrk and
        another round, which cannot fail.  `more` is sbrk's answer should it be asked. */
    method Malloc(nbytes: nat, more: Option<nat>) returns (r: Option<nat>, ghost from: seq<Block>, ghost rover: nat)
      requires Valid() && Core(NUnits(nbytes)) * 16 < 0x8000_0000
      requires more.Some? ==> Fresh(base, arena, more.value, Core(NUnits(nbytes)))
      modifies this
      ensures Valid()
      ensures r.Some? ==> r.value > 0 && r.value - 1 !in old(live) && live == old(live)[r.value - 1 := NUnits(nbytes)]
      ensures r.Some? ==> NextFit(from, rover, NUnits(nbytes), r.value - 1, blocks)
      ensures r.Some? && TooSmall(old(blocks), NUnits(nbytes)) ==>
                more.Some? && WasFreed(old(blocks), Block(more.value, Core(NUnits(nbytes))), from, rover)
      ensures r.Some? && !TooSmall(old(blocks), NUnits(nbytes)) ==>
                from == old(blocks) && rover == if old(freep) == 0 then base else old(freep)
      ensures r.None? ==>
                more.None? && TooSmall(old(blocks), NUnits(nbytes)) && live == old(live) && arena == old(arena)
      ensures arena == old(arena) || (more.Some? && TooSmall(old(blocks), NUnits(nbytes))
              && arena == old(arena) + Span(more.value, Core(NUnits(nbytes))))
    {
      hide HeapOk, At, Span, Fresh, TooSmall, Seen, NUnits, Idx, Next, Core, SmallAt, FreeOk, Cut, NextFit, WasFreed;
      var nunits := NUnits(nbytes);
      if freep == 0 {
        FirstHeap(base, ptr, size, blocks, live, arena);
        ptr, size, freep := ptr[base := base], size[base := 0], base;
      }
      var prevp := freep;
      from, rover := blocks, freep;
      ghost var i0: nat := RoundStart(base, ptr, size, freep, blocks, live, arena);
      ghost var k: nat, grown := 0, false;
      RoomForBytes(nbytes);
      SeenNone(blocks, i0, nunits);
      var p := ptr[prevp];
      while true
        invariant Valid() && freep != 0 && live == old(live) && At(blocks, i0, freep) && k < |blocks| && i0 < |blocks|
        invariant p == blocks[Idx(i0, k, |blocks|)].addr
                  && prevp == blocks[if k == 0 then i0 else Idx(i0, k - 1, |blocks|)].addr
        invariant Seen(blocks, i0, k, nunits)
        invariant from == blocks && rover == freep
        invariant !grown ==>
                    blocks == old(blocks) && arena == old(arena)
                        && freep == if old(freep) == 0 then base else old(freep)
        invariant grown ==> more.Some? && WasFreed(old(blocks), Block(more.value, Core(nunits)), blocks, freep)
        invariant grown ==>
                    more.Some? && TooSmall(old(blocks), nunits)
                        && arena == old(arena) + Span(more.value, Core(nunits)) && !TooSmall(blocks, nunits)
        decreases if grown then 0 else 1, |blocks| - k
      {
        ghost var x := Idx(i0, k, |blocks|);
        RoundAt(base, ptr, size, freep, blocks, live, arena, i0, k, nunits);
        if size[p] >= nunits {
          var a := Take(prevp, p, nunits, x);
          FoundFit(from, rover, i0, k, nunits, a - 1, blocks);
          return Some(a), from, rover;
        }
        SeenOne(blocks, i0, k, nunits);
        if p == freep {
          SeenAll(blocks, base, i0, k, nunits);
          var q := Morecore(nunits, more);
          if q.None? {
            return None, from, rover;
          }
          from, rover := blocks, freep;
          p := q.value;
          i0 := RoundStart(base, ptr, size, freep, blocks, live, arena);
          k, grown := 0, true;
          SeenNone(blocks, i0, nunits);
        } else {
          SeenSome(blocks, base, i0, k);
          k := k + 1;
        }
        prevp := p;
        p := ptr[p];
      }
    }
  }

  // ----- malloc's round -----

  /** The block looked at after k others, starting behind block i0. */
  function Idx(i0: nat, k: nat, n: nat): (x: nat)
    ensures i0 < n && k < n ==> x < n
  {
    if i0 + 1 + k < n then i0 + 1 + k else i0 + 1 + k - n
  }

  ghost predicate SmallAt(bs: seq<Block>, i0: nat, j: nat, n: nat) {
    Idx(i0, j, |bs|) < |bs| && bs[Idx(i0, j, |bs|)].size < n
  }

  lemma RoundStart(base: nat, ptr: Words, size: Words, freep: nat, bs: seq<Block>, live: map<nat, nat>,
                   arena: set<nat>) returns (i0: nat)
    requires HeapOk(base, ptr, size, freep, bs, live, arena) && freep != 0
    ensures At(bs, i0, freep) && i0 < |bs| && bs[i0].addr == freep && freep in ptr
            && ptr[freep] == bs[Idx(i0, 0, |bs|)].addr
  {
    i0 :| At(bs, i0, freep);
    assert LinkAt(ptr, size, bs, i0);
  }

  lemma RoundAt(base: nat, ptr: Words, size: Words, freep: nat, bs: seq<Block>, live: map<nat, nat>,
                arena: set<nat>, i0: nat, k: nat, n: nat)
    requires HeapOk(base, ptr, size, freep, bs, live, arena) && freep != 0 && i0 < |bs| && k < |bs| && n > 0
             && At(bs, i0, freep)
    ensures var x := Idx(i0, k, |bs|);
            && x < |bs| && bs[x].addr in ptr && bs[x].addr in size && size[bs[x].addr] == bs[x].size
            && ptr[bs[x].addr] == bs[Next(x, |bs|)].addr && FreeOk(bs, base) && bs[i0].addr == freep
            && (bs[x].size < n ==> SmallAt(bs, i0, k, n))
            && (bs[x].size >= n ==> x > 0 && (if k == 0 then i0 else Idx(i0, k - 1, |bs|)) == x - 1)
  {
    assert LinkAt(ptr, size, bs, Idx(i0, k, |bs|));
  }

  lemma SeenNone(bs: seq<Block>, i0: nat, n: nat)
    ensures Seen(bs, i0, 0, n)
  {}

  /** The first k blocks of the round are too small. */
  ghost predicate Seen(bs: seq<Block>, i0: nat, k: nat, n: nat) { forall j: nat :: j < k ==> SmallAt(bs, i0, j, n) }

  /** The first block that fits, looking from the one after the rover, loses its last n units. */
  ghost predicate NextFit(bs: seq<Block>, rover: nat, n: nat, a: nat, bs': seq<Block>) {
    exists i0: nat, k: nat :: Fit(bs, rover, i0, k, n, a, bs')
  }

  ghost predicate Fit(bs: seq<Block>, rover: nat, i0: nat, k: nat, n: nat, a: nat, bs': seq<Block>) {
    && At(bs, i0, rover) && k < |bs| && Seen(bs, i0, k, n) && n <= bs[Idx(i0, k, |bs|)].size
    && a == End(bs[Idx(i0, k, |bs|)]) - n && bs' == Cut(bs, Idx(i0, k, |bs|), n)
  }

  lemma FoundFit(bs: seq<Block>, rover: nat, i0: nat, k: nat, n: nat, a: nat, bs': seq<Block>)
    requires i0 < |bs| && k < |bs| && n <= bs[Idx(i0, k, |bs|)].size
    requires At(bs, i0, rover) && Seen(bs, i0, k, n) && a == End(bs[Idx(i0, k, |bs|)]) - n
             && bs' == Cut(bs, Idx(i0, k, |bs|), n)
    ensures NextFit(bs, rover, n, a, bs') && !TooSmall(bs, n)
  {
    assert Fit(bs, rover, i0, k, n, a, bs');
  }

  lemma SeenOne(bs: seq<Block>, i0: nat, k: nat, n: nat)
    requires Seen(bs, i0, k, n) && SmallAt(bs, i0, k, n)
    ensures Seen(bs, i0, k + 1, n)
  {}

  /** Back at freep the round has seen every block. */
  lemma SeenAll(bs: seq<Block>, base: nat, i0: nat, k: nat, n: nat)
    requires FreeOk(bs, base) && i0 < |bs| && k < |bs| && Idx(i0, k, |bs|) < |bs|
             && bs[Idx(i0, k, |bs|)].addr == bs[i0].addr && Seen(bs, i0, k + 1, n)
    ensures TooSmall(bs, n)
  {
    Distinct(bs, base, i0);
    assert k == |bs| - 1;
    forall x | 0 <= x < |bs|
      ensures bs[x].size < n
    {
      var j: nat := if x > i0 then x - i0 - 1 else x - i0 - 1 + |bs|;
      assert SmallAt(bs, i0, j, n);
    }
  }

  lemma SeenSome(bs: seq<Block>, base: nat, i0: nat, k: nat)
    requires FreeOk(bs, base) && i0 < |bs| && k < |bs| && Idx(i0, k, |bs|) < |bs|
             && bs[Idx(i0, k, |bs|)].addr != bs[i0].addr
    ensures k + 1 < |bs| && Next(Idx(i0, k, |bs|), |bs|) == Idx(i0, k + 1, |bs|)
  {}

  /** The heap once malloc has set up the list for the first time. */
  lemma FirstHeap(base: nat, ptr: Words, size: Words, bs: seq<Block>, live: map<nat, nat>, arena: set<nat>)
    requires HeapOk(base, ptr, size, 0, bs, live, arena)
    ensures base != 0 && HeapOk(base, ptr[base := base], size[base := 0], base, bs, live, arena)
  {
    assert LinkAt(ptr[base := base], size[base := 0], bs, 0);
    assert At(bs, 0, base);
  }

  /** The payload of a block from malloc holds the bytes asked for. */
  lemma RoomForBytes(nbytes: nat)
    ensures nbytes <= (NUnits(nbytes) - 1) * 16 < nbytes + 16
  {}

  /** The headers after n units have been taken from block x. */
  ghost predicate Taken(ptr: Words, size: Words, bs: seq<Block>, x: nat, n: nat, ptr': Words, size': Words) {
    && 0 < x < |bs| && n <= bs[x].size
    && var p := bs[x].addr;
       if bs[x].size == n then ptr' == ptr[bs[x - 1].addr := bs[Next(x, |bs|)].addr] && size' == size
       else ptr' == ptr && size' == size[p := bs[x].size - n][p + bs[x].size - n := n]
  }

  lemma TakenLinked(base: nat, ptr: Words, size: Words, bs: seq<Block>, x: nat, n: nat, ptr': Words, size': Words)
    requires FreeOk(bs, base) && Linked(ptr, size, bs) && n > 0 && Taken(ptr, size, bs, x, n, ptr', size')
    ensures Linked(ptr', size', Cut(bs, x, n)) && At(Cut(bs, x, n), x - 1, bs[x - 1].addr)
  {
    assert LinkAt(ptr, size, bs, x) && LinkAt(ptr, size, bs, x - 1);
    if bs[x].size == n {
      RemoveLinked(ptr, size, bs, x, ptr');
    } else {
      var a := bs[x].addr + bs[x].size - n;
      Distinct(bs, base, x);
      SpliceLinked(ptr, size, bs, x, x + 1, Block(bs[x].addr, bs[x].size - n), ptr', size', {a});
    }
  }

  lemma TakenOk(base: nat, ptr: Words, size: Words, freep: nat, bs: seq<Block>, live: map<nat, nat>, arena: set<nat>,
                x: nat, n: nat, ptr': Words, size': Words)
    requires HeapOk(base, ptr, size, freep, bs, live, arena) && freep != 0 && n > 0
             && Taken(ptr, size, bs, x, n, ptr', size')
    requires Linked(ptr', size', Cut(bs, x, n)) && At(Cut(bs, x, n), x - 1, bs[x - 1].addr) && bs[x].addr in size
             && bs[x - 1].addr > 0
    ensures var a := bs[x].addr + bs[x].size - n;
            a !in live && HeapOk(base, ptr', size', bs[x - 1].addr, Cut(bs, x, n), live[a := n], arena)
  {
    hide Linked, Cut, Units, Ordered, LiveUnits, LiveApart, At;
    var a := bs[x].addr + bs[x].size - n;
    CutOrdered(bs, base, x, n);
    CutUnits(bs, base, x, n);
    assert a in Span(a, n);
    TakenApart(base, ptr, size, freep, bs, live, arena, x, n);
    LiveAdd(live, a, n);
  }

  lemma TakenApart(base: nat, ptr: Words, size: Words, freep: nat, bs: seq<Block>, live: map<nat, nat>,
                   arena: set<nat>, x: nat, n: nat)
    requires HeapOk(base, ptr, size, freep, bs, live, arena) && x < |bs| && 0 < n <= bs[x].size && freep != 0
    ensures var a := bs[x].addr + bs[x].size - n;
            a !in live && bs[x].addr !in live && Span(a, n) !! LiveUnits(live) && bs[x].addr in size
                && size[bs[x].addr] == bs[x].size
  {
    hide Units, LiveUnits, Ordered, Cut, LiveApart;
    var a := bs[x].addr + bs[x].size - n;
    CutUnits(bs, base, x, n);
    LiveNotFree(base, ptr, size, freep, bs, live, arena, x);
    assert LinkAt(ptr, size, bs, x);
    assert a in Span(a, n);
    if a in live {
      LiveRemove(live, a);
      assert false;
    }
  }

  /** Memory from sbrk, as a block in use. */
  lemma SbrkOk(base: nat, ptr: Words, size: Words, freep: nat, bs: seq<Block>, live: map<nat, nat>, arena: set<nat>,
               hp: nat, n: nat)
    requires HeapOk(base, ptr, size, freep, bs, live, arena) && freep != 0 && n > 0 && Fresh(base, arena, hp, n)
    ensures HeapOk(base, ptr, size[hp := n], freep, bs, live[hp := n], arena + Span(hp, n)) && hp !in live
  {
    hide FreeOk, Units, LiveUnits, LiveApart;
    assert hp in Span(hp, n);
    SbrkApart(base, ptr, size, freep, bs, live, arena, hp, n);
    LiveAdd(live, hp, n);
    SizeElsewhere(ptr, size, bs, hp, n);
  }

  lemma SbrkApart(base: nat, ptr: Words, size: Words, freep: nat, bs: seq<Block>, live: map<nat, nat>,
                  arena: set<nat>, hp: nat, n: nat)
    requires HeapOk(base, ptr, size, freep, bs, live, arena) && n > 0 && Fresh(base, arena, hp, n)
    ensures hp !in live && (forall x :: 0 <= x < |bs| ==> bs[x].addr != hp)
  {
    if hp in live {
      LiveRemove(live, hp);
      assert false;
    }
    ApartFromAll(bs, base, Block(hp, n));
  }

  lemma SizeElsewhere(ptr: Words, size: Words, bs: seq<Block>, a: nat, n: nat)
    requires Linked(ptr, size, bs) && forall x :: 0 <= x < |bs| ==> bs[x].addr != a
    ensures Linked(ptr, size[a := n], bs)
  {
    var size' := size[a := n];
    forall i: nat | i < |bs|
      ensures LinkAt(ptr, size', bs, i)
    {
      assert LinkAt(ptr, size, bs, i);
    }
  }

  lemma InsertBig(bs: seq<Block>, t: nat, b: Block, n: nat)
    requires t < |bs| && n <= b.size
    ensures !TooSmall(Insert(bs, t, b), n)
  {
    var cs := Insert(bs, t, b);
    var i := if MeetsLeft(bs, t, b) then t else t + 1;
    assert cs[i] == Merged(bs, t, b);
  }

  lemma StopsMeans(bs: seq<Block>, i: nat, a: nat)
    requires i < |bs|
    ensures var p, q := bs[i].addr, bs[Next(i, |bs|)].addr;
            Stops(bs, i, a) <==> (a > p && a < q) || (p >= q && (a > p || a < q))
  {}

  lemma PlaceUnique(bs: seq<Block>, base: nat, i: nat, t: nat, a: nat)
    requires FreeOk(bs, base) && Place(bs, t, a) && i < |bs|
    ensures Place(bs, i, a) <==> i == t
  {
    if i < t {
      if i + 1 < t { assert End(bs[i + 1]) < bs[t].addr; }
    } else if t < i {
      if t + 1 < i { assert End(bs[t + 1]) < bs[i].addr; }
    }
  }
}
