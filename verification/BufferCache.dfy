/** The buffer cache of kernel/bio.c: NBUF buffers on a circular doubly linked list,
    most recently used first, relinked in place.  Pointers into bcache.buf are indexes,
    HEAD is the list head, and the ghost field `order` is the list as a sequence. */
module BufferCache {
  import opened Common
  import opened Blocks

  const HEAD := NBUF

  datatype Buf = Buf(valid: bool, dev: nat, blockno: nat, locked: bool, refcnt: nat, data: Block) {
    predicate Holds(d: nat, bn: nat) { dev == d && blockno == bn }
  }

  // ----- the ring -----

  type Links = s: seq<nat> | |s| == NBUF + 1 && forall i :: 0 <= i < |s| ==> s[i] <= HEAD
    witness seq(NBUF + 1, _ => 0)

  /** Element i of the list, with the head at both ends. */
  ghost function At(order: seq<nat>, i: int): nat {
    if 0 <= i < |order| then order[i] else HEAD
  }

  /** Elements i and i + 1 of the ring point at each other. */
  ghost predicate Link(order: seq<nat>, next: Links, prev: Links, i: int)
    requires forall j :: 0 <= j < |order| ==> order[j] < NBUF
  {
    next[At(order, i)] == At(order, i + 1) && prev[At(order, i + 1)] == At(order, i)
  }

  /** The links form the ring HEAD, order[0], order[1], ..., HEAD, in both directions. */
  ghost predicate Ring(order: seq<nat>, next: Links, prev: Links) {
    && NoDup(order)
    && (forall i :: 0 <= i < |order| ==> order[i] < NBUF)
    && (forall i :: -1 <= i < |order| ==> Link(order, next, prev, i))
  }

  ghost function Without(order: seq<nat>, k: nat): seq<nat>
    requires k < |order|
  {
    order[..k] + order[k + 1..]
  }

  /** b->next->prev = b->prev; b->prev->next = b->next takes element k off the ring. */
  lemma UnlinkRing(order: seq<nat>, next: Links, prev: Links, k: nat)
    requires Ring(order, next, prev) && k < |order|
    ensures var b := order[k];
            Ring(Without(order, k), next[prev[b] := next[b]], prev[next[b] := prev[b]]) && b !in Without(order, k)
  {
    var b, o := order[k], Without(order, k);
    var n, p: Links := next[prev[b] := next[b]], prev[next[b] := prev[b]];
    assert Link(order, next, prev, k - 1) && Link(order, next, prev, k);
    forall i | -1 <= i < |o|
      ensures Link(o, n, p, i)
    {
      assert Link(order, next, prev, if i < k then i else i + 1);
    }
  }

  /** The four assignments of binit and brelse put b at the front of the ring. */
  lemma PushRing(order: seq<nat>, next: Links, prev: Links, b: nat)
    requires Ring(order, next, prev) && b < NBUF && b !in order
    ensures Ring([b] + order, next[b := next[HEAD]][HEAD := b], prev[b := HEAD][next[HEAD] := b])
  {
    var o := [b] + order;
    var n, p: Links := next[b := next[HEAD]][HEAD := b], prev[b := HEAD][next[HEAD] := b];
    assert Link(order, next, prev, -1);
    forall i | -1 <= i < |o|
      ensures Link(o, n, p, i)
    {
      if i > 0 { assert Link(order, next, prev, i - 1); }
    }
  }

  // ----- what the cache shows -----

  type Disk = map<(nat, nat), Block>

  /** No two buffers for one block; binit's blank buffers all claim block 0 of device 0. */
  ghost predicate Unique(buf: seq<Buf>) {
    forall i, j :: 0 <= i < j < |buf| && buf[j].Holds(buf[i].dev, buf[i].blockno) ==> buf[i].dev == 0
  }

  /** A buffer that may be recycled agrees with the disk. */
  ghost predicate Clean(buf: seq<Buf>, disk: Disk) {
    forall i :: 0 <= i < |buf| && buf[i].valid ==>
      (buf[i].dev, buf[i].blockno) in disk && (buf[i].refcnt == 0 ==> buf[i].data == disk[(buf[i].dev, buf[i].blockno)])
  }

  ghost predicate HasCopy(buf: seq<Buf>, d: nat, bn: nat, i: int) {
    0 <= i < |buf| && buf[i].valid && buf[i].Holds(d, bn)
  }

  /** The contents of a block: its cached copy, else the disk's. */
  ghost function View(buf: seq<Buf>, disk: Disk, d: nat, bn: nat): Block
    requires (d, bn) in disk
  {
    if i: int :| HasCopy(buf, d, bn, i) then buf[i].data else disk[(d, bn)]
  }

  ghost predicate SameView(buf: seq<Buf>, disk: Disk, buf': seq<Buf>, disk': Disk) {
    forall d, bn :: d != 0 && (d, bn) in disk ==>
      (d, bn) in disk' && View(buf', disk', d, bn) == View(buf, disk, d, bn)
  }

  lemma ViewOfCopy(buf: seq<Buf>, disk: Disk, d: nat, bn: nat, i: int)
    requires Unique(buf) && d != 0 && (d, bn) in disk && HasCopy(buf, d, bn, i)
    ensures View(buf, disk, d, bn) == buf[i].data
  {}

  /** Changing a buffer's bookkeeping is invisible. */
  lemma BookkeepingKeepsView(buf: seq<Buf>, disk: Disk, b: nat, x: Buf)
    requires Unique(buf) && b < |buf|
    requires x.valid == buf[b].valid && x.Holds(buf[b].dev, buf[b].blockno) && x.data == buf[b].data
    ensures Unique(buf[b := x]) && SameView(buf, disk, buf[b := x], disk)
  {
    var buf' := buf[b := x];
    forall d, bn | d != 0 && (d, bn) in disk
      ensures View(buf', disk, d, bn) == View(buf, disk, d, bn)
    {
      if i: int :| HasCopy(buf, d, bn, i) {
        ViewOfCopy(buf, disk, d, bn, i);
        assert HasCopy(buf', d, bn, i);
        ViewOfCopy(buf', disk, d, bn, i);
      } else {
        assert forall i :: HasCopy(buf', d, bn, i) ==> HasCopy(buf, d, bn, i);
      }
    }
  }

  /** Recycling an unused buffer for an uncached block is invisible. */
  lemma RecycleKeepsView(buf: seq<Buf>, disk: Disk, b: nat, x: Buf)
    requires Unique(buf) && Clean(buf, disk) && b < |buf| && buf[b].refcnt == 0 && !x.valid
    requires forall i :: 0 <= i < |buf| ==> !buf[i].Holds(x.dev, x.blockno)
    ensures Unique(buf[b := x]) && SameView(buf, disk, buf[b := x], disk)
  {
    var buf' := buf[b := x];
    forall d, bn | d != 0 && (d, bn) in disk
      ensures View(buf', disk, d, bn) == View(buf, disk, d, bn)
    {
      if i: int :| HasCopy(buf, d, bn, i) {
        ViewOfCopy(buf, disk, d, bn, i);
        if i != b {
          assert HasCopy(buf', d, bn, i);
          ViewOfCopy(buf', disk, d, bn, i);
        } else {
          assert forall j :: !HasCopy(buf', d, bn, j);
        }
      } else {
        assert forall j :: HasCopy(buf', d, bn, j) ==> HasCopy(buf, d, bn, j);
      }
    }
  }

  /** Filling a buffer with the disk's contents is invisible. */
  lemma FillKeepsView(buf: seq<Buf>, disk: Disk, b: nat, x: Buf)
    requires Unique(buf) && b < |buf| && !buf[b].valid && x.valid && x.Holds(buf[b].dev, buf[b].blockno)
    requires (x.dev, x.blockno) in disk && x.data == disk[(x.dev, x.blockno)]
    ensures Unique(buf[b := x]) && SameView(buf, disk, buf[b := x], disk)
  {
    var buf' := buf[b := x];
    forall d, bn | d != 0 && (d, bn) in disk
      ensures View(buf', disk, d, bn) == View(buf, disk, d, bn)
    {
      if i: int :| HasCopy(buf, d, bn, i) {
        ViewOfCopy(buf, disk, d, bn, i);
        assert HasCopy(buf', d, bn, i);
        ViewOfCopy(buf', disk, d, bn, i);
      } else if x.Holds(d, bn) {
        assert HasCopy(buf', d, bn, b);
        ViewOfCopy(buf', disk, d, bn, b);
      } else {
        assert forall j :: HasCopy(buf', d, bn, j) ==> HasCopy(buf, d, bn, j);
      }
    }
  }

  /** Writing a valid buffer to disk is invisible. */
  lemma WriteKeepsView(buf: seq<Buf>, disk: Disk, b: nat)
    requires Unique(buf) && b < |buf| && buf[b].valid && buf[b].dev != 0 && (buf[b].dev, buf[b].blockno) in disk
    ensures SameView(buf, disk, buf, disk[(buf[b].dev, buf[b].blockno) := buf[b].data])
  {
    var disk' := disk[(buf[b].dev, buf[b].blockno) := buf[b].data];
    forall d, bn | d != 0 && (d, bn) in disk
      ensures View(buf, disk', d, bn) == View(buf, disk, d, bn)
    {
      if i: int :| HasCopy(buf, d, bn, i) {
        ViewOfCopy(buf, disk, d, bn, i);
        ViewOfCopy(buf, disk', d, bn, i);
      } else if buf[b].Holds(d, bn) {
        assert HasCopy(buf, d, bn, b);
      }
    }
  }

  // ----- the code -----

  /** What bread comes to. */
  datatype Fetch = Got(b: nat) | Waits(b: nat) | NoBuffers

  ghost predicate Covers(order: seq<nat>) {
    forall b: nat :: b < NBUF ==> b in order
  }

  /** Buffer b is unused and everything less recently used than b is in use. */
  ghost predicate LeastRecentUnused(order: seq<nat>, buf: seq<Buf>, b: nat)
    requires |buf| == NBUF && (forall i :: 0 <= i < |order| ==> order[i] < NBUF)
  {
    exists k :: 0 <= k < |order| && order[k] == b && buf[b].refcnt == 0 &&
      forall j :: k < j < |order| ==> buf[order[j]].refcnt > 0
  }

  class Cache {
    var buf: seq<Buf>
    var next: Links
    var prev: Links
    var disk: Disk
    ghost var order: seq<nat>

    ghost predicate Valid()
      reads this
    {
      |buf| == NBUF && Ring(order, next, prev) && Covers(order) && Unique(buf) && Clean(buf, disk)
    }

    /** binit. */
    constructor (d: Disk)
      ensures Valid() && disk == d
      ensures forall i :: 0 <= i < NBUF ==> !buf[i].valid && buf[i].Holds(0, 0) && buf[i].refcnt == 0 && !buf[i].locked
    {
      disk := d;
      buf := seq(NBUF, _ => Buf(false, 0, 0, false, 0, Zeros()));
      next, prev := seq(NBUF + 1, _ => HEAD), seq(NBUF + 1, _ => HEAD);
      order := [];
      new;
      var b := 0;
      while b < NBUF
        invariant 0 <= b <= NBUF && Ring(order, next, prev)
        invariant |order| == b && forall i :: 0 <= i < b ==> order[i] == b - 1 - i
        invariant disk == d && buf == seq(NBUF, _ => Buf(false, 0, 0, false, 0, Zeros()))
      {
        PushFront(b);
        b := b + 1;
      }
      forall x: nat | x < NBUF ensures x in order { assert order[NBUF - 1 - x] == x; }
    }

    method PushFront(b: nat)
      requires Ring(order, next, prev) && b < NBUF && b !in order
      modifies this`next, this`prev, this`order
      ensures Ring(order, next, prev) && order == [b] + old(order)
    {
      PushRing(order, next, prev, b);
      var first := next[HEAD];
      next := next[b := first];
      prev := prev[b := HEAD];
      prev := prev[first := b];
      next := next[HEAD := b];
      order := [b] + order;
    }

    /** bget's first loop, from the most recently used. */
    method FindCached(dev: nat, blockno: nat) returns (r: Option<nat>)
      requires Valid()
      ensures r.Some? ==> r.value < NBUF && buf[r.value].Holds(dev, blockno)
      ensures r.None? ==> forall x :: 0 <= x < NBUF ==> !buf[x].Holds(dev, blockno)
    {
      var b := next[HEAD];
      ghost var i := 0;
      assert Link(order, next, prev, -1);
      while b != HEAD
        invariant 0 <= i <= |order| && b == At(order, i)
        invariant forall j :: 0 <= j < i ==> !buf[order[j]].Holds(dev, blockno)
        decreases |order| - i
      {
        if buf[b].dev == dev && buf[b].blockno == blockno {
          return Some(b);
        }
        assert Link(order, next, prev, i);
        b := next[b];
        i := i + 1;
      }
      forall x | 0 <= x < NBUF
        ensures !buf[x].Holds(dev, blockno)
      {
        assert x in order;
      }
      r := None;
    }

    /** bget's second loop, from the least recently used. */
    method FindUnused() returns (r: Option<nat>)
      requires Valid()
      ensures r.Some? ==> r.value < NBUF && LeastRecentUnused(order, buf, r.value)
      ensures r.None? ==> forall x :: 0 <= x < NBUF ==> buf[x].refcnt > 0
    {
      var b := prev[HEAD];
      ghost var i := |order| - 1;
      assert Link(order, next, prev, |order| - 1);
      while b != HEAD
        invariant -1 <= i < |order| && b == At(order, i)
        invariant forall j :: i < j < |order| ==> buf[order[j]].refcnt > 0
        decreases i
      {
        if buf[b].refcnt == 0 {
          return Some(b);
        }
        assert Link(order, next, prev, i - 1);
        b := prev[b];
        i := i - 1;
      }
      forall x | 0 <= x < NBUF
        ensures buf[x].refcnt > 0
      {
        assert x in order;
      }
      r := None;
    }

    /** bget: the buffer already holding the block, else the least recently used unused
        one, renamed; None is the panic "no buffers".  A pinned buffer is never renamed. */
    method Bget(dev: nat, blockno: nat) returns (r: Option<nat>)
      requires Valid()
      modifies this`buf
      ensures Valid() && SameView(old(buf), disk, buf, disk)
      ensures r.None? ==> buf == old(buf) && forall x :: 0 <= x < NBUF ==>
                !buf[x].Holds(dev, blockno) && buf[x].refcnt > 0
      ensures r.Some? ==> r.value < NBUF
      ensures r.Some? && old(buf)[r.value].Holds(dev, blockno) ==>
                buf == old(buf)[r.value := old(buf)[r.value].(refcnt := old(buf)[r.value].refcnt + 1)]
      ensures r.Some? && !old(buf)[r.value].Holds(dev, blockno) ==>
                && (forall x :: 0 <= x < NBUF ==> !old(buf)[x].Holds(dev, blockno))
                && LeastRecentUnused(order, old(buf), r.value)
                && buf == old(buf)[r.value := old(buf)[r.value].(dev := dev, blockno := blockno, valid := false,
                    refcnt := 1)]
    {
      r := FindCached(dev, blockno);
      if r.Some? {
        var x := buf[r.value].(refcnt := buf[r.value].refcnt + 1);
        BookkeepingKeepsView(buf, disk, r.value, x);
        buf := buf[r.value := x];
        return;
      }
      r := FindUnused();
      if r.Some? {
        var x := buf[r.value].(dev := dev, blockno := blockno, valid := false, refcnt := 1);
        RecycleKeepsView(buf, disk, r.value, x);
        buf := buf[r.value := x];
      }
    }

    /** The rest of bread once the buffer is found: acquiresleep, and the disk's contents if the buffer
        has none; false while another process has it locked. */
    method Lock(dev: nat, blockno: nat, b: nat) returns (ok: bool)
      requires Valid() && dev != 0 && (dev, blockno) in disk && b < NBUF && buf[b].Holds(dev, blockno)
               && 0 < buf[b].refcnt
      modifies this`buf
      ensures Valid() && SameView(old(buf), disk, buf, disk) && ok == !old(buf)[b].locked
      ensures !ok ==> buf == old(buf)
      ensures ok ==> buf[b].valid && buf[b].data == View(old(buf), disk, dev, blockno)
      ensures ok ==> buf == old(buf)[b := old(buf)[b].(locked := true, valid := true, data := buf[b].data)]
      ensures ok && old(buf)[b].valid ==> buf[b].data == old(buf)[b].data
      ensures ok && !old(buf)[b].valid ==> buf[b].data == disk[(dev, blockno)]
    {
      if buf[b].locked {
        return false;
      }
      var x := buf[b].(locked := true);
      BookkeepingKeepsView(buf, disk, b, x);
      buf := buf[b := x];
      if !buf[b].valid {
        var y := buf[b].(data := disk[(dev, blockno)], valid := true);
        FillKeepsView(buf, disk, b, y);
        buf := buf[b := y];
      }
      assert HasCopy(buf, dev, blockno, b);
      ViewOfCopy(buf, disk, dev, blockno, b);
      ok := true;
    }

    /** bread: a locked buffer with the latest contents of the block; or it waits for a buffer that
        another process has locked, with the reference counted already; or there is none. */
    method Bread(dev: nat, blockno: nat) returns (r: Fetch)
      requires Valid() && dev != 0 && (dev, blockno) in disk
      modifies this`buf
      ensures Valid() && SameView(old(buf), disk, buf, disk)
      ensures r.Got? ==> r.b < NBUF && var x := buf[r.b];
                x.valid && x.locked && x.Holds(dev, blockno) && 0 < x.refcnt
                    && x.data == View(old(buf), disk, dev, blockno)
      ensures r.Waits? ==> r.b < NBUF && buf[r.b].locked && buf[r.b].Holds(dev, blockno) && 0 < buf[r.b].refcnt
      ensures r.NoBuffers? <==> forall x :: 0 <= x < NBUF ==> !old(buf)[x].Holds(dev, blockno) && old(buf)[x].refcnt > 0
      ensures forall x :: 0 <= x < NBUF && (r.NoBuffers? || x != r.b) ==> buf[x] == old(buf)[x]
    {
      var b := Bget(dev, blockno);
      if b.None? {
        return NoBuffers;
      }
      var ok := Lock(dev, blockno, b.value);
      r := if ok then Got(b.value) else Waits(b.value);
    }

    /** A client's change of b->data: the block shows it at once, no other block changes. */
    method Change(b: nat, d: Block)
      requires Valid() && b < NBUF && buf[b].locked && buf[b].valid && buf[b].dev != 0 && 0 < buf[b].refcnt
      modifies this`buf
      ensures Valid() && buf == old(buf)[b := old(buf)[b].(data := d)]
      ensures View(buf, disk, buf[b].dev, buf[b].blockno) == d
      ensures forall e, bn :: e != 0 && (e, bn) in disk && !buf[b].Holds(e, bn) ==>
                View(buf, disk, e, bn) == View(old(buf), disk, e, bn)
    {
      ghost var was := buf;
      buf := buf[b := buf[b].(data := d)];
      assert HasCopy(buf, buf[b].dev, buf[b].blockno, b);
      ViewOfCopy(buf, disk, buf[b].dev, buf[b].blockno, b);
      forall e, bn | e != 0 && (e, bn) in disk && !buf[b].Holds(e, bn)
        ensures View(buf, disk, e, bn) == View(was, disk, e, bn)
      {
        if i: int :| HasCopy(was, e, bn, i) {
          ViewOfCopy(was, disk, e, bn, i);
          assert HasCopy(buf, e, bn, i);
          ViewOfCopy(buf, disk, e, bn, i);
        } else {
          assert forall j :: HasCopy(buf, e, bn, j) ==> HasCopy(was, e, bn, j);
        }
      }
    }

    /** bwrite. */
    method Bwrite(b: nat)
      requires Valid() && b < NBUF && buf[b].locked && buf[b].valid && buf[b].dev != 0
      modifies this`disk
      ensures Valid() && disk == old(disk)[(buf[b].dev, buf[b].blockno) := buf[b].data]
      ensures SameView(buf, old(disk), buf, disk)
    {
      WriteKeepsView(buf, disk, b);
      disk := disk[(buf[b].dev, buf[b].blockno) := buf[b].data];
    }

    /** brelse: an unreferenced buffer becomes the most recently used.  The last reference
        to a changed buffer may only be dropped once the change is on disk. */
    method Brelse(b: nat)
      requires Valid() && b < NBUF && buf[b].locked && 0 < buf[b].refcnt
      requires buf[b].refcnt == 1 && buf[b].valid ==> buf[b].data == disk[(buf[b].dev, buf[b].blockno)]
      modifies this`buf, this`next, this`prev, this`order
      ensures Valid() && SameView(old(buf), disk, buf, disk)
      ensures buf == old(buf)[b := old(buf)[b].(locked := false, refcnt := old(buf)[b].refcnt - 1)]
      ensures if buf[b].refcnt == 0
              then exists k :: 0 <= k < |old(order)| && old(order)[k] == b && order == [b] + Without(old(order), k)
              else order == old(order)
    {
      var x := buf[b].(locked := false, refcnt := buf[b].refcnt - 1);
      BookkeepingKeepsView(buf, disk, b, x);
      buf := buf[b := x];
      if buf[b].refcnt == 0 {
        ToFront(b);
      }
    }

    /** The six assignments of brelse. */
    method ToFront(b: nat)
      requires Ring(order, next, prev) && Covers(order) && b < NBUF
      modifies this`next, this`prev, this`order
      ensures Ring(order, next, prev) && Covers(order)
      ensures exists k :: 0 <= k < |old(order)| && old(order)[k] == b && order == [b] + Without(old(order), k)
    {
      assert b in order;
      ghost var k :| 0 <= k < |order| && order[k] == b;
      UnlinkRing(order, next, prev, k);
      prev, next := prev[next[b] := prev[b]], next[prev[b] := next[b]];
      order := Without(order, k);
      PushFront(b);
      forall x: nat | x < NBUF
        ensures x in order
      {
        assert x in old(order);
        var i :| 0 <= i < |old(order)| && old(order)[i] == x;
        assert i == k || x == order[if i < k then i + 1 else i];
      }
    }

    method Bpin(b: nat)
      requires Valid() && b < NBUF
      modifies this`buf
      ensures Valid() && SameView(old(buf), disk, buf, disk)
      ensures buf == old(buf)[b := old(buf)[b].(refcnt := old(buf)[b].refcnt + 1)]
    {
      var x := buf[b].(refcnt := buf[b].refcnt + 1);
      BookkeepingKeepsView(buf, disk, b, x);
      buf := buf[b := x];
    }

    method Bunpin(b: nat)
      requires Valid() && b < NBUF && 0 < buf[b].refcnt
      requires buf[b].refcnt == 1 && buf[b].valid ==> buf[b].data == disk[(buf[b].dev, buf[b].blockno)]
      modifies this`buf
      ensures Valid() && SameView(old(buf), disk, buf, disk)
      ensures buf == old(buf)[b := old(buf)[b].(refcnt := old(buf)[b].refcnt - 1)]
    {
      var x := buf[b].(refcnt := buf[b].refcnt - 1);
      BookkeepingKeepsView(buf, disk, b, x);
      buf := buf[b := x];
    }
  }
}
