/** readi, writei (kernel/fs.c) and the chunking of filewrite (kernel/file.c): files as
    byte sequences, and the number of blocks a write logs. */
module FileIO {
  import opened Common
  import opened Blocks
  import opened Bitmap
  import opened Ownership
  import opened FileBlocks
  import opened Truncate

  // ----- bytes of a file -----

  ghost function FileByte(fs: Fs, n: nat, k: nat): byte {
    Contents(fs, n, k / BSIZE)[k % BSIZE]
  }

  /** Bytes off .. off+|s|-1 of file n become s; no other byte of any file changes. */
  ghost predicate Written(fs: Fs, fs': Fs, n: nat, off: nat, s: seq<byte>) {
    forall m: nat, k: nat :: FileByte(fs', m, k) ==
      if m == n && off <= k < off + |s| then s[k - off] else FileByte(fs, m, k)
  }

  lemma WrittenNothing(fs: Fs, fs': Fs, n: nat, off: nat)
    requires SameContents(fs, fs')
    ensures Written(fs, fs', n, off, [])
  {}

  /** The block with |s| bytes at o replaced. */
  function Patch(d: Block, o: nat, s: seq<byte>): (r: Block)
    requires o + |s| <= BSIZE
  {
    d[..o] + s + d[o + |s|..]
  }

  /** Replacing part of one block of one file. */
  lemma PatchWrites(fs: Fs, fs': Fs, n: nat, off: nat, s: seq<byte>)
    requires off % BSIZE + |s| <= BSIZE
    requires forall m, bn :: Contents(fs', m, bn) ==
               if m == n && bn == off / BSIZE then Patch(Contents(fs, n, off / BSIZE), off % BSIZE, s)
                   else Contents(fs, m, bn)
    ensures Written(fs, fs', n, off, s)
  {
    forall m: nat, k: nat
      ensures FileByte(fs', m, k) == if m == n && off <= k < off + |s| then s[k - off] else FileByte(fs, m, k)
    {
      assert Contents(fs', m, k / BSIZE) ==
        if m == n && k / BSIZE == off / BSIZE then Patch(Contents(fs, n, off / BSIZE), off % BSIZE, s)
            else Contents(fs, m, k / BSIZE);
      if off <= k < off + |s| {
        assert k / BSIZE == off / BSIZE && k % BSIZE == off % BSIZE + (k - off);
      } else if k / BSIZE == off / BSIZE {
        assert k - off == k % BSIZE - off % BSIZE;
      }
    }
  }

  /** Every block below byte sz is allocated. */
  ghost predicate Dense(fs: Fs, n: nat, sz: nat) {
    forall bn: nat :: bn * BSIZE < sz ==> Val(fs, SlotOf(n, bn)) != 0
  }

  /** What the starting image promises of a file and every write keeps: no holes. */
  ghost predicate NoHoles(fs: Fs, n: nat) {
    n in fs.inodes && fs.inodes[n].size <= MAXFILE * BSIZE && Dense(fs, n, fs.inodes[n].size)
  }

  /** Files without holes stay so. */
  ghost predicate KeepsDense(fs: Fs, fs': Fs) {
    forall m :: NoHoles(fs, m) ==> NoHoles(fs', m)
  }

  // ----- one iteration of writei -----

  /** The copy into the buffer, and log_write unless the copy failed. */
  method StoreBytes(fs: FileSystem, inum: nat, off: nat, addr: nat, s: seq<byte>, failed: bool)
    requires fs.Valid() && addr == Val(fs.Now(), SlotOf(inum, off / BSIZE)) && addr != 0
    requires off % BSIZE + |s| <= BSIZE
    modifies fs`blocks, fs`logged
    ensures fs.Valid() && Grew(old(fs.Now()), fs.Now()) && Written(old(fs.Now()), fs.Now(), inum, off, s)
    ensures fs.logged == old(fs.logged) + if failed then {} else {addr}
  {
    var d := Patch(fs.blocks[addr], off % BSIZE, s);
    DataWrite(fs.l, fs.Now(), fs.others, inum, off / BSIZE, d);
    fs.blocks := fs.blocks[addr := d];
    if !failed {
      fs.logged := fs.logged + {addr};
    }
    PatchWrites(old(fs.Now()), fs.Now(), inum, off, s);
  }

  /** How one iteration of writei ends: the bytes are in and logged; there is no block for them; or
      the copy from the caller failed after some of them. */
  datatype Chunked = Stored | NoBlock | BadCopy

  /** One iteration of writei's loop, of which the copy delivers the bytes s, or fails after them.
      x and y account for the log. */
  method WriteBlock(fs: FileSystem, inum: nat, off: nat, s: seq<byte>, failed: bool)
    returns (r: Chunked, ghost x: set<nat>, ghost y: set<nat>)
    requires fs.Valid() && inum in fs.inodes && off / BSIZE < MAXFILE && off % BSIZE + |s| <= BSIZE
    modifies fs`blocks, fs`inodes, fs`logged
    ensures fs.Valid() && Grew(old(fs.Now()), fs.Now())
    ensures Written(old(fs.Now()), fs.Now(), inum, off, if r.NoBlock? then [] else s)
    ensures r.NoBlock? <==> Val(fs.Now(), SlotOf(inum, off / BSIZE)) == 0
    ensures !r.NoBlock? ==> (r.BadCopy? <==> failed)
    ensures fs.logged == old(fs.logged) + x + y
    ensures |x| <= if r.NoBlock? then 0 else if Val(old(fs.Now()), SlotOf(inum, off / BSIZE)) != 0 then 1 else 2
    ensures IndirectCost(y, old(fs.inodes[inum].addrs[NDIRECT]), fs.inodes[inum].addrs[NDIRECT])
    ensures r.NoBlock? ==> Val(old(fs.Now()), SlotOf(inum, off / BSIZE)) == 0 && forall b: nat :: b < fs.l.size ==>
              Bit(fs.l, fs.blocks, b)
  {
    var addr;
    addr, x, y := fs.Bmap(inum, off / BSIZE);
    ghost var mid := fs.Now();
    if addr == 0 {
      WrittenNothing(old(fs.Now()), mid, inum, off);
      r := NoBlock;
      return;
    }
    StoreBytes(fs, inum, off, addr, s, failed);
    if addr !in x {
      assert x == {};
      x := if failed then {} else {addr};
    }
    r := if failed then BadCopy else Stored;
  }

  // ----- accounting for the log -----

  /** The blocks logged for the indirect block: none, or it and at most its bitmap block. */
  ghost predicate IndirectSet(y: set<nat>, ind: nat) {
    |y| <= 2 && (y == {} || (ind != 0 && ind in y))
  }

  lemma ChargeStep(before: set<nat>, now: set<nat>, xs: set<nat>, ys: set<nat>, x: set<nat>, y: set<nat>, ind: nat,
                   ind': nat)
    returns (ys': set<nat>)
    requires now <= before + xs + ys && IndirectSet(ys, ind) && IndirectCost(y, ind, ind')
    ensures now + x + y <= before + (xs + x) + ys' && IndirectSet(ys', ind') && |xs + x| <= |xs| + |x|
  {
    ys' := if ys == {} then y else ys;
    if ind != 0 && ys == {} {
      assert y <= {ind};
      assert |y| <= |{ind}| by { if y != {ind} { assert y == {}; } }
    }
  }

  lemma ChargeTotal(before: set<nat>, now: set<nat>, xs: set<nat>, ys: set<nat>)
    requires now <= before + xs + ys
    ensures |now| <= |before| + |xs| + |ys|
  {
    SubsetSize(now, before + xs + ys);
    assert |before + xs| <= |before| + |xs| && |before + xs + ys| <= |before + xs| + |ys|;
  }

  /** Blocks touched by a write of n bytes at off. */
  function Touched(off: nat, n: nat): nat { (off % BSIZE + n + BSIZE - 1) / BSIZE }

  /** Two blocks (data and bitmap) for each block touched, the indirect block and its bitmap
      block, and the inode; an unaligned first block exists already and costs one less. */
  function WriteCost(off: nat, n: nat): int {
    2 * Touched(off, n) + 3 - if off % BSIZE != 0 then 1 else 0
  }

  /** What i iterations starting at off may have logged, indirect block aside. */
  function Charge(off: nat, i: nat): int {
    2 * i - if off % BSIZE != 0 && i > 0 then 1 else 0
  }

  function Max(a: nat, b: nat): nat { if a < b then b else a }

  /** Where writei's loop stands after i iterations that wrote tot bytes. */
  ghost predicate Stands(off: nat, n: nat, tot: nat, i: nat) {
    && tot <= n && (i == 0 ==> tot == 0)
    && (i > 0 ==> (i - 1) * BSIZE < off % BSIZE + tot <= i * BSIZE)
    && (i > 0 && tot < n ==> off % BSIZE + tot == i * BSIZE)
  }

  lemma StandsNext(off: nat, n: nat, tot: nat, i: nat, m: nat)
    requires Stands(off, n, tot, i) && tot < n
    requires m == if n - tot < BSIZE - (off + tot) % BSIZE then n - tot else BSIZE - (off + tot) % BSIZE
    ensures 0 < m && Stands(off, n, tot + m, i + 1)
  {}

  lemma AtBoundary(off: nat, n: nat, tot: nat, i: nat)
    requires Stands(off, n, tot, i) && tot < n
    ensures tot == 0 || (off + tot) % BSIZE == 0
  {
    if i > 0 { Multiple(off / BSIZE + i); }
  }

  lemma Multiple(k: nat)
    ensures k * BSIZE % BSIZE == 0
  {}

  // ----- writei -----

  /** tot bytes are in place and stray ones after them, nothing else has changed, and there are no holes. */
  ghost predicate WriteInv(was: Fs, fs: Fs, n: nat, off: nat, src: seq<byte>, tot: nat, stray: nat) {
    && Grew(was, fs) && n in was.inodes && tot + stray <= |src|
    && Written(was, fs, n, off, src[..tot + stray])
    && Dense(fs, n, Max(was.inodes[n].size, off + tot))
  }

  /** The blocks logged in i iterations are within the charge. */
  ghost predicate LogInv(off: nat, i: nat, before: set<nat>, now: set<nat>, xs: set<nat>, ys: set<nat>, ind: nat) {
    now <= before + xs + ys && IndirectSet(ys, ind) && |xs| <= Charge(off, i)
  }

  lemma WrittenSlices(was: Fs, mid: Fs, fs: Fs, n: nat, off: nat, src: seq<byte>, tot: nat, m: nat)
    requires tot + m <= |src| && Written(was, mid, n, off, src[..tot])
             && Written(mid, fs, n, off + tot, src[tot..tot + m])
    ensures Written(was, fs, n, off, src[..tot + m])
  {
    assert src[..tot] + src[tot..tot + m] == src[..tot + m];
  }

  /** m more bytes were copied; they count if the iteration ended well. */
  lemma WriteMore(was: Fs, mid: Fs, fs: Fs, n: nat, off: nat, src: seq<byte>, tot: nat, m: nat, stored: bool)
    requires WriteInv(was, mid, n, off, src, tot, 0) && tot + m <= |src| && (off + tot) % BSIZE + m <= BSIZE
    requires Grew(mid, fs) && Written(mid, fs, n, off + tot, src[tot..tot + m])
    requires m > 0 ==> Val(fs, SlotOf(n, (off + tot) / BSIZE)) != 0
    ensures if stored then WriteInv(was, fs, n, off, src, tot + m, 0) else WriteInv(was, fs, n, off, src, tot, m)
  {
    WrittenSlices(was, mid, fs, n, off, src, tot, m);
  }

  lemma LogMore(off: nat, i: nat, before: set<nat>, now: set<nat>, xs: set<nat>, ys: set<nat>, ind: nat,
                x: set<nat>, y: set<nat>, ind': nat) returns (ys': set<nat>)
    requires LogInv(off, i, before, now, xs, ys, ind) && IndirectCost(y, ind, ind')
    requires |x| <= if i == 0 && off % BSIZE != 0 then 1 else 2
    ensures LogInv(off, i + 1, before, now + x + y, xs + x, ys', ind')
  {
    ys' := ChargeStep(before, now, xs, ys, x, y, ind, ind');
  }

  lemma LogNoMore(off: nat, i: nat, before: set<nat>, now: set<nat>, xs: set<nat>, ys: set<nat>, ind: nat,
                  x: set<nat>, y: set<nat>, ind': nat) returns (ys': set<nat>)
    requires LogInv(off, i, before, now, xs, ys, ind) && IndirectCost(y, ind, ind') && |x| <= 0
    ensures LogInv(off, i, before, now + x + y, xs, ys', ind')
  {
    assert x == {} && xs + x == xs;
    ys' := ChargeStep(before, now, xs, ys, x, y, ind, ind');
  }

  lemma LogTotal(off: nat, n: nat, tot: nat, i: nat, before: set<nat>, now: set<nat>, xs: set<nat>, ys: set<nat>,
                 ind: nat)
    requires Stands(off, n, tot, i) && LogInv(off, i, before, now, xs, ys, ind)
    ensures |now| + 1 <= |before| + WriteCost(off, n)
  {
    ChargeTotal(before, now, xs, ys);
  }

  /** min(n - tot, BSIZE - off % BSIZE). */
  function Chunk(off: nat, left: nat): nat {
    if left < BSIZE - off % BSIZE then left else BSIZE - off % BSIZE
  }

  /** How many of m bytes at tot the copy delivers when it can reach `readable` bytes of the source: all, or
      at most those within reach, `partial` of them. */
  function Copied(tot: nat, m: nat, readable: nat, partial: nat): (k: nat)
    ensures k <= m && (k < m ==> tot + m > readable) && (tot + m > readable ==> k < m || m == 0)
    ensures tot + m > readable ==> k == 0 || tot + k <= readable
  {
    if tot + m <= readable then m
    else if readable <= tot then 0
    else if partial <= readable - tot then partial else readable - tot
  }

  /** A block that is not allocated lies beyond what is dense. */
  lemma BeyondEnd(was: Fs, fs: Fs, n: nat, off: nat, src: seq<byte>, tot: nat)
    requires WriteInv(was, fs, n, off, src, tot, 0) && Val(fs, SlotOf(n, (off + tot) / BSIZE)) == 0
    ensures was.inodes[n].size <= off + tot
  {
    hide Written, Grew;
  }

  /** While writing, the inode stays, with its size. */
  lemma StillThere(was: Fs, fs: Fs, n: nat, off: nat, src: seq<byte>, tot: nat, stray: nat)
    requires WriteInv(was, fs, n, off, src, tot, stray)
    ensures n in was.inodes && n in fs.inodes && fs.inodes[n].size == was.inodes[n].size && tot + stray <= |src|
  {
    hide Written, Dense;
  }

  lemma ThirteenAddrs(fs: FileSystem, n: nat)
    requires fs.Valid() && n in fs.inodes
    ensures |fs.inodes[n].addrs| == NDIRECT + 1
  {}

  /** One pass of writei's loop. */
  method WriteNext(fs: FileSystem, inum: nat, off: nat, src: seq<byte>, readable: nat, partial: nat, tot: nat,
                   ghost was: Fs)
    returns (r: Chunked, m: nat, ghost x: set<nat>, ghost y: set<nat>)
    requires fs.Valid() && WriteInv(was, fs.Now(), inum, off, src, tot, 0) && tot < |src|
             && off + |src| <= MAXFILE * BSIZE
    modifies fs`blocks, fs`inodes, fs`logged
    ensures fs.Valid() && tot + m <= |src| && (r.BadCopy? ==> tot + Chunk(off + tot, |src| - tot) > readable)
    ensures r.Stored? ==> m == Chunk(off + tot, |src| - tot) && WriteInv(was, fs.Now(), inum, off, src, tot + m, 0)
    ensures r.Stored? ==> tot + m <= readable
    ensures !r.Stored? ==> WriteInv(was, fs.Now(), inum, off, src, tot, m)
    ensures r.BadCopy? ==> m == Copied(tot, Chunk(off + tot, |src| - tot), readable, partial)
    ensures r.NoBlock? ==> m == 0 && was.inodes[inum].size <= off + tot
    ensures r.NoBlock? ==> forall b: nat :: b < fs.l.size ==> Bit(fs.l, fs.blocks, b)
    ensures fs.logged == old(fs.logged) + x + y && inum in fs.inodes && |fs.inodes[inum].addrs| == NDIRECT + 1
    ensures |x| <= if r.NoBlock? then 0 else if Val(old(fs.Now()), SlotOf(inum, (off + tot) / BSIZE)) != 0 then 1 else 2
    ensures IndirectCost(y, old(fs.inodes[inum].addrs[NDIRECT]), fs.inodes[inum].addrs[NDIRECT])
  {
    hide Written, Dense, Grew, WriteInv, Inv, Val;
    StillThere(was, fs.Now(), inum, off, src, tot, 0);
    ThirteenAddrs(fs, inum);
    m := Chunk(off + tot, |src| - tot);
    var failed := tot + m > readable;
    m := Copied(tot, m, readable, partial);
    r, x, y := WriteBlock(fs, inum, off + tot, src[tot..tot + m], failed);
    if r.NoBlock? {
      m := 0;
      assert src[tot..tot + m] == [];
      BeyondEnd(was, old(fs.Now()), inum, off, src, tot);
    }
    WriteMore(was, old(fs.Now()), fs.Now(), inum, off, src, tot, m, r.Stored?);
    StillThere(was, fs.Now(), inum, off, src, if r.Stored? then tot + m else tot, if r.Stored? then 0 else m);
    ThirteenAddrs(fs, inum);
  }

  /** The same with the log accounted for. */
  method WritePass(fs: FileSystem, inum: nat, off: nat, src: seq<byte>, readable: nat, partial: nat, tot: nat,
                   ghost was: Fs, ghost i: nat, ghost before: set<nat>, ghost xs: set<nat>, ghost ys: set<nat>)
    returns (r: Chunked, m: nat, ghost xs': set<nat>, ghost ys': set<nat>)
    requires fs.Valid() && WriteInv(was, fs.Now(), inum, off, src, tot, 0) && tot < |src|
             && off + |src| <= MAXFILE * BSIZE
    requires off <= was.inodes[inum].size && Stands(off, |src|, tot, i) && inum in fs.inodes
    requires LogInv(off, i, before, fs.logged, xs, ys, fs.inodes[inum].addrs[NDIRECT])
    modifies fs`blocks, fs`inodes, fs`logged
    ensures fs.Valid() && inum in fs.inodes && tot + m <= |src| && |fs.inodes[inum].addrs| == NDIRECT + 1
    ensures r.Stored? ==>
              0 < m && WriteInv(was, fs.Now(), inum, off, src, tot + m, 0) && Stands(off, |src|, tot + m, i + 1)
    ensures r.Stored? ==> tot + m <= readable
    ensures r.Stored? ==> LogInv(off, i + 1, before, fs.logged, xs', ys', fs.inodes[inum].addrs[NDIRECT])
    ensures !r.Stored? ==> WriteInv(was, fs.Now(), inum, off, src, tot, m)
    ensures r.BadCopy? ==> tot + Chunk(off + tot, |src| - tot) > readable
    ensures r.BadCopy? ==> m == Copied(tot, Chunk(off + tot, |src| - tot), readable, partial)
    ensures r.NoBlock? ==> m == 0 && was.inodes[inum].size <= off + tot
    ensures !r.Stored? ==> |fs.logged| + 1 <= |before| + WriteCost(off, |src|)
    ensures r.NoBlock? ==> forall b: nat :: b < fs.l.size ==> Bit(fs.l, fs.blocks, b)
    ensures r.BadCopy? ==> readable < |src|
  {
    ghost var ind, now := fs.inodes[inum].addrs[NDIRECT], fs.logged;
    hide Inv, Written, Grew, WriteCost;
    ghost var x, y;
    r, m, x, y := WriteNext(fs, inum, off, src, readable, partial, tot, was);
    ghost var ind' := fs.inodes[inum].addrs[NDIRECT];
    ghost var step := Chunk(off + tot, |src| - tot);
    if r.NoBlock? {
      xs' := xs;
      ys' := LogNoMore(off, i, before, now, xs, ys, ind, x, y, ind');
      LogTotal(off, |src|, tot, i, before, fs.logged, xs', ys', ind');
    } else {
      StandsNext(off, |src|, tot, i, step);
      xs' := xs + x;
      ys' := LogMore(off, i, before, now, xs, ys, ind, x, y, ind');
      if r.BadCopy? { LogTotal(off, |src|, tot + step, i + 1, before, fs.logged, xs', ys', ind'); }
    }
  }

  /** A copy that fails inside a block, after some of its bytes. */
  predicate Strays(off: nat, n: nat, readable: nat, partial: nat) {
    0 < partial && 0 < readable < n && (off + readable) % BSIZE != 0
  }

  lemma FailsInside(off: nat, n: nat, readable: nat, partial: nat, tot: nat, m: nat)
    requires tot < n && (tot == 0 || (off + tot) % BSIZE == 0) && tot <= readable < tot + Chunk(off + tot, n - tot)
    requires m == Copied(tot, Chunk(off + tot, n - tot), readable, partial)
    ensures m > 0 <==> Strays(off, n, readable, partial)
    ensures m > 0 ==> tot + m <= readable < n && m == if partial <= readable - tot then partial else readable - tot
    ensures readable < n
  {
    Within(off + tot, readable - tot);
  }

  lemma Within(at: nat, k: nat)
    requires at % BSIZE + k < BSIZE
    ensures (at + k) % BSIZE == at % BSIZE + k
  {}

  lemma AllInReach(off: nat, n: nat, readable: nat, partial: nat)
    requires n <= readable
    ensures !Strays(off, n, readable, partial)
  {}

  lemma NothingWritten(fs: FileSystem, n: nat, off: nat, src: seq<byte>)
    requires fs.Valid() && NoHoles(fs.Now(), n) && off <= fs.inodes[n].size
    ensures WriteInv(fs.Now(), fs.Now(), n, off, src, 0, 0) && Stands(off, |src|, 0, 0)
    ensures n in fs.inodes && |fs.inodes[n].addrs| == NDIRECT + 1
    ensures LogInv(off, 0, fs.logged, fs.logged, {}, {}, fs.inodes[n].addrs[NDIRECT])
  {}

  /** writei's loop: stops when all is written, the disk is full, or a copy fails. */
  method WriteLoop(fs: FileSystem, inum: nat, off: nat, src: seq<byte>, readable: nat, partial: nat)
    returns (tot: nat, ghost stray: nat)
    requires fs.Valid() && NoHoles(fs.Now(), inum) && off <= fs.inodes[inum].size && off + |src| <= MAXFILE * BSIZE
    modifies fs`blocks, fs`inodes, fs`logged
    ensures fs.Valid() && WriteInv(old(fs.Now()), fs.Now(), inum, off, src, tot, stray) && tot + stray <= |src|
    ensures inum in fs.inodes && fs.inodes[inum].size == old(fs.inodes[inum].size)
    ensures stray > 0 ==> Strays(off, |src|, readable, partial) && tot + stray <= readable
    ensures stray > 0 ==> stray == if partial <= readable - tot then partial else readable - tot
    ensures Strays(off, |src|, readable, partial) && stray == 0 ==>
              old(fs.inodes[inum].size) < off + |src| && forall b: nat :: b < fs.l.size ==> Bit(fs.l, fs.blocks, b)
    ensures tot < |src| ==> readable < |src| || forall b: nat :: b < fs.l.size ==> Bit(fs.l, fs.blocks, b)
    ensures 0 < tot < |src| ==> (off + tot) % BSIZE == 0
    ensures |fs.logged| + 1 <= |old(fs.logged)| + WriteCost(off, |src|)
  {
    hide Inv, WriteInv, LogInv, Stands, WriteCost, Dense, Strays, Chunk, Copied;
    NothingWritten(fs, inum, off, src);
    tot, stray := 0, 0;
    ghost var i, xs, ys := 0, {}, {};
    while tot < |src|
      invariant tot <= |src| && fs.Valid() && WriteInv(old(fs.Now()), fs.Now(), inum, off, src, tot, 0)
                && inum in fs.inodes
      invariant Stands(off, |src|, tot, i) && stray == 0 && tot <= readable
      invariant |fs.inodes[inum].addrs| == NDIRECT + 1
      invariant LogInv(off, i, old(fs.logged), fs.logged, xs, ys, fs.inodes[inum].addrs[NDIRECT])
    {
      var r, m;
      r, m, xs, ys := WritePass(fs, inum, off, src, readable, partial, tot, old(fs.Now()), i, old(fs.logged), xs, ys);
      if !r.Stored? {
        stray := m;
        AtBoundary(off, |src|, tot, i);
        if r.BadCopy? { FailsInside(off, |src|, readable, partial, tot, m); }
        StillThere(old(fs.Now()), fs.Now(), inum, off, src, tot, stray);
        return;
      }
      tot := tot + m;
      i := i + 1;
    }
    LogTotal(off, |src|, tot, i, old(fs.logged), fs.logged, xs, ys, fs.inodes[inum].addrs[NDIRECT]);
    StillThere(old(fs.Now()), fs.Now(), inum, off, src, tot, 0);
    AllInReach(off, |src|, readable, partial);
  }

  /** Storing the size: contents and owners do not depend on it. */
  lemma SizeSet(l: Layout, loose: set<nat>, was: Fs, mid: Fs, fs: Fs, n: nat, off: nat, src: seq<byte>, tot: nat,
                stray: nat, sz: nat)
    requires Inv(l, mid, loose) && WriteInv(was, mid, n, off, src, tot, stray)
             && sz == Max(was.inodes[n].size, off + tot)
    requires sz <= MAXFILE * BSIZE
    requires fs.blocks == mid.blocks && n in mid.inodes && fs.inodes == mid.inodes[n := Inode(mid.inodes[n].addrs, sz)]
    ensures Inv(l, fs, loose) && NoHoles(fs, n) && Written(was, fs, n, off, src[..tot + stray])
    ensures forall m :: m in was.inodes && m != n ==> m in fs.inodes && fs.inodes[m].size == was.inodes[m].size
    ensures KeepsDense(was, fs)
  {
    SizeIsNotOwnership(l, loose, mid, fs, n);
    assert SameContents(mid, fs) by {
      forall m, bn ensures Contents(fs, m, bn) == Contents(mid, m, bn) {
        assert Val(fs, SlotOf(m, bn)) == Val(mid, SlotOf(m, bn));
      }
    }
    WrittenNothing(mid, fs, n, off);
    forall m | NoHoles(was, m)
      ensures NoHoles(fs, m)
    {
      assert forall bn: nat :: Val(fs, SlotOf(m, bn)) == Val(mid, SlotOf(m, bn));
    }
  }

  /** writei: -1 for a bad range; otherwise exactly the first tot bytes of src replace the
      file's at off, the size grows to cover them, no other file changes and no hole appears.  A short
      count means that the disk is full or a copy from the caller failed.  Stray bytes are left behind the
      count, in a block that is not logged for them, exactly when the copy fails inside a block after
      some of its bytes, unless the disk is full before that.
      The blocks logged are at most WriteCost. */
  method Writei(fs: FileSystem, inum: nat, off: uint, src: seq<byte>, readable: nat, partial: nat)
    returns (tot: int, ghost stray: nat)
    requires fs.Valid() && NoHoles(fs.Now(), inum) && |src| < 0x1_0000_0000
    modifies fs`blocks, fs`inodes, fs`logged
    ensures fs.Valid() && NoHoles(fs.Now(), inum) && KeepsDense(old(fs.Now()), fs.Now())
    ensures tot == -1 <==>
              off > old(fs.inodes[inum].size) || (off + |src|) % 0x1_0000_0000 < off || off + |src| > MAXFILE * BSIZE
    ensures tot == -1 ==> fs.Now() == old(fs.Now()) && fs.logged == old(fs.logged)
    ensures tot != -1 ==>
              0 <= tot <= tot + stray <= |src| && Written(old(fs.Now()), fs.Now(), inum, off, src[..tot + stray])
    ensures tot != -1 ==> fs.inodes[inum].size == Max(old(fs.inodes[inum].size), off + tot)
    ensures forall n :: n in old(fs.inodes) && n != inum ==>
              n in fs.inodes && fs.inodes[n].size == old(fs.inodes[n].size)
    ensures stray > 0 ==> Strays(off, |src|, readable, partial) && tot + stray <= readable
    ensures stray > 0 ==> stray == if partial <= readable - tot then partial else readable - tot
    ensures tot != -1 && Strays(off, |src|, readable, partial) && stray == 0 ==>
              old(fs.inodes[inum].size) < off + |src| && forall b: nat :: b < fs.l.size ==> Bit(fs.l, fs.blocks, b)
    ensures 0 <= tot < |src| ==> readable < |src| || forall b: nat :: b < fs.l.size ==> Bit(fs.l, fs.blocks, b)
    ensures 0 < tot < |src| ==> (off + tot) % BSIZE == 0
    ensures tot != -1 ==> |fs.logged| <= |old(fs.logged)| + WriteCost(off, |src|)
  {
    hide Inv, Written, Dense, WriteInv, WriteCost, Strays;
    stray := 0;
    if off > fs.inodes[inum].size || (off + |src|) % 0x1_0000_0000 < off {
      return -1, 0;
    }
    if off + |src| > MAXFILE * BSIZE {
      return -1, 0;
    }
    tot, stray := WriteLoop(fs, inum, off, src, readable, partial);
    ghost var mid := fs.Now();
    var sz := fs.inodes[inum].size;
    if off + tot > sz {
      sz := off + tot;
    }
    fs.inodes := fs.inodes[inum := Inode(fs.inodes[inum].addrs, sz)];
    SizeSet(fs.l, fs.others, old(fs.Now()), mid, fs.Now(), inum, off, src, tot, stray, sz);
    fs.logged := fs.logged + {fs.l.IBlock(inum)};
  }

  // ----- filewrite -----

  const MAXCHUNK := (MAXOPBLOCKS - 1 - 1 - 2) / 2 * BSIZE

  /** A chunk of filewrite never exceeds the reservation made by begin_op. */
  lemma ChunkFits(off: nat, n: nat)
    requires n <= MAXCHUNK
    ensures WriteCost(off, n) <= MAXOPBLOCKS
  {}

  /** writei's range test: it refuses these. */
  ghost predicate Refused(fs: Fs, inum: nat, off: nat, n: nat)
    requires inum in fs.inodes
  {
    off > fs.inodes[inum].size || (off + n) % 0x1_0000_0000 < off || off + n > MAXFILE * BSIZE
  }

  ghost predicate Full(l: Layout, fs: Fs) { forall b: nat :: b < l.size ==> Bit(l, fs.blocks, b) }

  /** One transaction of filewrite: at most MAXOPBLOCKS distinct blocks are logged, wherever
      the offset lies, whatever the bitmap looks like and wherever the copy fails. */
  method WriteTransaction(fs: FileSystem, inum: nat, off: uint, src: seq<byte>, readable: nat, partial: nat)
    returns (r: int, ghost stray: nat)
    requires fs.Valid() && NoHoles(fs.Now(), inum) && |src| <= MAXCHUNK
    modifies fs`blocks, fs`inodes, fs`logged
    ensures fs.Valid() && NoHoles(fs.Now(), inum) && |fs.logged| <= MAXOPBLOCKS && KeepsDense(old(fs.Now()), fs.Now())
    ensures r == -1 ==> fs.Now() == old(fs.Now())
    ensures r == -1 <==> Refused(old(fs.Now()), inum, off, |src|)
    ensures 0 <= r < |src| ==> readable < |src| || Full(fs.l, fs.Now())
    ensures r != -1 ==> 0 <= r <= r + stray <= |src| && Written(old(fs.Now()), fs.Now(), inum, off, src[..r + stray])
    ensures stray > 0 ==> Strays(off, |src|, readable, partial) && r + stray <= readable
    ensures r != -1 && Strays(off, |src|, readable, partial) && stray == 0 ==>
              old(fs.inodes[inum].size) < off + |src| && forall b: nat :: b < fs.l.size ==> Bit(fs.l, fs.blocks, b)
    ensures r != -1 ==> fs.inodes[inum].size == Max(old(fs.inodes[inum].size), off + r)
  {
    fs.logged := {};
    ChunkFits(off, |src|);
    r, stray := Writei(fs, inum, off, src, readable, partial);
  }

  /** What other processes leave behind while filewrite holds no lock between two transactions: other
      contents of the disk and its files, and another offset if they share the open file. */
  datatype Meanwhile = Meanwhile(fs: Fs, others: set<nat>, off: uint)

  ghost predicate Possible(l: Layout, inum: nat, m: Meanwhile) {
    Inv(l, m.fs, m.others) && NoHoles(m.fs, inum)
  }

  /** A transaction of filewrite: n bytes of the source from i on, for offset off of the file. */
  datatype Turn = Turn(before: Fs, off: nat, i: nat, n: nat, r: int, stray: nat, after: Fs, cost: nat)

  /** Each transaction writes its part in full, unless writei refuses the range, the source cannot be read that
      far, or the
      disk is full. */
  ghost predicate TurnOk(l: Layout, inum: nat, src: seq<byte>, readable: nat, t: Turn) {
    && t.i < |src| && t.n == (if |src| - t.i > MAXCHUNK then MAXCHUNK else |src| - t.i)
    && -1 <= t.r && t.r + t.stray <= t.n && t.cost <= MAXOPBLOCKS && KeepsDense(t.before, t.after)
    && inum in t.before.inodes && inum in t.after.inodes
    && (t.r == -1 <==> Refused(t.before, inum, t.off, t.n)) && (t.r == -1 ==> t.stray == 0 && t.after == t.before)
    && (t.r >= 0 ==>
          && Written(t.before, t.after, inum, t.off, src[t.i..t.i + (t.r + t.stray)])
          && t.after.inodes[inum].size == Max(t.before.inodes[inum].size, t.off + t.r))
    && (0 <= t.r < t.n ==> readable < t.i + t.n || Full(l, t.after))
  }

  /** Transaction k goes on where the one before stopped, at the state and offset it finds. */
  ghost predicate LinkedAt(meanwhile: seq<Meanwhile>, turns: seq<Turn>, k: int)
    requires 0 < k < |turns|
  {
    var p, t := turns[k - 1], turns[k];
    && p.r == p.n && p.stray == 0 && t.i == p.i + p.n
    && (if k <= |meanwhile| then t.before == meanwhile[k - 1].fs && t.off == meanwhile[k - 1].off
        else t.before == p.after && t.off == p.off + p.r)
  }

  ghost predicate Turns(l: Layout, inum: nat, src: seq<byte>, readable: nat, fs0: Fs, off0: nat,
                        meanwhile: seq<Meanwhile>, turns: seq<Turn>) {
    && (turns != [] ==> turns[0].before == fs0 && turns[0].off == off0 && turns[0].i == 0)
    && (forall k :: 0 <= k < |turns| ==> TurnOk(l, inum, src, readable, turns[k]))
    && (forall k :: 0 < k < |turns| ==> LinkedAt(meanwhile, turns, k))
  }

  /** The bytes of the source that are accounted for. */
  ghost function Done(turns: seq<Turn>): nat {
    if turns == [] then 0 else
      var t := turns[|turns| - 1];
      t.i + if t.r >= 0 then t.r else 0
  }

  lemma OneMoreTurn(l: Layout, inum: nat, src: seq<byte>, readable: nat, fs0: Fs, off0: nat,
                    meanwhile: seq<Meanwhile>, turns: seq<Turn>, t: Turn)
    requires Turns(l, inum, src, readable, fs0, off0, meanwhile, turns) && TurnOk(l, inum, src, readable, t)
    requires turns == [] ==> t.before == fs0 && t.off == off0 && t.i == 0
    requires turns != [] ==> LinkedAt(meanwhile, turns + [t], |turns|)
    ensures Turns(l, inum, src, readable, fs0, off0, meanwhile, turns + [t])
  {
    hide TurnOk;
    var ts := turns + [t];
    forall k | 0 < k < |ts|
      ensures LinkedAt(meanwhile, ts, k)
    {
      if k < |turns| { assert LinkedAt(meanwhile, turns, k); }
    }
  }

  lemma FirstTurns(l: Layout, inum: nat, src: seq<byte>, readable: nat, fs0: Fs, off0: nat,
                   meanwhile: seq<Meanwhile>, turns: seq<Turn>)
    requires Turns(l, inum, src, readable, fs0, off0, meanwhile, turns) && turns != []
    ensures TurnOk(l, inum, src, readable, turns[|turns| - 1])
    ensures Turns(l, inum, src, readable, fs0, off0, meanwhile, turns[..|turns| - 1])
    ensures |turns| == 1 ==> turns[0].before == fs0 && turns[0].off == off0 && turns[0].i == 0
    ensures |turns| > 1 ==> LinkedAt(meanwhile, turns, |turns| - 1)
  {
    hide TurnOk;
    var p := turns[..|turns| - 1];
    forall k | 0 < k < |p|
      ensures LinkedAt(meanwhile, p, k)
    {
      assert LinkedAt(meanwhile, turns, k);
    }
  }

  /** One transaction after bytes 0 .. t.i have been put at off0. */
  lemma TurnWrites(l: Layout, inum: nat, src: seq<byte>, readable: nat, fs0: Fs, off0: nat, t: Turn)
    requires TurnOk(l, inum, src, readable, t) && t.off == off0 + t.i
    requires KeepsDense(fs0, t.before) && Written(fs0, t.before, inum, off0, src[..t.i])
    ensures var m := if t.r >= 0 then t.r else 0;
            && t.i + m + t.stray <= |src| && KeepsDense(fs0, t.after)
            && Written(fs0, t.after, inum, off0, src[..t.i + m + t.stray])
  {
    hide Written, NoHoles;
    if t.r >= 0 {
      WrittenSlices(fs0, t.before, t.after, inum, off0, src, t.i, t.r + t.stray);
      assert t.i + (t.r + t.stray) == t.i + t.r + t.stray;
    }
  }

  /** If nobody interferes, the file holds the source from off0 on, as far as it was written, and nothing else has
      changed. */
  lemma {:induction false} Undisturbed(l: Layout, inum: nat, src: seq<byte>, readable: nat, fs0: Fs, off0: nat,
                                       turns: seq<Turn>)
    requires Turns(l, inum, src, readable, fs0, off0, [], turns) && turns != []
    ensures var t := turns[|turns| - 1];
            && t.off == off0 + t.i && KeepsDense(fs0, t.after) && Done(turns) + t.stray <= |src|
            && Written(fs0, t.after, inum, off0, src[..Done(turns) + t.stray])
  {
    hide TurnOk, Written, KeepsDense, Turns;
    var n := |turns| - 1;
    var t := turns[n];
    FirstTurns(l, inum, src, readable, fs0, off0, [], turns);
    if n == 0 {
      WrittenNothing(fs0, fs0, inum, off0);
      assert src[..0] == [];
      StaysDense(fs0);
    } else {
      Undisturbed(l, inum, src, readable, fs0, off0, turns[..n]);
    }
    TurnWrites(l, inum, src, readable, fs0, off0, t);
  }

  lemma StaysDense(fs: Fs)
    ensures KeepsDense(fs, fs)
  {}

  /** begin_op, ilock, writei, iunlock, end_op. */
  method TakeTurn(fs: FileSystem, inum: nat, off: uint, src: seq<byte>, i: nat, readable: nat, partial: nat)
    returns (r: int, n1: nat, ghost t: Turn)
    requires fs.Valid() && NoHoles(fs.Now(), inum) && i < |src|
    modifies fs`blocks, fs`inodes, fs`logged
    ensures fs.Valid() && NoHoles(fs.Now(), inum) && TurnOk(fs.l, inum, src, readable, t)
    ensures t.before == old(fs.Now()) && t.after == fs.Now() && t.off == off && t.i == i && t.r == r && t.n == n1
    ensures -1 <= r <= n1 && 0 < n1 <= |src| - i && (r > 0 ==> off + r < 0x1_0000_0000)
    ensures t.stray > 0 ==> readable < |src| && r < n1
  {
    hide Inv, Written, Dense, TurnOk;
    n1 := |src| - i;
    if n1 > MAXCHUNK {
      n1 := MAXCHUNK;
    }
    ghost var stray;
    r, stray := WriteTransaction(fs, inum, off, src[i..i + n1], if readable < i then 0 else readable - i, partial);
    t := Turn(old(fs.Now()), off, i, n1, r, if r >= 0 then stray else 0, fs.Now(), |fs.logged|);
    TurnDone(fs.l, inum, src, readable, t);
  }

  /** filewrite on an inode: transaction after transaction until all is written or one falls short, whatever
      other processes do to the file system in between.  Each puts its part of the source at the offset it
      finds, and stays within its reservation. */
  method Filewrite(fs: FileSystem, inum: nat, off0: uint, src: seq<byte>, readable: nat, partial: nat,
                   meanwhile: seq<Meanwhile>)
    returns (ret: int, off: uint, ghost turns: seq<Turn>)
    requires fs.Valid() && NoHoles(fs.Now(), inum)
    requires forall k :: 0 <= k < |meanwhile| ==> Possible(fs.l, inum, meanwhile[k])
    modifies fs`blocks, fs`inodes, fs`logged, fs`others
    ensures fs.Valid() && NoHoles(fs.Now(), inum) && Turns(fs.l, inum, src, readable, old(fs.Now()), off0,
            meanwhile, turns)
    ensures turns == [] <==> src == []
    ensures ret == if Done(turns) == |src| then |src| else -1
    ensures turns != [] ==> var t := turns[|turns| - 1];
              && fs.Now() == t.after && off == t.off + (if t.r >= 0 then t.r else 0)
              && (t.stray > 0 ==> readable < |src|)
  {
    hide Inv, NoHoles, Turns, TurnOk;
    off, turns := off0, [];
    NoTurns(fs.l, inum, src, readable, fs.Now(), off0, meanwhile);
    var i, k := 0, 0;
    while i < |src|
      invariant 0 <= i <= |src| && k == |turns| && i == Done(turns)
      invariant fs.Valid() && NoHoles(fs.Now(), inum)
                && Turns(fs.l, inum, src, readable, old(fs.Now()), off0, meanwhile, turns)
      invariant turns == [] ==> fs.Now() == old(fs.Now()) && off == off0
      invariant turns != [] ==> var t := turns[k - 1];
                  fs.Now() == t.after && off == t.off + t.r && t.r == t.n && t.stray == 0 && src != []
      decreases |src| - i
    {
      if 0 < k <= |meanwhile| {
        assert Possible(fs.l, inum, meanwhile[k - 1]);
        fs.blocks, fs.inodes, off := meanwhile[k - 1].fs.blocks, meanwhile[k - 1].fs.inodes, meanwhile[k - 1].off;
        fs.others := meanwhile[k - 1].others;
      }
      var r, n1;
      ghost var t;
      r, n1, t := TakeTurn(fs, inum, off, src, i, readable, partial);
      OneMoreTurn(fs.l, inum, src, readable, old(fs.Now()), off0, meanwhile, turns, t);
      turns := turns + [t];
      if r > 0 {
        off := off + r;
      }
      if r != n1 {
        return -1, off, turns;
      }
      i := i + r;
      k := k + 1;
    }
    ret := |src|;
  }

  lemma NoTurns(l: Layout, inum: nat, src: seq<byte>, readable: nat, fs0: Fs, off0: nat, meanwhile: seq<Meanwhile>)
    ensures Turns(l, inum, src, readable, fs0, off0, meanwhile, [])
  {}

  lemma TurnDone(l: Layout, inum: nat, src: seq<byte>, readable: nat, t: Turn)
    requires t.i < |src| && t.n == (if |src| - t.i > MAXCHUNK then MAXCHUNK else |src| - t.i)
    requires -1 <= t.r && t.cost <= MAXOPBLOCKS && KeepsDense(t.before, t.after)
    requires inum in t.before.inodes && inum in t.after.inodes
    requires (t.r == -1 <==> Refused(t.before, inum, t.off, t.n)) && (t.r == -1 ==> t.stray == 0 && t.after == t.before)
    requires t.r >= 0 ==> t.after.inodes[inum].size == Max(t.before.inodes[inum].size, t.off + t.r)
    requires 0 <= t.r < t.n ==> readable < t.i + t.n || Full(l, t.after)
    requires t.r >= 0 ==> t.r + t.stray <= t.n
                          && Written(t.before, t.after, inum, t.off, src[t.i..t.i + t.n][..t.r + t.stray])
    ensures TurnOk(l, inum, src, readable, t)
  {
    hide Written, Dense;
    if t.r >= 0 { assert src[t.i..t.i + t.n][..t.r + t.stray] == src[t.i..t.i + (t.r + t.stray)]; }
  }

  // ----- stray bytes on a small disk -----

  /** Three blocks: one of no interest, the bitmap, and the only block of a file of ten zeros. */
  function SmallDisk(): map<nat, Block> {
    map[0 := Zeros(), 1 := SetBit(SetBit(SetBit(Zeros(), 0, true), 1, true), 2, true), 2 := Zeros()]
  }

  const SMALL := Layout(3, 1, 0, 2)
  const TEN := Inode([2, 0, 0, 0, 0, 0, 0, 0, 0, 0, 0, 0, 0], 10)

  ghost function Small(): Fs {
    Fs(SmallDisk(), map[1 := TEN])
  }

  lemma SmallSlots()
    ensures forall s: Slot :: Val(Small(), s) == if s == Direct(1, 0) then 2 else 0
    ensures Owned(Small(), 2)
  {
    assert Val(Small(), Direct(1, 0)) == 2;
  }

  lemma SmallBits()
    ensures forall b: nat :: b < 3 ==> Bit(SMALL, Small().blocks, b)
  {}

  lemma SmallInv()
    ensures Inv(SMALL, Small(), {}) && NoHoles(Small(), 1) && forall k: nat :: FileByte(Small(), 1, k) == 0
  {
    hide Val, Owned, Bit, SetBit;
    SmallSlots();
    SmallBits();
  }

  /** The copy of ten sevens reaches five of them: the count is 0, and yet five zeros of the file are overwritten. */
  method LeavesStrayBytes() returns (tot: int, fs: FileSystem)
    ensures fresh(fs) && tot == 0 && 1 in fs.inodes && fs.inodes[1].size == 10
    ensures forall k: nat :: FileByte(fs.Now(), 1, k) == if k < 5 then 7 else 0
  {
    hide Inv, Dense, FileByte;
    SmallInv();
    fs := new FileSystem(SMALL, SmallDisk(), map[1 := TEN]);
    ghost var stray;
    tot, stray := Writei(fs, 1, 0, seq(10, _ => 7), 5, 5);
  }

  // ----- readi -----

  /** bmap of a block that exists: a pure lookup. */
  method MapPresent(fs: FileSystem, inum: nat, bn: nat) returns (addr: uint)
    requires fs.Valid() && inum in fs.inodes && bn < MAXFILE && Val(fs.Now(), SlotOf(inum, bn)) != 0
    modifies fs`blocks, fs`inodes, fs`logged
    ensures fs.Now() == old(fs.Now()) && fs.logged == old(fs.logged)
    ensures addr in fs.blocks && fs.blocks[addr] == Contents(fs.Now(), inum, bn)
  {
    ghost var x, y;
    addr, x, y := fs.Bmap(inum, bn);
  }

  /** readi: exactly the bytes of the file in [off, off+n), clipped to its size; nothing changes.  With only
      `writable` bytes of room at the caller the copy fails, the count is -1, and what was delivered
      before are still the file's bytes.  A short count means the end of the file, or an offset so large
      that the range wraps around. */
  method Readi(fs: FileSystem, inum: nat, off: uint, n: uint, writable: nat) returns (tot: int, data: seq<byte>)
    requires fs.Valid() && NoHoles(fs.Now(), inum)
    modifies fs`blocks, fs`inodes, fs`logged
    ensures fs.Now() == old(fs.Now()) && fs.logged == old(fs.logged)
    ensures var want := Clipped(fs.inodes[inum].size, off, n);
            && tot == (if want > writable then -1 else want)
            && (tot >= 0 ==> |data| == tot)
    ensures tot > 0 ==> tot <= n && off + tot <= fs.inodes[inum].size
    ensures 0 <= tot < n ==> off + tot >= fs.inodes[inum].size || off + n >= 0x1_0000_0000
    ensures tot == -1 ==> writable < n && off + writable < fs.inodes[inum].size
    ensures |data| <= writable && forall k :: 0 <= k < |data| ==> data[k] == FileByte(fs.Now(), inum, off + k)
  {
    hide Contents, Val;
    data := [];
    if off > fs.inodes[inum].size || (off + n) % 0x1_0000_0000 < off {
      return 0, data;
    }
    var want := if off + n > fs.inodes[inum].size then fs.inodes[inum].size - off else n;
    tot := 0;
    while tot < want
      invariant 0 <= tot <= want && tot <= writable && fs.Now() == old(fs.Now()) && fs.logged == old(fs.logged)
                && |data| == tot
      invariant forall k :: 0 <= k < tot ==> data[k] == FileByte(fs.Now(), inum, off + k)
    {
      var m := ReadChunk(fs, inum, off + tot, want - tot);
      if tot + |m| > writable {
        return -1, data;
      }
      data := data + m;
      tot := tot + |m|;
    }
  }

  /** The bytes readi delivers: n of them, as far as the file goes. */
  function Clipped(size: nat, off: nat, n: nat): nat {
    if off > size || (off + n) % 0x1_0000_0000 < off then 0 else if off + n > size then size - off else n
  }

  /** One iteration of readi, up to the copy. */
  method ReadChunk(fs: FileSystem, inum: nat, o: nat, left: nat) returns (m: seq<byte>)
    requires fs.Valid() && NoHoles(fs.Now(), inum) && 0 < left && o + left <= fs.inodes[inum].size
    modifies fs`blocks, fs`inodes, fs`logged
    ensures fs.Now() == old(fs.Now()) && fs.logged == old(fs.logged) && 0 < |m| <= left
    ensures forall k :: 0 <= k < |m| ==> m[k] == FileByte(fs.Now(), inum, o + k)
  {
    hide Contents, Val;
    assert o / BSIZE * BSIZE < fs.inodes[inum].size;
    var addr := MapPresent(fs, inum, o / BSIZE);
    var n := Chunk(o, left);
    var bp := fs.blocks[addr];
    assert bp == Contents(fs.Now(), inum, o / BSIZE);
    m := bp[o % BSIZE..o % BSIZE + n];
    forall k | 0 <= k < n
      ensures m[k] == FileByte(fs.Now(), inum, o + k)
    {
      assert (o + k) / BSIZE == o / BSIZE && (o + k) % BSIZE == o % BSIZE + k;
    }
  }
}
