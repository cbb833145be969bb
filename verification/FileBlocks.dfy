/** kernel/fs.c as code: the block allocator, block maps, truncation, and byte-level
    reading and writing of files, on the blocks the log and the cache present.
    `logged` is the set of blocks passed to log_write since it was last emptied, and `others`
    the blocks in the hands of other processes: allocated and not yet stored in an inode, or
    taken from one and not yet freed.  The inode lock does not keep such processes away. */
module FileBlocks {
  import opened Blocks
  import opened Bitmap
  import opened Ownership

  /** Blocks named before are still named, by the same slots, and sizes are kept. */
  ghost predicate Grew(fs: Fs, fs': Fs) {
    && (forall s: Slot :: Val(fs, s) != 0 ==> Val(fs', s) == Val(fs, s))
    && fs'.inodes.Keys == fs.inodes.Keys
    && (forall n :: n in fs.inodes ==> fs'.inodes[n].size == fs.inodes[n].size)
  }

  /** A state reached by mapping blocks: contents and ownership as before, slots only filled. */
  ghost predicate Mapped(l: Layout, loose: set<nat>, fs: Fs, fs': Fs) {
    Inv(l, fs', loose) && SameContents(fs, fs') && Grew(fs, fs')
  }

  /** A new block put into an empty address. */
  lemma AddrGrew(l: Layout, fs: Fs, n: nat, i: nat, b: uint)
    requires n in fs.inodes && i < NDIRECT && |fs.inodes[n].addrs| == NDIRECT + 1 && fs.inodes[n].addrs[i] == 0
    requires l.BBlock(b) in fs.blocks && forall s: Slot :: Val(Allocated(l, fs, b), s) == Val(fs, s)
    ensures Grew(fs, WithAddr(Allocated(l, fs, b), n, i, b))
    ensures Val(WithAddr(Allocated(l, fs, b), n, i, b), Direct(n, i)) == b
  {
    assert forall s: Slot :: s != Direct(n, i) ==>
             Val(WithAddr(Allocated(l, fs, b), n, i, b), s) == Val(Allocated(l, fs, b), s);
  }

  lemma NewDirect(l: Layout, loose: set<nat>, fs: Fs, n: nat, i: nat, b: uint)
    requires Inv(l, fs, loose) && n in fs.inodes && i < NDIRECT && fs.inodes[n].addrs[i] == 0
    requires b < l.size && !Bit(l, fs.blocks, b) && l.BBlock(b) in fs.blocks
    ensures Mapped(l, loose, fs, WithAddr(Allocated(l, fs, b), n, i, b))
    ensures Val(WithAddr(Allocated(l, fs, b), n, i, b), Direct(n, i)) == b
  {
    assert |fs.inodes[n].addrs| == NDIRECT + 1;
    AllocKeeps(l, fs, loose, b);
    AllocContents(l, fs, loose, b);
    AttachDirect(l, Allocated(l, fs, b), loose + {b}, n, i, b);
    assert loose + {b} - {b} == loose;
    AddrGrew(l, fs, n, i, b);
  }

  lemma IndirectGrew(l: Layout, fs: Fs, n: nat, b: uint)
    requires n in fs.inodes && |fs.inodes[n].addrs| == NDIRECT + 1 && fs.inodes[n].addrs[NDIRECT] == 0
    requires l.BBlock(b) in fs.blocks && forall s: Slot :: Val(Allocated(l, fs, b), s) == Val(fs, s)
    requires forall j :: Val(WithAddr(Allocated(l, fs, b), n, NDIRECT, b), Entry(n, j)) == 0
    ensures Grew(fs, WithAddr(Allocated(l, fs, b), n, NDIRECT, b))
    ensures forall j :: Val(WithAddr(Allocated(l, fs, b), n, NDIRECT, b), Entry(n, j)) == Val(fs, Entry(n, j))
  {
    var m := Allocated(l, fs, b);
    var r := WithAddr(m, n, NDIRECT, b);
    forall s: Slot
      ensures s != Indirect(n) ==> Val(r, s) == Val(fs, s)
    {
      assert Val(m, s) == Val(fs, s);
    }
  }

  lemma NewIndirect(l: Layout, loose: set<nat>, fs: Fs, n: nat, b: uint)
    requires Inv(l, fs, loose) && n in fs.inodes && fs.inodes[n].addrs[NDIRECT] == 0
    requires b < l.size && !Bit(l, fs.blocks, b) && l.BBlock(b) in fs.blocks
    ensures Mapped(l, loose, fs, WithAddr(Allocated(l, fs, b), n, NDIRECT, b))
    ensures forall j :: Val(WithAddr(Allocated(l, fs, b), n, NDIRECT, b), Entry(n, j)) == Val(fs, Entry(n, j))
  {
    assert |fs.inodes[n].addrs| == NDIRECT + 1;
    AllocKeeps(l, fs, loose, b);
    AllocContents(l, fs, loose, b);
    AttachIndirect(l, Allocated(l, fs, b), loose + {b}, n, b);
    assert loose + {b} - {b} == loose;
    IndirectGrew(l, fs, n, b);
  }

  lemma NewEntry(l: Layout, loose: set<nat>, fs: Fs, n: nat, j: nat, b: uint)
    requires Inv(l, fs, loose) && n in fs.inodes && j < NINDIRECT
    requires fs.inodes[n].addrs[NDIRECT] != 0 && Val(fs, Entry(n, j)) == 0
    requires b < l.size && !Bit(l, fs.blocks, b) && l.BBlock(b) in fs.blocks
    ensures Val(fs, Indirect(n)) in Allocated(l, fs, b).blocks
    ensures Mapped(l, loose, fs, WithEntry(Allocated(l, fs, b), n, j, b))
    ensures Val(WithEntry(Allocated(l, fs, b), n, j, b), Entry(n, j)) == b
  {
    AllocKeeps(l, fs, loose, b);
    AllocContents(l, fs, loose, b);
    var m := Allocated(l, fs, b);
    AttachEntry(l, m, loose + {b}, n, j, b);
    assert loose + {b} - {b} == loose;
    var r := WithEntry(m, n, j, b);
    var a := Val(fs, Indirect(n));
    forall s: Slot | Val(fs, s) != 0
      ensures Val(r, s) == Val(fs, s)
    {
      assert Val(m, s) == Val(fs, s);
      if s.Entry? {
        if s.inum == n { SetThenGet(m.blocks[a], j, b, s.j); } else { assert Val(m, Indirect(s.inum)) != a; }
      }
    }
    SetThenGet(m.blocks[a], j, b, j);
  }

  class FileSystem {
    const l: Layout
    var blocks: map<nat, Block>
    var inodes: map<nat, Inode>
    ghost var logged: set<nat>
    ghost var others: set<nat>

    ghost function Now(): Fs
      reads this
    {
      Fs(blocks, inodes)
    }

    ghost predicate Valid()
      reads this
    {
      Inv(l, Now(), others)
    }

    constructor (l: Layout, blocks: map<nat, Block>, inodes: map<nat, Inode>)
      requires Inv(l, Fs(blocks, inodes), {})
      ensures Valid() && this.l == l && Now() == Fs(blocks, inodes) && others == {} && logged == {}
    {
      this.l, this.blocks, this.inodes, others, logged := l, blocks, inodes, {}, {};
    }

    /** balloc's two loops: the first block whose bit is clear, or size if there is none. */
    method FindFree() returns (r: nat)
      requires Shape(l, Now())
      ensures r <= l.size && (r < l.size ==> !Bit(l, blocks, r))
      ensures forall x: nat :: x < r ==> Bit(l, blocks, x)
    {
      var b := 0;
      while b < l.size
        invariant b % BPB == 0
        invariant forall x: nat :: x < b && x < l.size ==> Bit(l, blocks, x)
      {
        assert b / BPB <= (l.size - 1) / BPB;
        var bp := blocks[l.BBlock(b)];
        var bi := 0;
        while bi < BPB && b + bi < l.size
          invariant 0 <= bi <= BPB
          invariant forall x: nat :: x < b + bi && x < l.size ==> Bit(l, blocks, x)
        {
          assert (b + bi) / BPB == b / BPB && (b + bi) % BPB == bi;
          if !GetBit(bp, bi) {
            return b + bi;
          }
          bi := bi + 1;
        }
        b := b + BPB;
      }
      r := l.size;
    }

    /** balloc: the first free block, marked and zeroed; 0 if the disk is full. */
    method Balloc(ghost loose: set<nat>) returns (r: uint)
      requires Inv(l, Now(), loose)
      modifies this`blocks, this`logged
      ensures r == 0 ==> blocks == old(blocks) && logged == old(logged) && forall x: nat :: x < l.size ==>
                Bit(l, blocks, x)
      ensures r != 0 ==> r < l.size && !Bit(l, old(blocks), r) && forall x: nat :: x < r ==> Bit(l, old(blocks), x)
      ensures r != 0 ==> l.BBlock(r) in old(blocks) && Now() == Allocated(l, old(Now()), r)
      ensures r != 0 ==> Inv(l, Now(), loose + {r}) && r !in loose && SameContents(old(Now()), Now())
      ensures r != 0 ==> logged == old(logged) + {l.BBlock(r), r}
    {
      var b := FindFree();
      if b == l.size { return 0; }
      AllocKeeps(l, Now(), loose, b);
      AllocContents(l, Now(), loose, b);
      r := b;
      blocks := blocks[l.BBlock(r) := SetBit(blocks[l.BBlock(r)], r % BPB, true)];
      blocks := blocks[r := Zeros()];
      logged := logged + {l.BBlock(r), r};
    }

    /** bfree.  The block is one the caller has already taken from the inodes, whose view is
        `inos`; it is in use, so the panic "freeing free block" cannot happen. */
    method Bfree(b: nat, ghost inos: map<nat, Inode>, ghost loose: set<nat>)
      requires Inv(l, Fs(blocks, inos), loose) && b in loose
      modifies this`blocks, this`logged
      ensures l.BBlock(b) in old(blocks) && Fs(blocks, inos) == Mark(l, Fs(old(blocks), inos), b, false)
      ensures Inv(l, Fs(blocks, inos), loose - {b})
      ensures logged == old(logged) + {l.BBlock(b)}
    {
      FreeKeeps(l, Fs(blocks, inos), loose, b);
      var bp := blocks[l.BBlock(b)];
      assert GetBit(bp, b % BPB);
      blocks := blocks[l.BBlock(b) := SetBit(bp, b % BPB, false)];
      logged := logged + {l.BBlock(b)};
    }

    /** bmap for a direct block.  x is what it logged. */
    method BmapDirect(inum: nat, bn: nat) returns (addr: uint, ghost x: set<nat>)
      requires Valid() && inum in inodes && bn < NDIRECT
      modifies this`blocks, this`inodes, this`logged
      ensures Mapped(l, others, old(Now()), Now())
      ensures addr == Val(Now(), Direct(inum, bn))
      ensures addr == 0 ==> Now() == old(Now()) && forall b: nat :: b < l.size ==> Bit(l, blocks, b)
      ensures logged == old(logged) + x && Cost(x, addr, Val(old(Now()), Direct(inum, bn)) != 0)
      ensures Val(old(Now()), Direct(inum, bn)) != 0 ==> Now() == old(Now())
      ensures inodes[inum].addrs[NDIRECT] == old(inodes[inum].addrs[NDIRECT])
    {
      x := {};
      addr := inodes[inum].addrs[bn];
      if addr == 0 {
        addr := Balloc(others);
        if addr == 0 { return; }
        inodes := inodes[inum := Inode(inodes[inum].addrs[bn := addr], inodes[inum].size)];
        x := {l.BBlock(addr), addr};
        NewDirect(l, others, old(Now()), inum, bn, addr);
      }
    }

    /** bmap's "load indirect block, allocating if necessary".  y is what it logged. */
    method LoadIndirect(inum: nat) returns (addr: uint, ghost y: set<nat>)
      requires Valid() && inum in inodes
      modifies this`blocks, this`inodes, this`logged
      ensures Mapped(l, others, old(Now()), Now())
      ensures addr == inodes[inum].addrs[NDIRECT]
      ensures addr == 0 ==> Now() == old(Now()) && forall b: nat :: b < l.size ==> Bit(l, blocks, b)
      ensures logged == old(logged) + y
      ensures forall j :: Val(Now(), Entry(inum, j)) == Val(old(Now()), Entry(inum, j))
      ensures if old(inodes[inum].addrs[NDIRECT]) != 0 || addr == 0 then y == {} && Now() == old(Now())
              else |y| <= 2 && addr in y
    {
      y := {};
      addr := inodes[inum].addrs[NDIRECT];
      if addr == 0 {
        addr := Balloc(others);
        if addr == 0 { return; }
        inodes := inodes[inum := Inode(inodes[inum].addrs[NDIRECT := addr], inodes[inum].size)];
        y := {l.BBlock(addr), addr};
        NewIndirect(l, others, old(Now()), inum, addr);
      }
    }

    /** bmap for an entry of a loaded indirect block. */
    method MapEntry(inum: nat, j: nat) returns (addr: uint, ghost x: set<nat>, ghost y: set<nat>)
      requires Valid() && inum in inodes && j < NINDIRECT && inodes[inum].addrs[NDIRECT] != 0
      modifies this`blocks, this`logged
      ensures Mapped(l, others, old(Now()), Now())
      ensures addr == Val(Now(), Entry(inum, j))
      ensures addr == 0 ==> Now() == old(Now()) && forall b: nat :: b < l.size ==> Bit(l, blocks, b)
      ensures logged == old(logged) + x + y && Cost(x, addr, Val(old(Now()), Entry(inum, j)) != 0)
      ensures y <= {inodes[inum].addrs[NDIRECT]}
      ensures Val(old(Now()), Entry(inum, j)) != 0 ==> Now() == old(Now()) && y == {}
    {
      x, y := {}, {};
      var ind := inodes[inum].addrs[NDIRECT];
      assert Val(Now(), Indirect(inum)) == ind;
      addr := GetWord(blocks[ind], j);
      assert addr == Val(Now(), Entry(inum, j));
      if addr == 0 {
        addr := Balloc(others);
        if addr != 0 {
          blocks := blocks[ind := SetWord(blocks[ind], j, addr)];
          logged := logged + {ind};
          x, y := {l.BBlock(addr), addr}, {ind};
          NewEntry(l, others, old(Now()), inum, j, addr);
        }
      }
    }

    /** bmap beyond the direct blocks. */
    method BmapIndirect(inum: nat, j: nat) returns (addr: uint, ghost x: set<nat>, ghost y: set<nat>)
      requires Valid() && inum in inodes && j < NINDIRECT
      modifies this`blocks, this`inodes, this`logged
      ensures Mapped(l, others, old(Now()), Now())
      ensures addr == Val(Now(), Entry(inum, j))
      ensures addr == 0 ==> forall b: nat :: b < l.size ==> Bit(l, blocks, b)
      ensures Val(old(Now()), Entry(inum, j)) != 0 ==> Now() == old(Now())
      ensures logged == old(logged) + x + y && Cost(x, addr, Val(old(Now()), Entry(inum, j)) != 0)
      ensures Val(old(Now()), Entry(inum, j)) != 0 ==> y == {}
      ensures IndirectCost(y, old(inodes[inum].addrs[NDIRECT]), inodes[inum].addrs[NDIRECT])
    {
      var ind;
      ghost var y0, y1;
      ind, y0 := LoadIndirect(inum);
      if ind == 0 {
        x, y, addr := {}, y0, 0;
        return;
      }
      ghost var mid := Now();
      addr, x, y1 := MapEntry(inum, j);
      y := if y0 == {} then y1 else y0;
      assert old(logged) + y0 + x + y1 == old(logged) + x + y;
    }

    /** bmap: the block of file block bn, allocated if missing; 0 if the disk is full.
        Contents and owners of all files stay as they were.  x and y account for the log:
        at most two blocks for a new file block, and at most two more, both of them only
        when it is created, for the indirect block. */
    method Bmap(inum: nat, bn: nat) returns (addr: uint, ghost x: set<nat>, ghost y: set<nat>)
      requires Valid() && inum in inodes && bn < MAXFILE
      modifies this`blocks, this`inodes, this`logged
      ensures Mapped(l, others, old(Now()), Now())
      ensures addr == Val(Now(), SlotOf(inum, bn))
      ensures addr == 0 ==> forall b: nat :: b < l.size ==> Bit(l, blocks, b)
      ensures Val(old(Now()), SlotOf(inum, bn)) != 0 ==> Now() == old(Now())
      ensures logged == old(logged) + x + y && Cost(x, addr, Val(old(Now()), SlotOf(inum, bn)) != 0)
      ensures Val(old(Now()), SlotOf(inum, bn)) != 0 ==> y == {}
      ensures IndirectCost(y, old(inodes[inum].addrs[NDIRECT]), inodes[inum].addrs[NDIRECT])
    {
      if bn < NDIRECT {
        addr, x := BmapDirect(inum, bn);
        y := {};
        assert old(logged) + x == old(logged) + x + y;
      } else {
        addr, x, y := BmapIndirect(inum, bn - NDIRECT);
      }
    }
  }

  /** What mapping one file block may log besides the indirect block. */
  ghost predicate Cost(x: set<nat>, addr: nat, present: bool) {
    if present || addr == 0 then x == {} else |x| <= 2 && addr in x
  }

  /** What it may log for the indirect block, whose address was ind and is ind'. */
  ghost predicate IndirectCost(y: set<nat>, ind: nat, ind': nat) {
    if ind != 0 then ind' == ind && y <= {ind} else y == {} || (ind' != 0 && ind' in y && |y| <= 2)
  }

}
