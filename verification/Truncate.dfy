/** itrunc (kernel/fs.c): giving back exactly the blocks of one inode. */
module Truncate {
  import opened Blocks
  import opened Ownership
  import opened FileBlocks

  ghost predicate OwnedBy(fs: Fs, n: nat, b: nat) {
    exists s: Slot :: s.inum == n && Val(fs, s) == b
  }

  /** The first i addresses are zero, the others as in `was`. */
  ghost predicate Emptied(was: seq<uint>, now: seq<uint>, i: nat) {
    && |was| == |now| == NDIRECT + 1
    && forall k :: 0 <= k <= NDIRECT ==> now[k] == if k < i then 0 else was[k]
  }

  /** Slots of other inodes, and what their blocks hold, are untouched. */
  ghost predicate OthersKept(fs: Fs, fs': Fs, n: nat) {
    && (forall s: Slot :: s.inum != n ==> Val(fs', s) == Val(fs, s))
    && (forall m, bn :: m != n ==> Contents(fs', m, bn) == Contents(fs, m, bn))
  }

  lemma MarkKeeps(l: Layout, fs: Fs, loose: set<nat>, b: nat, n: nat)
    requires Inv(l, fs, loose) && b in loose && l.BBlock(b) in fs.blocks
    ensures OthersKept(fs, Mark(l, fs, b, false), n)
    ensures forall s: Slot :: Val(Mark(l, fs, b, false), s) == Val(fs, s)
  {
    FreeKeeps(l, fs, loose, b);
    FreeContents(l, fs, loose, b);
  }

  /** One iteration of itrunc's first loop. */
  method FreeDirect(fs: FileSystem, inum: nat, i: nat)
    requires fs.Valid() && inum in fs.inodes && i < NDIRECT
    modifies fs`blocks, fs`inodes, fs`logged
    ensures fs.Valid() && OthersKept(old(fs.Now()), fs.Now(), inum)
    ensures fs.inodes == old(fs.inodes)[inum := Inode(old(fs.inodes[inum].addrs)[i := 0], old(fs.inodes[inum].size))]
    ensures fs.blocks.Keys == old(fs.blocks.Keys)
  {
    var a := fs.inodes[inum].addrs[i];
    ghost var cut := WithAddr(fs.Now(), inum, i, 0);
    if a != 0 {
      ghost var loose := fs.others + {a};
      assert Val(fs.Now(), Direct(inum, i)) == a;
      DetachDirect(fs.l, fs.Now(), fs.others, inum, i);
      assert loose - {a} == fs.others;
      FreeKeeps(fs.l, cut, loose, a);
      MarkKeeps(fs.l, cut, loose, a, inum);
      fs.Bfree(a, cut.inodes, loose);
      fs.inodes := fs.inodes[inum := Inode(fs.inodes[inum].addrs[i := 0], fs.inodes[inum].size)];
      assert fs.Now() == Mark(fs.l, cut, a, false);
    } else {
      assert old(fs.inodes[inum].addrs)[i := 0] == fs.inodes[inum].addrs;
      assert cut == fs.Now();
    }
  }

  // ----- the indirect block -----

  ghost predicate DistinctEntries(d: Block) {
    forall i, j :: 0 <= i < j < NINDIRECT && GetWord(d, i) != 0 ==> GetWord(d, i) != GetWord(d, j)
  }

  lemma EntriesDistinct(l: Layout, fs: Fs, loose: set<nat>, n: nat)
    requires Inv(l, fs, loose) && n in fs.inodes && fs.inodes[n].addrs[NDIRECT] != 0
    ensures var a := fs.inodes[n].addrs[NDIRECT];
            && a in fs.blocks && DistinctEntries(fs.blocks[a]) && a !in loose
            && loose + {a} !! Entries(fs.blocks[a], NINDIRECT)
  {
    var a := fs.inodes[n].addrs[NDIRECT];
    assert Val(fs, Indirect(n)) == a;
    forall j | 0 <= j < NINDIRECT && GetWord(fs.blocks[a], j) != 0
      ensures GetWord(fs.blocks[a], j) != a && GetWord(fs.blocks[a], j) !in loose
      ensures forall i :: 0 <= i < NINDIRECT && i != j ==> GetWord(fs.blocks[a], i) != GetWord(fs.blocks[a], j)
    {
      assert Val(fs, Entry(n, j)) == GetWord(fs.blocks[a], j);
      forall i | 0 <= i < NINDIRECT && i != j
        ensures GetWord(fs.blocks[a], i) != GetWord(fs.blocks[a], j)
      {
        assert Val(fs, Entry(n, i)) == GetWord(fs.blocks[a], i);
      }
    }
  }

  /** itrunc's loop over the indirect block's entries; `rest` are the other blocks in hand. */
  method FreeEntries(fs: FileSystem, d: Block, ghost inos: map<nat, Inode>, ghost n: nat, ghost rest: set<nat>)
    requires DistinctEntries(d) && rest !! Entries(d, NINDIRECT)
    requires Inv(fs.l, Fs(fs.blocks, inos), rest + Entries(d, NINDIRECT))
    modifies fs`blocks, fs`logged
    ensures Inv(fs.l, Fs(fs.blocks, inos), rest) && OthersKept(Fs(old(fs.blocks), inos), Fs(fs.blocks, inos), n)
    ensures fs.blocks.Keys == old(fs.blocks.Keys)
  {
    var j := 0;
    ghost var all := rest + Entries(d, NINDIRECT);
    assert all - Entries(d, 0) == all;
    while j < NINDIRECT
      invariant 0 <= j <= NINDIRECT
      invariant Inv(fs.l, Fs(fs.blocks, inos), all - Entries(d, j))
      invariant OthersKept(Fs(old(fs.blocks), inos), Fs(fs.blocks, inos), n)
      invariant fs.blocks.Keys == old(fs.blocks.Keys)
    {
      EntriesNext(d, j, rest);
      if GetWord(d, j) != 0 {
        FreeOne(fs, GetWord(d, j), inos, all - Entries(d, j), n, Fs(old(fs.blocks), inos));
      }
      j := j + 1;
    }
    assert all - Entries(d, NINDIRECT) == rest;
  }

  lemma EntriesNext(d: Block, j: nat, rest: set<nat>)
    requires j < NINDIRECT && DistinctEntries(d) && rest !! Entries(d, NINDIRECT)
    ensures var all := rest + Entries(d, NINDIRECT);
            if GetWord(d, j) == 0 then all - Entries(d, j + 1) == all - Entries(d, j)
            else
              && GetWord(d, j) in all - Entries(d, j)
              && all - Entries(d, j) - {GetWord(d, j)} == all - Entries(d, j + 1)
  {
    assert Entries(d, j + 1) == if GetWord(d, j) == 0 then Entries(d, j) else Entries(d, j) + {GetWord(d, j)};
  }

  method FreeOne(fs: FileSystem, b: nat, ghost inos: map<nat, Inode>, ghost loose: set<nat>, ghost n: nat,
                 ghost was: Fs)
    requires Inv(fs.l, Fs(fs.blocks, inos), loose) && b in loose && OthersKept(was, Fs(fs.blocks, inos), n)
    modifies fs`blocks, fs`logged
    ensures Inv(fs.l, Fs(fs.blocks, inos), loose - {b}) && OthersKept(was, Fs(fs.blocks, inos), n)
    ensures fs.blocks.Keys == old(fs.blocks.Keys)
  {
    ghost var mid := Fs(fs.blocks, inos);
    FreeKeeps(fs.l, mid, loose, b);
    MarkKeeps(fs.l, mid, loose, b, n);
    fs.Bfree(b, inos, loose);
  }

  /** itrunc's second half: the entries, then the indirect block itself. */
  method FreeIndirect(fs: FileSystem, inum: nat)
    requires fs.Valid() && inum in fs.inodes && fs.inodes[inum].addrs[NDIRECT] != 0
    modifies fs`blocks, fs`inodes, fs`logged
    ensures fs.Valid() && OthersKept(old(fs.Now()), fs.Now(), inum)
    ensures fs.inodes == old(fs.inodes)[inum := Inode(old(fs.inodes[inum].addrs)[NDIRECT := 0],
            old(fs.inodes[inum].size))]
    ensures fs.blocks.Keys == old(fs.blocks.Keys)
  {
    var a := fs.inodes[inum].addrs[NDIRECT];
    EntriesDistinct(fs.l, fs.Now(), fs.others, inum);
    DetachIndirect(fs.l, fs.Now(), fs.others, inum);
    ghost var cut := WithAddr(fs.Now(), inum, NDIRECT, 0);
    ghost var rest := fs.others + {a};
    var d := fs.blocks[a];
    FreeEntries(fs, d, cut.inodes, inum, rest);
    FreeOne(fs, a, cut.inodes, rest, inum, old(fs.Now()));
    assert rest - {a} == fs.others;
    fs.inodes := fs.inodes[inum := Inode(fs.inodes[inum].addrs[NDIRECT := 0], fs.inodes[inum].size)];
  }

  /** itrunc's first loop. */
  method FreeDirects(fs: FileSystem, inum: nat)
    requires fs.Valid() && inum in fs.inodes
    modifies fs`blocks, fs`inodes, fs`logged
    ensures fs.Valid() && OthersKept(old(fs.Now()), fs.Now(), inum)
    ensures fs.inodes.Keys == old(fs.inodes.Keys) && Emptied(old(fs.inodes[inum].addrs), fs.inodes[inum].addrs, NDIRECT)
    ensures fs.inodes == old(fs.inodes)[inum := fs.inodes[inum]]
  {
    var i := 0;
    while i < NDIRECT
      invariant 0 <= i <= NDIRECT && fs.Valid() && fs.inodes.Keys == old(fs.inodes.Keys)
      invariant Emptied(old(fs.inodes[inum].addrs), fs.inodes[inum].addrs, i)
      invariant OthersKept(old(fs.Now()), fs.Now(), inum)
      invariant fs.inodes == old(fs.inodes)[inum := fs.inodes[inum]]
    {
      ghost var mid := fs.Now();
      FreeDirect(fs, inum, i);
      i := i + 1;
    }
  }

  /** itrunc up to the last assignment of the size. */
  method FreeAll(fs: FileSystem, inum: nat)
    requires fs.Valid() && inum in fs.inodes
    modifies fs`blocks, fs`inodes, fs`logged
    ensures fs.Valid() && OthersKept(old(fs.Now()), fs.Now(), inum)
    ensures inum in fs.inodes && fs.inodes == old(fs.inodes)[inum := fs.inodes[inum]]
    ensures Emptied(old(fs.inodes[inum].addrs), fs.inodes[inum].addrs, NDIRECT + 1)
  {
    FreeDirects(fs, inum);
    if fs.inodes[inum].addrs[NDIRECT] != 0 {
      ghost var mid := fs.Now();
      FreeIndirect(fs, inum);
    }
  }

  /** itrunc: the inode ends up empty, other files are untouched, and the blocks that become
      free are exactly those the inode owned. */
  method Itrunc(fs: FileSystem, inum: nat)
    requires fs.Valid() && inum in fs.inodes
    modifies fs`blocks, fs`inodes, fs`logged
    ensures fs.Valid() && OthersKept(old(fs.Now()), fs.Now(), inum)
    ensures fs.inodes == old(fs.inodes)[inum := Inode(seq(NDIRECT + 1, _ => 0), 0)]
    ensures forall b :: fs.l.Data(b) ==>
              (Bit(fs.l, fs.blocks, b) <==> Bit(fs.l, old(fs.blocks), b) && !OwnedBy(old(fs.Now()), inum, b))
    ensures fs.l.IBlock(inum) in fs.logged
  {
    FreeAll(fs, inum);
    ghost var last := fs.Now();
    assert fs.inodes[inum].addrs == seq(NDIRECT + 1, _ => 0);
    fs.inodes := fs.inodes[inum := Inode(fs.inodes[inum].addrs, 0)];
    Finished(fs.l, fs.others, old(fs.Now()), last, fs.Now(), inum);
    fs.logged := fs.logged + {fs.l.IBlock(inum)};
  }

  lemma Finished(l: Layout, loose: set<nat>, fs: Fs, last: Fs, fs': Fs, n: nat)
    requires Inv(l, fs, loose) && Inv(l, last, loose) && OthersKept(fs, last, n)
    requires n in last.inodes && last.inodes[n].addrs == seq(NDIRECT + 1, _ => 0)
    requires fs'.blocks == last.blocks && fs'.inodes == last.inodes[n := Inode(last.inodes[n].addrs, 0)]
    ensures Inv(l, fs', loose) && OthersKept(fs, fs', n)
    ensures forall b :: l.Data(b) ==> (Bit(l, fs'.blocks, b) <==> Bit(l, fs.blocks, b) && !OwnedBy(fs, n, b))
  {
    SizeIsNotOwnership(l, loose, last, fs', n);
    FreedExactly(l, loose, fs, fs', n);
  }

  lemma SizeIsNotOwnership(l: Layout, loose: set<nat>, fs: Fs, fs': Fs, n: nat)
    requires Inv(l, fs, loose) && n in fs.inodes
    requires fs'.blocks == fs.blocks && exists sz :: fs'.inodes == fs.inodes[n := Inode(fs.inodes[n].addrs, sz)]
    ensures Inv(l, fs', loose) && OthersKept(fs, fs', n) && (forall s: Slot :: Val(fs', s) == Val(fs, s))
  {
    assert forall s: Slot :: Val(fs', s) == Val(fs, s);
    forall b: nat
      ensures Owned(fs', b) == Owned(fs, b)
    {
      if Owned(fs', b) { var s: Slot :| Val(fs', s) == b; assert Val(fs, s) == b; }
      if Owned(fs, b) { var s: Slot :| Val(fs, s) == b; assert Val(fs', s) == b; }
    }
  }

  lemma FreedExactly(l: Layout, loose: set<nat>, fs: Fs, fs': Fs, n: nat)
    requires Inv(l, fs, loose) && Inv(l, fs', loose) && OthersKept(fs, fs', n)
    requires n in fs'.inodes && fs'.inodes[n].addrs == seq(NDIRECT + 1, _ => 0)
    ensures forall b :: l.Data(b) ==> (Bit(l, fs'.blocks, b) <==> Bit(l, fs.blocks, b) && !OwnedBy(fs, n, b))
  {
    assert forall s: Slot :: s.inum == n ==> Val(fs', s) == 0;
    forall b | l.Data(b)
      ensures Owned(fs', b) <==> Owned(fs, b) && !OwnedBy(fs, n, b)
    {
      if Owned(fs', b) { var s: Slot :| Val(fs', s) == b; assert Val(fs, s) == b; }
      if Owned(fs, b) && !OwnedBy(fs, n, b) { var s: Slot :| Val(fs, s) == b; assert Val(fs', s) == b; }
    }
  }
}
