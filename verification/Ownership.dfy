/** Who owns each data block (kernel/fs.c, blocks and inode content).

    A slot is a place that can name a block: a direct address, the indirect pointer, or
    an entry of the indirect block.  The invariant says that bitmap bits and slots agree:
    a data block is marked used exactly when one slot, and only one, names it, or when it
    is `loose`, i.e. in the hands of a procedure between allocating and storing it. */
module Ownership {
  import opened Blocks
  import opened Bitmap

  const NDIRECT := 12
  const NINDIRECT := 256
  const MAXFILE := 268
  const IPB := 16

  datatype Inode = Inode(addrs: seq<uint>, size: nat)

  /** The superblock: blocks below nmeta are metadata, the rest are data. */
  datatype Layout = Layout(size: nat, bmapstart: nat, inodestart: nat, nmeta: nat) {
    ghost predicate Wf() {
      0 < nmeta <= size < 0x1_0000_0000 && bmapstart + (size - 1) / BPB < nmeta
    }
    ghost predicate Data(b: int) { nmeta <= b < size }
    function BBlock(b: nat): nat { b / BPB + bmapstart }
    function IBlock(inum: nat): nat { inum / IPB + inodestart }
  }

  datatype Fs = Fs(blocks: map<nat, Block>, inodes: map<nat, Inode>)

  datatype Slot =
    | Direct(inum: nat, i: nat)
    | Indirect(inum: nat)
    | Entry(inum: nat, j: nat)

  /** The block a slot names; 0 for none. */
  ghost function Val(fs: Fs, s: Slot): nat {
    if s.inum !in fs.inodes || |fs.inodes[s.inum].addrs| != NDIRECT + 1 then 0 else
    var addrs := fs.inodes[s.inum].addrs;
    match s
    case Direct(_, i) => if i < NDIRECT then addrs[i] else 0
    case Indirect(_) => addrs[NDIRECT]
    case Entry(_, j) =>
      if j < NINDIRECT && addrs[NDIRECT] != 0 && addrs[NDIRECT] in fs.blocks
      then GetWord(fs.blocks[addrs[NDIRECT]], j) else 0
  }

  ghost predicate Owned(fs: Fs, b: nat) { exists s: Slot :: Val(fs, s) == b }

  ghost predicate Bit(l: Layout, blocks: map<nat, Block>, b: nat) {
    l.BBlock(b) in blocks && GetBit(blocks[l.BBlock(b)], b % BPB)
  }

  ghost predicate Shape(l: Layout, fs: Fs) {
    && l.Wf()
    && (forall b: nat :: b < l.size ==> b in fs.blocks)
    && (forall n :: n in fs.inodes ==> |fs.inodes[n].addrs| == NDIRECT + 1)
  }

  ghost predicate Inv(l: Layout, fs: Fs, loose: set<nat>) {
    && Shape(l, fs)
    && (forall s: Slot :: Val(fs, s) != 0 ==> l.Data(Val(fs, s)) && Val(fs, s) !in loose)
    && (forall s: Slot, t: Slot :: Val(fs, s) == Val(fs, t) && Val(fs, s) != 0 ==> s == t)
    && (forall b: nat :: l.Data(b) ==> (Bit(l, fs.blocks, b) <==> b in loose || Owned(fs, b)))
    && (forall b: nat :: b < l.nmeta ==> Bit(l, fs.blocks, b))
    && (forall b :: b in loose ==> l.Data(b))
  }

  // ----- allocating and freeing -----

  /** A bitmap block changed in one bit. */
  ghost function Mark(l: Layout, fs: Fs, b: nat, v: bool): Fs
    requires l.BBlock(b) in fs.blocks
  {
    fs.(blocks := fs.blocks[l.BBlock(b) := SetBit(fs.blocks[l.BBlock(b)], b % BPB, v)])
  }

  /** The state after balloc has taken block b. */
  ghost function Allocated(l: Layout, fs: Fs, b: nat): Fs
    requires l.BBlock(b) in fs.blocks
  {
    Fs(Mark(l, fs, b, true).blocks[b := Zeros()], fs.inodes)
  }

  lemma MarkBits(l: Layout, fs: Fs, b: nat, v: bool)
    requires Shape(l, fs) && b < l.size
    ensures l.BBlock(b) < l.nmeta && Shape(l, Mark(l, fs, b, v))
    ensures forall x: nat :: x < l.size ==>
              Bit(l, Mark(l, fs, b, v).blocks, x) == if x == b then v else Bit(l, fs.blocks, x)
  {
    assert b / BPB <= (l.size - 1) / BPB;
    forall x: nat | x < l.size
      ensures Bit(l, Mark(l, fs, b, v).blocks, x) == if x == b then v else Bit(l, fs.blocks, x)
    {
      assert x / BPB <= (l.size - 1) / BPB;
      if x / BPB == b / BPB && x % BPB == b % BPB { assert x == b; }
    }
  }

  /** Blocks that no slot looks into may change freely. */
  lemma SameSlots(fs: Fs, blocks': map<nat, Block>)
    requires fs.blocks.Keys <= blocks'.Keys
    requires forall n :: n in fs.inodes && |fs.inodes[n].addrs| == NDIRECT + 1 ==>
               var a := fs.inodes[n].addrs[NDIRECT];
               a != 0 ==> a in fs.blocks && blocks'[a] == fs.blocks[a]
    ensures forall s: Slot :: Val(fs.(blocks := blocks'), s) == Val(fs, s)
    ensures forall b: nat :: Owned(fs.(blocks := blocks'), b) == Owned(fs, b)
  {
    var fs' := fs.(blocks := blocks');
    assert forall s: Slot :: Val(fs', s) == Val(fs, s);
    forall b: nat
      ensures Owned(fs', b) == Owned(fs, b)
    {
      if Owned(fs', b) { var s: Slot :| Val(fs', s) == b; assert Val(fs, s) == b; }
      if Owned(fs, b) { var s: Slot :| Val(fs, s) == b; assert Val(fs', s) == b; }
    }
  }

  /** balloc: mark a free block and zero it; the caller then holds it loose. */
  lemma AllocKeeps(l: Layout, fs: Fs, loose: set<nat>, b: nat)
    requires Inv(l, fs, loose) && b < l.size && !Bit(l, fs.blocks, b)
    ensures l.Data(b) && b !in loose && l.BBlock(b) in fs.blocks
    ensures Inv(l, Allocated(l, fs, b), loose + {b})
    ensures forall s: Slot :: Val(fs, s) != b && Val(Allocated(l, fs, b), s) == Val(fs, s)
  {
    MarkBits(l, fs, b, true);
    var m := Mark(l, fs, b, true).blocks;
    var blocks' := m[b := Zeros()];
    forall n | n in fs.inodes && |fs.inodes[n].addrs| == NDIRECT + 1
      ensures var a := fs.inodes[n].addrs[NDIRECT]; a != 0 ==> a in fs.blocks && blocks'[a] == fs.blocks[a]
    {
      assert Val(fs, Indirect(n)) == fs.inodes[n].addrs[NDIRECT];
    }
    SameSlots(fs, blocks');
    assert forall x: nat :: x < l.size ==> Bit(l, blocks', x) == Bit(l, m, x);
    assert forall s: Slot :: Val(fs, s) == b ==> Owned(fs, b);
  }

  /** bfree: a loose block goes back to the bitmap. */
  lemma FreeKeeps(l: Layout, fs: Fs, loose: set<nat>, b: nat)
    requires Inv(l, fs, loose) && b in loose
    ensures Bit(l, fs.blocks, b) && l.BBlock(b) in fs.blocks
    ensures Inv(l, Mark(l, fs, b, false), loose - {b})
    ensures forall s: Slot :: Val(Mark(l, fs, b, false), s) == Val(fs, s)
  {
    MarkBits(l, fs, b, false);
    var blocks' := Mark(l, fs, b, false).blocks;
    forall n | n in fs.inodes && |fs.inodes[n].addrs| == NDIRECT + 1
      ensures var a := fs.inodes[n].addrs[NDIRECT]; a != 0 ==> a in fs.blocks && blocks'[a] == fs.blocks[a]
    {
      assert Val(fs, Indirect(n)) == fs.inodes[n].addrs[NDIRECT];
    }
    SameSlots(fs, blocks');
  }

  // ----- storing a block in a slot, and clearing slots -----

  ghost predicate SameBits(l: Layout, fs: Fs, fs': Fs) {
    forall b: nat :: b < l.size ==> Bit(l, fs'.blocks, b) == Bit(l, fs.blocks, b)
  }

  /** A loose block stored in an empty slot is owned by it. */
  lemma StoreKeeps(l: Layout, fs: Fs, fs': Fs, loose: set<nat>, t: Slot, b: nat)
    requires Inv(l, fs, loose) && Shape(l, fs') && SameBits(l, fs, fs') && b in loose
    requires Val(fs, t) == 0 && Val(fs', t) == b
    requires forall s: Slot :: s != t ==> Val(fs', s) == Val(fs, s)
    ensures Inv(l, fs', loose - {b})
  {
    forall x: nat | l.Data(x)
      ensures Bit(l, fs'.blocks, x) <==> x in loose - {b} || Owned(fs', x)
    {
      if Owned(fs', x) { var s: Slot :| Val(fs', s) == x; assert s != t ==> Val(fs, s) == x; }
      if Owned(fs, x) { var s: Slot :| Val(fs, s) == x; assert Val(fs', s) == x; }
    }
  }

  /** Slots that are emptied leave their blocks loose. */
  lemma ClearKeeps(l: Layout, fs: Fs, fs': Fs, loose: set<nat>, dropped: set<nat>)
    requires Inv(l, fs, loose) && Shape(l, fs') && SameBits(l, fs, fs')
    requires forall s: Slot :: Val(fs, s) in dropped && Val(fs, s) != 0 ==> Val(fs', s) == 0
    requires forall s: Slot :: Val(fs, s) !in dropped ==> Val(fs', s) == Val(fs, s)
    requires forall b :: b in dropped ==> b != 0 && Owned(fs, b)
    ensures Inv(l, fs', loose + dropped)
  {
    assert forall s: Slot :: Val(fs', s) != 0 ==> Val(fs', s) == Val(fs, s);
    forall b | b in dropped
      ensures l.Data(b)
    {
      var s: Slot :| Val(fs, s) == b;
    }
    forall x: nat | l.Data(x)
      ensures Bit(l, fs'.blocks, x) <==> x in loose + dropped || Owned(fs', x)
    {
      if Owned(fs', x) { var s: Slot :| Val(fs', s) == x; assert Val(fs, s) == x; }
      if Owned(fs, x) && x !in dropped { var s: Slot :| Val(fs, s) == x; assert Val(fs', s) == x; }
    }
  }

  // ----- file contents -----

  ghost function SlotOf(inum: nat, bn: nat): Slot {
    if bn < NDIRECT then Direct(inum, bn) else Entry(inum, bn - NDIRECT)
  }

  /** Block bn of a file; a block never allocated reads as zeros. */
  ghost function Contents(fs: Fs, inum: nat, bn: nat): Block {
    if Val(fs, SlotOf(inum, bn)) == 0 || Val(fs, SlotOf(inum, bn)) !in fs.blocks then Zeros()
    else fs.blocks[Val(fs, SlotOf(inum, bn))]
  }

  ghost predicate SameContents(fs: Fs, fs': Fs) {
    forall inum, bn :: Contents(fs', inum, bn) == Contents(fs, inum, bn)
  }

  /** Inode n with address i replaced. */
  ghost function WithAddr(fs: Fs, n: nat, i: nat, b: uint): Fs
    requires n in fs.inodes && i < |fs.inodes[n].addrs|
  {
    Fs(fs.blocks, fs.inodes[n := Inode(fs.inodes[n].addrs[i := b], fs.inodes[n].size)])
  }

  /** The indirect block of inode n with entry j replaced. */
  ghost function WithEntry(fs: Fs, n: nat, j: nat, b: uint): Fs
    requires n in fs.inodes && |fs.inodes[n].addrs| == NDIRECT + 1 && j < NINDIRECT
    requires fs.inodes[n].addrs[NDIRECT] in fs.blocks
  {
    Fs(fs.blocks[fs.inodes[n].addrs[NDIRECT] := SetWord(fs.blocks[fs.inodes[n].addrs[NDIRECT]], j, b)], fs.inodes)
  }

  /** bmap storing a fresh zero block in a direct address. */
  lemma AttachDirect(l: Layout, fs: Fs, loose: set<nat>, n: nat, i: nat, b: uint)
    requires Inv(l, fs, loose) && n in fs.inodes && i < NDIRECT && fs.inodes[n].addrs[i] == 0
    requires b in loose && fs.blocks[b] == Zeros()
    ensures Inv(l, WithAddr(fs, n, i, b), loose - {b}) && SameContents(fs, WithAddr(fs, n, i, b))
  {
    StoreKeeps(l, fs, WithAddr(fs, n, i, b), loose, Direct(n, i), b);
  }

  /** bmap storing a fresh zero block as the indirect block. */
  lemma AttachIndirect(l: Layout, fs: Fs, loose: set<nat>, n: nat, b: uint)
    requires Inv(l, fs, loose) && n in fs.inodes && fs.inodes[n].addrs[NDIRECT] == 0
    requires b in loose && fs.blocks[b] == Zeros()
    ensures Inv(l, WithAddr(fs, n, NDIRECT, b), loose - {b}) && SameContents(fs, WithAddr(fs, n, NDIRECT, b))
    ensures forall j :: Val(WithAddr(fs, n, NDIRECT, b), Entry(n, j)) == 0
  {
    assert forall j: nat :: j < NINDIRECT ==> GetWord(Zeros(), j) == 0;
    StoreKeeps(l, fs, WithAddr(fs, n, NDIRECT, b), loose, Indirect(n), b);
  }

  /** bmap storing a fresh zero block in an entry of the indirect block. */
  lemma AttachEntry(l: Layout, fs: Fs, loose: set<nat>, n: nat, j: nat, b: uint)
    requires Inv(l, fs, loose) && n in fs.inodes && j < NINDIRECT
    requires fs.inodes[n].addrs[NDIRECT] != 0 && Val(fs, Entry(n, j)) == 0
    requires b in loose && fs.blocks[b] == Zeros()
    ensures Val(fs, Indirect(n)) in fs.blocks
    ensures Inv(l, WithEntry(fs, n, j, b), loose - {b}) && SameContents(fs, WithEntry(fs, n, j, b))
  {
    var a := Val(fs, Indirect(n));
    assert l.Data(a);
    var fs' := WithEntry(fs, n, j, b);
    forall s: Slot | s != Entry(n, j)
      ensures Val(fs', s) == Val(fs, s)
    {
      if s.Entry? && s.j < NINDIRECT && s.inum in fs.inodes {
        if s.inum == n {
          SetThenGet(fs.blocks[a], j, b, s.j);
        } else {
          assert Val(fs, Indirect(s.inum)) == a ==> a == 0;
        }
      }
    }
    SetThenGet(fs.blocks[a], j, b, j);
    forall x: nat | x < l.size
      ensures Bit(l, fs'.blocks, x) == Bit(l, fs.blocks, x)
    {
      assert x / BPB <= (l.size - 1) / BPB;
    }
    StoreKeeps(l, fs, fs', loose, Entry(n, j), b);
    forall inum, bn
      ensures Contents(fs', inum, bn) == Contents(fs, inum, bn)
    {
      assert Val(fs, SlotOf(inum, bn)) != a;
    }
  }

  /** Allocating and freeing change no file. */
  lemma AllocContents(l: Layout, fs: Fs, loose: set<nat>, b: nat)
    requires Inv(l, fs, loose) && b < l.size && !Bit(l, fs.blocks, b) && l.BBlock(b) in fs.blocks
    ensures SameContents(fs, Allocated(l, fs, b))
  {
    AllocKeeps(l, fs, loose, b);
    MarkBits(l, fs, b, true);
    var fs' := Allocated(l, fs, b);
    forall inum, bn
      ensures Contents(fs', inum, bn) == Contents(fs, inum, bn)
    {
      var s := SlotOf(inum, bn);
      assert Val(fs', s) == Val(fs, s) && Val(fs, s) != b;
    }
  }

  lemma FreeContents(l: Layout, fs: Fs, loose: set<nat>, b: nat)
    requires Inv(l, fs, loose) && b in loose && l.BBlock(b) in fs.blocks
    ensures SameContents(fs, Mark(l, fs, b, false))
  {
    FreeKeeps(l, fs, loose, b);
    MarkBits(l, fs, b, false);
    var fs' := Mark(l, fs, b, false);
    forall inum, bn
      ensures Contents(fs', inum, bn) == Contents(fs, inum, bn)
    {
      var s := SlotOf(inum, bn);
      assert Val(fs', s) == Val(fs, s);
    }
  }

  /** Writing the data block of one file block changes that block of that file only. */
  lemma DataWrite(l: Layout, fs: Fs, loose: set<nat>, n: nat, bn: nat, d: Block)
    requires Inv(l, fs, loose) && Val(fs, SlotOf(n, bn)) != 0
    ensures var fs' := Fs(fs.blocks[Val(fs, SlotOf(n, bn)) := d], fs.inodes);
            && Inv(l, fs', loose)
            && (forall s: Slot :: Val(fs', s) == Val(fs, s))
            && (forall m, k :: Contents(fs', m, k) == if m == n && k == bn then d else Contents(fs, m, k))
  {
    var a := Val(fs, SlotOf(n, bn));
    var fs' := Fs(fs.blocks[a := d], fs.inodes);
    forall m | m in fs.inodes && |fs.inodes[m].addrs| == NDIRECT + 1
      ensures var i := fs.inodes[m].addrs[NDIRECT]; i != 0 ==> i in fs.blocks && fs'.blocks[i] == fs.blocks[i]
    {
      assert Val(fs, Indirect(m)) == fs.inodes[m].addrs[NDIRECT];
    }
    SameSlots(fs, fs'.blocks);
    forall x: nat | x < l.size
      ensures Bit(l, fs'.blocks, x) == Bit(l, fs.blocks, x)
    {
      assert x / BPB <= (l.size - 1) / BPB;
    }
    forall m, k
      ensures Contents(fs', m, k) == if m == n && k == bn then d else Contents(fs, m, k)
    {
      var s := SlotOf(m, k);
      assert Val(fs', s) == Val(fs, s);
      if Val(fs, s) == a { assert s == SlotOf(n, bn); }
    }
  }

  // ----- taking blocks from an inode -----

  lemma DetachDirect(l: Layout, fs: Fs, loose: set<nat>, n: nat, i: nat)
    requires Inv(l, fs, loose) && n in fs.inodes && i < NDIRECT && fs.inodes[n].addrs[i] != 0
    ensures Inv(l, WithAddr(fs, n, i, 0), loose + {fs.inodes[n].addrs[i]})
  {
    var a := fs.inodes[n].addrs[i];
    assert Val(fs, Direct(n, i)) == a;
    ClearKeeps(l, fs, WithAddr(fs, n, i, 0), loose, {a});
  }

  /** The first k entries of a block of pointers, zeros left out. */
  ghost function Entries(d: Block, k: nat): set<nat>
    requires k <= NINDIRECT
  {
    set j | 0 <= j < k && GetWord(d, j) != 0 :: GetWord(d, j)
  }

  lemma DetachIndirect(l: Layout, fs: Fs, loose: set<nat>, n: nat)
    requires Inv(l, fs, loose) && n in fs.inodes && fs.inodes[n].addrs[NDIRECT] != 0
    ensures fs.inodes[n].addrs[NDIRECT] in fs.blocks
    ensures var a := fs.inodes[n].addrs[NDIRECT];
            Inv(l, WithAddr(fs, n, NDIRECT, 0), loose + {a} + Entries(fs.blocks[a], NINDIRECT))
  {
    var a := fs.inodes[n].addrs[NDIRECT];
    assert Val(fs, Indirect(n)) == a;
    var es := Entries(fs.blocks[a], NINDIRECT);
    forall b | b in es
      ensures b != 0 && Owned(fs, b)
    {
      var j :| 0 <= j < NINDIRECT && GetWord(fs.blocks[a], j) == b;
      assert Val(fs, Entry(n, j)) == b;
    }
    var fs' := WithAddr(fs, n, NDIRECT, 0);
    forall s: Slot
      ensures if Val(fs, s) in {a} + es && Val(fs, s) != 0 then Val(fs', s) == 0 else Val(fs', s) == Val(fs, s)
    {
      if Val(fs, s) in es {
        var j :| 0 <= j < NINDIRECT && GetWord(fs.blocks[a], j) == Val(fs, s) && Val(fs, s) != 0;
        assert Val(fs, Entry(n, j)) == Val(fs, s);
      }
      if s.Entry? && s.inum == n && Val(fs, s) != 0 { assert Val(fs, s) in es; }
    }
    ClearKeeps(l, fs, fs', loose, {a} + es);
    assert loose + ({a} + es) == loose + {a} + es;
  }
}
