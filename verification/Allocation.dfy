/** Processes allocating, storing, truncating and writing at the same time (kernel/fs.c).

    Inode locks are held across steps; the bitmap is protected only by its buffers' locks, so
    between finding an empty slot, taking a block, zeroing it and storing it other processes
    take and give back blocks of their own.  Steps interleave freely. */
module Allocation {
  import opened Blocks
  import opened Bitmap
  import opened Ownership

  type Pid = nat

  /** Where a process is in bmap or itrunc. */
  datatype Pc =
    | Idle
    | Wants(t: Slot)               // bmap: has seen that slot t is empty
    | Took(t: Slot, b: uint)       // balloc: has set the bit of b
    | Zeroed(t: Slot, b: uint)     // balloc: has zeroed b too
    | Freeing(bs: set<nat>)        // itrunc: has emptied the slots of these blocks

  datatype State = State(fs: Fs, locks: map<nat, Pid>, pcs: map<Pid, Pc>)

  datatype Step =
    | Lock(p: Pid, n: nat)             // ilock
    | Unlock(p: Pid, n: nat)           // iunlock
    | Look(p: Pid, t: Slot)            // bmap finds slot t empty
    | NoSpace(p: Pid)                  // balloc finds no clear bit
    | Take(p: Pid, b: uint)            // balloc sets a clear bit
    | Zero(p: Pid)                     // bzero
    | Store(p: Pid)                    // bmap records the block
    | DropDirect(p: Pid, n: nat, i: nat)  // itrunc empties a direct address
    | DropIndirect(p: Pid, n: nat)     // itrunc empties the indirect pointer
    | Give(p: Pid, x: nat)             // bfree clears a bit
    | Write(p: Pid, n: nat, bn: nat, d: Block)  // writei changes a block of a file
    | Resize(p: Pid, n: nat, size: nat) // writei or itrunc records the size

  ghost function At(s: State, p: Pid): Pc { if p in s.pcs then s.pcs[p] else Idle }

  ghost predicate Holds(s: State, p: Pid, n: nat) { n in s.locks && s.locks[n] == p && n in s.fs.inodes }

  /** A place where bmap stores blocks. */
  ghost predicate Storable(fs: Fs, t: Slot) {
    && t.inum in fs.inodes && |fs.inodes[t.inum].addrs| == NDIRECT + 1
    && (t.Direct? ==> t.i < NDIRECT)
    && (t.Entry? ==>
          t.j < NINDIRECT && fs.inodes[t.inum].addrs[NDIRECT] != 0 && fs.inodes[t.inum].addrs[NDIRECT] in fs.blocks)
  }

  ghost function Stored(fs: Fs, t: Slot, b: uint): Fs
    requires Storable(fs, t)
  {
    match t
    case Direct(n, i) => WithAddr(fs, n, i, b)
    case Indirect(n) => WithAddr(fs, n, NDIRECT, b)
    case Entry(n, j) => WithEntry(fs, n, j, b)
  }

  ghost predicate Enabled(l: Layout, s: State, step: Step) {
    var pc := At(s, step.p);
    match step
    case Lock(p, n) => n !in s.locks && n in s.fs.inodes
    case Unlock(p, n) => Holds(s, p, n) && pc.Idle?
    case Look(p, t) => Holds(s, p, t.inum) && pc.Idle? && Storable(s.fs, t) && Val(s.fs, t) == 0
    case NoSpace(p) => pc.Wants?
    case Take(p, b) => pc.Wants? && b < l.size && l.BBlock(b) in s.fs.blocks && !Bit(l, s.fs.blocks, b)
    case Zero(p) => pc.Took?
    case Store(p) => pc.Zeroed? && Storable(s.fs, pc.t)
    case DropDirect(p, n, i) => Holds(s, p, n) && pc.Idle? && i < NDIRECT && Val(s.fs, Direct(n, i)) != 0
    case DropIndirect(p, n) => Holds(s, p, n) && pc.Idle? && Val(s.fs, Indirect(n)) != 0
    case Give(p, x) => pc.Freeing? && x in pc.bs && l.BBlock(x) in s.fs.blocks
    case Write(p, n, bn, d) => Holds(s, p, n) && pc.Idle? && Val(s.fs, SlotOf(n, bn)) != 0
    case Resize(p, n, size) => Holds(s, p, n)
  }

  ghost function Put(s: State, fs: Fs, p: Pid, pc: Pc): State { State(fs, s.locks, s.pcs[p := pc]) }

  /** The blocks a truncation of the indirect pointer takes from inode n. */
  ghost function Tree(fs: Fs, n: nat): set<nat> {
    var a := Val(fs, Indirect(n));
    {a} + if a in fs.blocks then Entries(fs.blocks[a], NINDIRECT) else {}
  }

  ghost function Do(l: Layout, s: State, step: Step): State
    requires Shape(l, s.fs) && Enabled(l, s, step)
  {
    var fs, pc := s.fs, At(s, step.p);
    match step
    case Lock(p, n) => State(fs, s.locks[n := p], s.pcs)
    case Unlock(p, n) => State(fs, s.locks - {n}, s.pcs)
    case Look(p, t) => Put(s, fs, p, Wants(t))
    case NoSpace(p) => Put(s, fs, p, Idle)
    case Take(p, b) => Put(s, Mark(l, fs, b, true), p, Took(pc.t, b))
    case Zero(p) => Put(s, Fs(fs.blocks[pc.b := Zeros()], fs.inodes), p, Zeroed(pc.t, pc.b))
    case Store(p) => Put(s, Stored(fs, pc.t, pc.b), p, Idle)
    case DropDirect(p, n, i) => Put(s, WithAddr(fs, n, i, 0), p, Freeing({Val(fs, Direct(n, i))}))
    case DropIndirect(p, n) => Put(s, WithAddr(fs, n, NDIRECT, 0), p, Freeing(Tree(fs, n)))
    case Give(p, x) => Put(s, Mark(l, fs, x, false), p, if pc.bs == {x} then Idle else Freeing(pc.bs - {x}))
    case Write(p, n, bn, d) => State(Fs(fs.blocks[Val(fs, SlotOf(n, bn)) := d], fs.inodes), s.locks, s.pcs)
    case Resize(p, n, size) => State(Fs(fs.blocks, fs.inodes[n := Inode(fs.inodes[n].addrs, size)]), s.locks, s.pcs)
  }

  // ----- the invariant -----

  /** The blocks in a process's hands. */
  ghost function Hand(pc: Pc): set<nat> {
    match pc
    case Took(_, b) => {b}
    case Zeroed(_, b) => {b}
    case Freeing(bs) => bs
    case _ => {}
  }

  ghost function Loose(pcs: map<Pid, Pc>): set<nat> { set p, b | p in pcs && b in Hand(pcs[p]) :: b }

  ghost predicate Apart(pcs: map<Pid, Pc>) {
    forall p, q :: p in pcs && q in pcs && p != q ==> Hand(pcs[p]) !! Hand(pcs[q])
  }

  /** A process in bmap has its inode locked, and the slot it fills is still empty. */
  ghost predicate PcOk(s: State, p: Pid) {
    var pc := At(s, p);
    && (pc.Wants? || pc.Took? || pc.Zeroed? ==> Holds(s, p, pc.t.inum) && Storable(s.fs, pc.t) && Val(s.fs, pc.t) == 0)
    && (pc.Zeroed? ==> pc.b in s.fs.blocks && s.fs.blocks[pc.b] == Zeros())
    && (pc.Freeing? ==> pc.bs != {})
  }

  ghost predicate AllOk(l: Layout, s: State) {
    Inv(l, s.fs, Loose(s.pcs)) && Apart(s.pcs) && forall p :: PcOk(s, p)
  }

  lemma LooseHas(pcs: map<Pid, Pc>, p: Pid)
    requires p in pcs
    ensures Hand(pcs[p]) <= Loose(pcs)
  {}

  /** What is loose after one process has moved on. */
  lemma LoosePut(s: State, p: Pid, pc: Pc)
    requires Apart(s.pcs) && Hand(pc) !! Loose(s.pcs) - Hand(At(s, p))
    ensures Loose(s.pcs[p := pc]) == Loose(s.pcs) - Hand(At(s, p)) + Hand(pc) && Apart(s.pcs[p := pc])
  {
    var pcs := s.pcs[p := pc];
    forall q | q in s.pcs && q != p
      ensures Hand(s.pcs[q]) !! Hand(At(s, p)) && Hand(s.pcs[q]) !! Hand(pc)
    {
      LooseHas(s.pcs, q);
    }
    forall b | b in Loose(s.pcs) - Hand(At(s, p)) + Hand(pc)
      ensures b in Loose(pcs)
    {
      if b in Hand(pc) { assert p in pcs && b in Hand(pcs[p]); } else {
        var q :| q in s.pcs && b in Hand(s.pcs[q]);
        assert q != p && q in pcs && b in Hand(pcs[q]);
      }
    }
  }

  // ----- what a step leaves alone -----

  /** Outside inodes ns no slot changes, and outside blocks bs no block. */
  ghost predicate Frame(fs: Fs, fs': Fs, ns: set<nat>, bs: set<nat>) {
    && (forall t: Slot :: t.inum !in ns ==> Val(fs', t) == Val(fs, t))
    && (forall t: Slot :: t.inum !in ns && Storable(fs, t) ==> Storable(fs', t))
    && (forall b :: b in fs.blocks && b !in bs ==> b in fs'.blocks && fs'.blocks[b] == fs.blocks[b])
    && fs'.inodes.Keys == fs.inodes.Keys
  }

  /** Files whose inode the process has not locked keep their contents. */
  ghost predicate Kept(s: State, s': State, p: Pid) {
    forall m, bn :: !Holds(s, p, m) ==> Contents(s'.fs, m, bn) == Contents(s.fs, m, bn)
  }

  /** A process that does not act stays as it was. */
  lemma OtherOk(l: Layout, s: State, s': State, p: Pid, q: Pid, ns: set<nat>, bs: set<nat>)
    requires AllOk(l, s) && q != p && At(s', q) == At(s, q) && s'.locks == s.locks && Frame(s.fs, s'.fs, ns, bs)
    requires (forall n :: n in ns ==> Holds(s, p, n)) && Hand(At(s, q)) !! bs
    ensures PcOk(s', q)
  {
    assert PcOk(s, q);
  }

  /** The step of p is done: the new state is as it should be. */
  lemma Moved(l: Layout, s: State, fs': Fs, p: Pid, pc: Pc, ns: set<nat>, bs: set<nat>)
    requires AllOk(l, s) && Frame(s.fs, fs', ns, bs) && (forall n :: n in ns ==> Holds(s, p, n))
    requires forall b :: b in bs ==> b in Hand(At(s, p)) || b !in Loose(s.pcs)
    requires Hand(pc) !! Loose(s.pcs) - Hand(At(s, p))
    requires Inv(l, fs', Loose(s.pcs) - Hand(At(s, p)) + Hand(pc)) && PcOk(Put(s, fs', p, pc), p)
    ensures AllOk(l, Put(s, fs', p, pc))
  {
    hide Inv, Frame;
    var s' := Put(s, fs', p, pc);
    LoosePut(s, p, pc);
    forall q
      ensures PcOk(s', q)
    {
      if q != p {
        HandsApart(s, p, q, bs);
        OtherOk(l, s, s', p, q, ns, bs);
      }
    }
  }

  lemma HandsApart(s: State, p: Pid, q: Pid, bs: set<nat>)
    requires Apart(s.pcs) && p != q && forall b :: b in bs ==> b in Hand(At(s, p)) || b !in Loose(s.pcs)
    ensures Hand(At(s, q)) !! bs
  {
    if q in s.pcs { LooseHas(s.pcs, q); }
  }

  // ----- every step keeps the invariant -----

  /** Only blocks that no slot looks into change. */
  lemma PlainFrame(fs: Fs, blocks': map<nat, Block>, bs: set<nat>)
    requires fs.blocks.Keys <= blocks'.Keys && forall b :: b in fs.blocks && b !in bs ==> blocks'[b] == fs.blocks[b]
    requires forall t: Slot :: Val(Fs(blocks', fs.inodes), t) == Val(fs, t)
    ensures Frame(fs, Fs(blocks', fs.inodes), {}, bs)
  {}

  lemma LockKeeps(l: Layout, s: State, step: Step)
    requires AllOk(l, s) && Enabled(l, s, step) && (step.Lock? || step.Unlock?)
    ensures AllOk(l, Do(l, s, step)) && Kept(s, Do(l, s, step), step.p)
  {
    var s' := Do(l, s, step);
    forall q
      ensures PcOk(s', q)
    {
      assert PcOk(s, q);
    }
  }

  lemma LookKeeps(l: Layout, s: State, step: Step)
    requires AllOk(l, s) && Enabled(l, s, step) && (step.Look? || step.NoSpace?)
    ensures AllOk(l, Do(l, s, step)) && Kept(s, Do(l, s, step), step.p)
  {
    hide Inv;
    var pc := if step.Look? then Wants(step.t) else Idle;
    assert Loose(s.pcs) - {} + {} == Loose(s.pcs);
    Moved(l, s, s.fs, step.p, pc, {}, {});
  }

  /** balloc sets the bit of a block: nobody's before, the caller's now. */
  lemma MarkKeeps(l: Layout, fs: Fs, loose: set<nat>, b: nat)
    requires Inv(l, fs, loose) && b < l.size && !Bit(l, fs.blocks, b) && l.BBlock(b) in fs.blocks
    ensures l.Data(b) && b !in loose && Inv(l, Mark(l, fs, b, true), loose + {b})
    ensures Frame(fs, Mark(l, fs, b, true), {}, {l.BBlock(b)}) && l.BBlock(b) < l.nmeta
            && SameContents(fs, Mark(l, fs, b, true))
  {
    MarkBits(l, fs, b, true);
    BitmapSlots(l, fs, loose, b, true);
    assert Owned(fs, b) ==> Bit(l, fs.blocks, b);
  }

  /** Bitmap blocks are looked into by no slot. */
  lemma BitmapSlots(l: Layout, fs: Fs, loose: set<nat>, b: nat, v: bool)
    requires Inv(l, fs, loose) && b < l.size && l.BBlock(b) in fs.blocks && l.BBlock(b) < l.nmeta
    ensures Frame(fs, Mark(l, fs, b, v), {}, {l.BBlock(b)}) && SameContents(fs, Mark(l, fs, b, v))
    ensures forall x: nat :: Owned(Mark(l, fs, b, v), x) == Owned(fs, x)
  {
    var blocks' := Mark(l, fs, b, v).blocks;
    forall n | n in fs.inodes && |fs.inodes[n].addrs| == NDIRECT + 1
      ensures var a := fs.inodes[n].addrs[NDIRECT]; a != 0 ==> a in fs.blocks && blocks'[a] == fs.blocks[a]
    {
      assert Val(fs, Indirect(n)) == fs.inodes[n].addrs[NDIRECT];
    }
    SameSlots(fs, blocks');
    PlainFrame(fs, blocks', {l.BBlock(b)});
    forall m, bn
      ensures Contents(Mark(l, fs, b, v), m, bn) == Contents(fs, m, bn)
    {
      assert Val(fs, SlotOf(m, bn)) != 0 ==> l.Data(Val(fs, SlotOf(m, bn)));
    }
  }

  lemma TakeKeeps(l: Layout, s: State, p: Pid, b: uint)
    requires AllOk(l, s) && Enabled(l, s, Take(p, b))
    ensures AllOk(l, Do(l, s, Take(p, b))) && Kept(s, Do(l, s, Take(p, b)), p)
  {
    hide Inv, Frame, Val, Contents, Bit, Mark;
    MarkKeeps(l, s.fs, Loose(s.pcs), b);
    var fs', pc := Mark(l, s.fs, b, true), Took(At(s, p).t, b);
    assert Loose(s.pcs) - {} + {b} == Loose(s.pcs) + {b};
    MetaFree(l, s.fs, Loose(s.pcs), l.BBlock(b));
    StillWanted(l, s, fs', p, pc, {}, {l.BBlock(b)});
    Moved(l, s, fs', p, pc, {}, {l.BBlock(b)});
  }

  lemma MetaFree(l: Layout, fs: Fs, loose: set<nat>, m: nat)
    requires Inv(l, fs, loose) && m < l.nmeta
    ensures m !in loose
  {}

  /** The acting process's own slot is still empty. */
  lemma StillWanted(l: Layout, s: State, fs': Fs, p: Pid, pc: Pc, ns: set<nat>, bs: set<nat>)
    requires AllOk(l, s) && Frame(s.fs, fs', ns, bs) && ns == {} && (At(s, p).Wants? || At(s, p).Took?)
    requires pc.Took? || (pc.Zeroed? && pc.b in fs'.blocks && fs'.blocks[pc.b] == Zeros())
    requires pc.t == At(s, p).t
    ensures PcOk(Put(s, fs', p, pc), p)
  {
    assert PcOk(s, p);
  }

  /** bzero of a block in hand: no slot looks into it and no file shows it. */
  lemma ZeroFrame(l: Layout, fs: Fs, loose: set<nat>, b: nat)
    requires Inv(l, fs, loose) && b in loose
    ensures var fs' := Fs(fs.blocks[b := Zeros()], fs.inodes);
            Inv(l, fs', loose) && Frame(fs, fs', {}, {b}) && SameContents(fs, fs')
  {
    var fs' := Fs(fs.blocks[b := Zeros()], fs.inodes);
    forall n | n in fs.inodes && |fs.inodes[n].addrs| == NDIRECT + 1
      ensures var a := fs.inodes[n].addrs[NDIRECT]; a != 0 ==> a in fs.blocks && fs'.blocks[a] == fs.blocks[a]
    {
      assert Val(fs, Indirect(n)) == fs.inodes[n].addrs[NDIRECT];
    }
    SameSlots(fs, fs'.blocks);
    PlainFrame(fs, fs'.blocks, {b});
    forall x: nat | x < l.size
      ensures Bit(l, fs'.blocks, x) == Bit(l, fs.blocks, x)
    {
      assert x / BPB <= (l.size - 1) / BPB;
    }
    forall m, bn
      ensures Contents(fs', m, bn) == Contents(fs, m, bn)
    {
      assert Val(fs, SlotOf(m, bn)) != b;
    }
  }

  lemma ZeroKeeps(l: Layout, s: State, p: Pid)
    requires AllOk(l, s) && Enabled(l, s, Zero(p))
    ensures AllOk(l, Do(l, s, Zero(p))) && Kept(s, Do(l, s, Zero(p)), p)
  {
    hide Inv, Frame, Val, Contents;
    var b := At(s, p).b;
    LooseHas(s.pcs, p);
    ZeroFrame(l, s.fs, Loose(s.pcs), b);
    var fs', pc := Fs(s.fs.blocks[b := Zeros()], s.fs.inodes), Zeroed(At(s, p).t, b);
    assert Loose(s.pcs) - {b} + {b} == Loose(s.pcs);
    StillWanted(l, s, fs', p, pc, {}, {b});
    Moved(l, s, fs', p, pc, {}, {b});
  }

  /** bmap records the block in the slot it found empty. */
  lemma StoreFrame(l: Layout, fs: Fs, loose: set<nat>, t: Slot, b: uint)
    requires Inv(l, fs, loose) && Storable(fs, t) && Val(fs, t) == 0 && b in loose && fs.blocks[b] == Zeros()
    ensures Inv(l, Stored(fs, t, b), loose - {b}) && SameContents(fs, Stored(fs, t, b))
    ensures Val(Stored(fs, t, b), t) == b
  {
    match t
    case Direct(n, i) => AttachDirect(l, fs, loose, n, i, b);
    case Indirect(n) => AttachIndirect(l, fs, loose, n, b);
    case Entry(n, j) =>
      AttachEntry(l, fs, loose, n, j, b);
      SetThenGet(fs.blocks[fs.inodes[n].addrs[NDIRECT]], j, b, j);
  }

  /** The block that changes when an entry is stored, if any. */
  ghost function IndirectOf(fs: Fs, t: Slot): set<nat> { if t.Entry? then {Val(fs, Indirect(t.inum))} else {} }

  lemma StoreOthers(l: Layout, fs: Fs, loose: set<nat>, t: Slot, b: uint)
    requires Inv(l, fs, loose) && Storable(fs, t)
    ensures Frame(fs, Stored(fs, t, b), {t.inum}, IndirectOf(fs, t)) && IndirectOf(fs, t) !! loose
  {
    var fs' := Stored(fs, t, b);
    var a := Val(fs, Indirect(t.inum));
    forall u: Slot | u.inum != t.inum
      ensures Val(fs', u) == Val(fs, u)
    {
      assert a != 0 ==> Val(fs, Indirect(u.inum)) != a;
    }
  }

  lemma StoreStep(l: Layout, s: State, p: Pid)
    requires AllOk(l, s) && Enabled(l, s, Store(p))
    ensures AllOk(l, Do(l, s, Store(p))) && Kept(s, Do(l, s, Store(p)), p)
    ensures Val(Do(l, s, Store(p)).fs, At(s, p).t) == At(s, p).b
  {
    hide Inv, Frame, Val, Contents, Stored, Storable;
    var t, b := At(s, p).t, At(s, p).b;
    LooseHas(s.pcs, p);
    assert PcOk(s, p);
    StoreFrame(l, s.fs, Loose(s.pcs), t, b);
    StoreOthers(l, s.fs, Loose(s.pcs), t, b);
    var fs' := Stored(s.fs, t, b);
    assert Loose(s.pcs) - {b} + {} == Loose(s.pcs) - {b};
    Moved(l, s, fs', p, Idle, {t.inum}, IndirectOf(s.fs, t));
  }

  lemma AddrFrame(fs: Fs, n: nat, i: nat, b: uint)
    requires n in fs.inodes && |fs.inodes[n].addrs| == NDIRECT + 1 && i <= NDIRECT
    ensures Frame(fs, WithAddr(fs, n, i, b), {n}, {})
    ensures forall m, bn :: m != n ==> Contents(WithAddr(fs, n, i, b), m, bn) == Contents(fs, m, bn)
  {}

  lemma DropDirectStep(l: Layout, s: State, p: Pid, n: nat, i: nat)
    requires AllOk(l, s) && Enabled(l, s, DropDirect(p, n, i))
    ensures AllOk(l, Do(l, s, DropDirect(p, n, i))) && Kept(s, Do(l, s, DropDirect(p, n, i)), p)
  {
    hide Frame, Contents;
    var a := Val(s.fs, Direct(n, i));
    DetachDirect(l, s.fs, Loose(s.pcs), n, i);
    AddrFrame(s.fs, n, i, 0);
    assert a !in Loose(s.pcs);
    assert Loose(s.pcs) - {} + {a} == Loose(s.pcs) + {a};
    Moved(l, s, WithAddr(s.fs, n, i, 0), p, Freeing({a}), {n}, {});
  }

  lemma TreeApart(l: Layout, fs: Fs, loose: set<nat>, n: nat)
    requires Inv(l, fs, loose) && n in fs.inodes && Val(fs, Indirect(n)) != 0
    ensures Tree(fs, n) !! loose && Val(fs, Indirect(n)) in fs.blocks
            && Val(fs, Indirect(n)) == fs.inodes[n].addrs[NDIRECT]
    ensures |fs.inodes[n].addrs| == NDIRECT + 1
  {
    var a := Val(fs, Indirect(n));
    forall b | b in Entries(fs.blocks[a], NINDIRECT)
      ensures b !in loose
    {
      var j :| 0 <= j < NINDIRECT && GetWord(fs.blocks[a], j) == b && b != 0;
      assert Val(fs, Entry(n, j)) == b;
    }
  }

  lemma DropIndirectStep(l: Layout, s: State, p: Pid, n: nat)
    requires AllOk(l, s) && Enabled(l, s, DropIndirect(p, n))
    ensures AllOk(l, Do(l, s, DropIndirect(p, n))) && Kept(s, Do(l, s, DropIndirect(p, n)), p)
  {
    hide Inv, Frame, Contents, Val, Entries;
    TreeApart(l, s.fs, Loose(s.pcs), n);
    DetachIndirect(l, s.fs, Loose(s.pcs), n);
    AddrFrame(s.fs, n, NDIRECT, 0);
    var a := s.fs.inodes[n].addrs[NDIRECT];
    assert Loose(s.pcs) - {} + Tree(s.fs, n) == Loose(s.pcs) + {a} + Entries(s.fs.blocks[a], NINDIRECT);
    Moved(l, s, WithAddr(s.fs, n, NDIRECT, 0), p, Freeing(Tree(s.fs, n)), {n}, {});
  }

  lemma GiveStep(l: Layout, s: State, p: Pid, x: nat)
    requires AllOk(l, s) && Enabled(l, s, Give(p, x))
    ensures AllOk(l, Do(l, s, Give(p, x))) && Kept(s, Do(l, s, Give(p, x)), p) && Bit(l, s.fs.blocks, x)
  {
    hide Inv, Frame, Contents, Val, Bit, Mark;
    var bs := At(s, p).bs;
    LooseHas(s.pcs, p);
    GiveFrame(l, s.fs, Loose(s.pcs), x);
    MetaFree(l, s.fs, Loose(s.pcs), l.BBlock(x));
    var pc := if bs == {x} then Idle else Freeing(bs - {x});
    assert Hand(pc) == bs - {x};
    assert Loose(s.pcs) - bs + (bs - {x}) == Loose(s.pcs) - {x};
    Moved(l, s, Mark(l, s.fs, x, false), p, pc, {}, {l.BBlock(x)});
  }

  lemma GiveFrame(l: Layout, fs: Fs, loose: set<nat>, x: nat)
    requires Inv(l, fs, loose) && x in loose && l.BBlock(x) in fs.blocks
    ensures Bit(l, fs.blocks, x) && Inv(l, Mark(l, fs, x, false), loose - {x}) && l.BBlock(x) < l.nmeta
    ensures Frame(fs, Mark(l, fs, x, false), {}, {l.BBlock(x)}) && SameContents(fs, Mark(l, fs, x, false))
  {
    FreeKeeps(l, fs, loose, x);
    MarkBits(l, fs, x, false);
    BitmapSlots(l, fs, loose, x, false);
  }

  /** A step that leaves the hands as they are. */
  lemma MovedNot(l: Layout, s: State, fs': Fs, p: Pid, ns: set<nat>, bs: set<nat>)
    requires AllOk(l, s) && Frame(s.fs, fs', ns, bs) && (forall n :: n in ns ==> Holds(s, p, n))
    requires bs !! Loose(s.pcs) && Inv(l, fs', Loose(s.pcs)) && PcOk(State(fs', s.locks, s.pcs), p)
    ensures AllOk(l, State(fs', s.locks, s.pcs))
  {
    hide Inv, Frame;
    var s' := State(fs', s.locks, s.pcs);
    forall q
      ensures PcOk(s', q)
    {
      if q != p {
        HandsApart(s, p, q, bs);
        OtherOk(l, s, s', p, q, ns, bs);
      }
    }
  }

  lemma WriteStep(l: Layout, s: State, p: Pid, n: nat, bn: nat, d: Block)
    requires AllOk(l, s) && Enabled(l, s, Write(p, n, bn, d))
    ensures AllOk(l, Do(l, s, Write(p, n, bn, d))) && Kept(s, Do(l, s, Write(p, n, bn, d)), p)
  {
    hide Contents;
    var a := Val(s.fs, SlotOf(n, bn));
    var fs' := Fs(s.fs.blocks[a := d], s.fs.inodes);
    DataWrite(l, s.fs, Loose(s.pcs), n, bn, d);
    PlainFrame(s.fs, fs'.blocks, {a});
    MovedNot(l, s, fs', p, {}, {a});
  }

  lemma ResizeStep(l: Layout, s: State, p: Pid, n: nat, size: nat)
    requires AllOk(l, s) && Enabled(l, s, Resize(p, n, size))
    ensures AllOk(l, Do(l, s, Resize(p, n, size))) && Kept(s, Do(l, s, Resize(p, n, size)), p)
  {
    hide Inv;
    var fs' := Fs(s.fs.blocks, s.fs.inodes[n := Inode(s.fs.inodes[n].addrs, size)]);
    SizeFrame(l, s.fs, fs', Loose(s.pcs), n, size);
    assert PcOk(s, p);
    MovedNot(l, s, fs', p, {}, {});
  }

  lemma SizeFrame(l: Layout, fs: Fs, fs': Fs, loose: set<nat>, n: nat, size: nat)
    requires Inv(l, fs, loose) && n in fs.inodes
    requires fs' == Fs(fs.blocks, fs.inodes[n := Inode(fs.inodes[n].addrs, size)])
    ensures Inv(l, fs', loose) && Frame(fs, fs', {}, {}) && SameContents(fs, fs')
  {
    assert forall t: Slot :: Val(fs', t) == Val(fs, t);
    forall b: nat
      ensures Owned(fs', b) == Owned(fs, b)
    {
      if Owned(fs', b) { var t: Slot :| Val(fs', t) == b; assert Val(fs, t) == b; }
      if Owned(fs, b) { var t: Slot :| Val(fs, t) == b; assert Val(fs', t) == b; }
    }
  }

  /** Every step keeps ownership, and changes only files the process has locked. */
  lemma StepKeeps(l: Layout, s: State, step: Step)
    requires AllOk(l, s) && Enabled(l, s, step)
    ensures AllOk(l, Do(l, s, step)) && Kept(s, Do(l, s, step), step.p)
  {
    hide AllOk, Enabled, Do, Kept;
    match step
    case Lock(_, _) => LockKeeps(l, s, step);
    case Unlock(_, _) => LockKeeps(l, s, step);
    case Look(_, _) => LookKeeps(l, s, step);
    case NoSpace(_) => LookKeeps(l, s, step);
    case Take(p, b) => TakeKeeps(l, s, p, b);
    case Zero(p) => ZeroKeeps(l, s, p);
    case Store(p) => StoreStep(l, s, p);
    case DropDirect(p, n, i) => DropDirectStep(l, s, p, n, i);
    case DropIndirect(p, n) => DropIndirectStep(l, s, p, n);
    case Give(p, x) => GiveStep(l, s, p, x);
    case Write(p, n, bn, d) => WriteStep(l, s, p, n, bn, d);
    case Resize(p, n, size) => ResizeStep(l, s, p, n, size);
  }

  // ----- runs -----

  ghost predicate StepAt(l: Layout, ss: seq<State>, steps: seq<Step>, k: nat)
    requires k < |steps| && |ss| == |steps| + 1
  {
    Shape(l, ss[k].fs) && Enabled(l, ss[k], steps[k]) && ss[k + 1] == Do(l, ss[k], steps[k])
  }

  /** Any interleaving, from a file system in which no process is at work. */
  ghost predicate IsRun(l: Layout, ss: seq<State>, steps: seq<Step>) {
    && |ss| == |steps| + 1 && Inv(l, ss[0].fs, {}) && ss[0].pcs == map[]
    && forall k: nat :: k < |steps| ==> StepAt(l, ss, steps, k)
  }

  lemma {:induction false} RunOk(l: Layout, ss: seq<State>, steps: seq<Step>, k: nat)
    requires IsRun(l, ss, steps) && k < |ss|
    ensures AllOk(l, ss[k])
  {
    hide Do, Enabled, Inv, AllOk;
    if k == 0 {
      StartOk(l, ss[0]);
    } else {
      RunOk(l, ss, steps, k - 1);
      assert StepAt(l, ss, steps, k - 1);
      StepKeeps(l, ss[k - 1], steps[k - 1]);
    }
  }

  lemma StartOk(l: Layout, s: State)
    requires Inv(l, s.fs, {}) && s.pcs == map[]
    ensures AllOk(l, s)
  {
    assert Loose(s.pcs) == {};
  }

  /** In every state of every interleaving: no block is named by two slots; a data block is marked
      used exactly when a slot names it or a process has it in hand, never both; and no two
      processes have the same block in hand. */
  lemma RunOwnership(l: Layout, ss: seq<State>, steps: seq<Step>, k: nat)
    requires IsRun(l, ss, steps) && k < |ss|
    ensures var s := ss[k];
      && (forall t: Slot, u: Slot :: Val(s.fs, t) == Val(s.fs, u) && Val(s.fs, t) != 0 ==> t == u)
      && (forall b: nat :: l.Data(b) ==>
            (Bit(l, s.fs.blocks, b) <==> Owned(s.fs, b) || exists p :: b in Hand(At(s, p))))
      && (forall b: nat, p :: b in Hand(At(s, p)) ==> l.Data(b) && !Owned(s.fs, b))
      && (forall p, q :: p != q ==> Hand(At(s, p)) !! Hand(At(s, q)))
  {
    RunOk(l, ss, steps, k);
    var s := ss[k];
    forall p
      ensures Hand(At(s, p)) <= Loose(s.pcs)
    {
      if p in s.pcs { LooseHas(s.pcs, p); }
    }
    forall b: nat | b in Loose(s.pcs)
      ensures exists p :: b in Hand(At(s, p))
    {
      var p :| p in s.pcs && b in Hand(s.pcs[p]);
      assert b in Hand(At(s, p));
    }
    forall b: nat, p | b in Hand(At(s, p))
      ensures l.Data(b) && !Owned(s.fs, b)
    {
      assert b in Loose(s.pcs);
    }
  }

  /** What bmap relies on although it holds only the inode's lock: when it stores its block, the slot
      it found empty is still empty and the block is still zero; and bfree's block is in use. */
  lemma RunStores(l: Layout, ss: seq<State>, steps: seq<Step>, k: nat)
    requires IsRun(l, ss, steps) && k < |steps|
    ensures steps[k].Store? ==> var pc := At(ss[k], steps[k].p);
              && pc.Zeroed? && Val(ss[k].fs, pc.t) == 0 && pc.b in ss[k].fs.blocks && ss[k].fs.blocks[pc.b] == Zeros()
              && Val(ss[k + 1].fs, pc.t) == pc.b && SameContents(ss[k].fs, ss[k + 1].fs)
    ensures steps[k].Give? ==> Bit(l, ss[k].fs.blocks, steps[k].x)
    ensures Kept(ss[k], ss[k + 1], steps[k].p)
  {
    hide Inv, Val, Contents, Bit;
    RunOk(l, ss, steps, k);
    assert StepAt(l, ss, steps, k);
    StepKeeps(l, ss[k], steps[k]);
    var p := steps[k].p;
    assert PcOk(ss[k], p);
    if steps[k].Store? {
      var pc := At(ss[k], p);
      LooseHas(ss[k].pcs, p);
      StoreFrame(l, ss[k].fs, Loose(ss[k].pcs), pc.t, pc.b);
    } else if steps[k].Give? {
      GiveStep(l, ss[k], p, steps[k].x);
    }
  }

  // ----- nobody waits -----

  /** How many steps a process has before it in bmap or itrunc. */
  ghost function Left(pc: Pc): nat {
    match pc case Idle => 0 case Wants(_) => 3 case Took(_, _) => 2 case Zeroed(_, _) => 1 case Freeing(bs) => |bs|
  }

  /** In every state of every interleaving a process in the middle of bmap or itrunc can take a step at once,
      whatever the
      others are doing; it takes a block if one is free. */
  lemma NeverBlocked(l: Layout, ss: seq<State>, steps: seq<Step>, k: nat, p: Pid) returns (t: Step)
    requires IsRun(l, ss, steps) && k < |ss| && !At(ss[k], p).Idle?
    ensures t.p == p && Enabled(l, ss[k], t) && !t.Resize?
    ensures At(ss[k], p).Wants? ==> (t.Take? <==> exists b: nat :: b < l.size && !Bit(l, ss[k].fs.blocks, b))
  {
    RunOk(l, ss, steps, k);
    var s := ss[k];
    assert PcOk(s, p);
    match At(s, p)
    case Wants(_) =>
      if b: nat :| b < l.size && !Bit(l, s.fs.blocks, b) {
        BitmapThere(l, s.fs, b);
        t := Take(p, b);
      } else {
        t := NoSpace(p);
      }
    case Took(_, _) => t := Zero(p);
    case Zeroed(_, _) => t := Store(p);
    case Freeing(bs) =>
      var x :| x in bs;
      LooseHas(s.pcs, p);
      BitmapThere(l, s.fs, x);
      t := Give(p, x);
  }

  lemma BitmapThere(l: Layout, fs: Fs, b: nat)
    requires Shape(l, fs) && b < l.size
    ensures l.BBlock(b) in fs.blocks
  {
    assert b / BPB <= (l.size - 1) / BPB;
  }

  /** And each such step brings it nearer to the end. */
  lemma StepsEnd(l: Layout, s: State, step: Step)
    requires Shape(l, s.fs) && Enabled(l, s, step) && !At(s, step.p).Idle? && !step.Resize? && !step.Lock?
    ensures Left(At(Do(l, s, step), step.p)) < Left(At(s, step.p))
  {}
}
