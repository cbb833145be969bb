/** What a crash leaves of the file system's own invariants: whatever holds of the image whenever a
    transaction commits holds of every image that recovery can yield. */
module CrashOwnership {
  import opened Blocks
  import opened LogProtocol
  import opened CrashSafety
  import Ownership

  /** The image that operations see is good at power-on and at each commit of the run. */
  ghost predicate GoodAtCommits<D(!new)>(c: Config, r: Run<D>, good: map<nat, D> -> bool)
    requires IsRun(c, r)
  {
    forall k: nat ::
      (k < |r.states| && Shape(c, r.states[k]) && (k == 0 || (k < |r.steps| && r.steps[k].CommitHead?))) ==>
      good(Abs(c, r.states[k]).current)
  }

  /** In every state of every run, crashes and recoveries included, the disk recovers to a good image. */
  lemma GoodAfterCrash<D(!new)>(c: Config, r: Run<D>, good: map<nat, D> -> bool, n: nat)
    requires IsRun(c, r) && n < |r.states| && GoodAtCommits(c, r, good)
    ensures Shape(c, r.states[n]) && good(Recovered(c, r.states[n].disk, r.states[n].hdr))
  {
    hide Inv, Abs, Recovered;
    var k := CrashAtomicity(c, r, n);
    InvShape(c, r.states[n]);
    InvShape(c, r.states[k]);
  }

  lemma InvShape<D>(c: Config, s: State<D>)
    requires Inv(c, s)
    ensures Shape(c, s)
  {}

  /** The file system in an image: log blocks, which it does not look at, are blank, and `inodes` reads the
      inodes from it. */
  ghost function FsOf(c: Config, inodes: map<nat, Block> -> map<nat, Ownership.Inode>, image: map<nat, Block>)
    : Ownership.Fs
  {
    Ownership.Fs(map b: nat | b < c.nblocks :: if b in image then image[b] else Zeros(), inodes(image))
  }

  ghost predicate WellOwned(c: Config, l: Ownership.Layout, inodes: map<nat, Block> -> map<nat, Ownership.Inode>,
                            image: map<nat, Block>) {
    Ownership.Inv(l, FsOf(c, inodes, image), {})
  }

  /** Ownership survives crashes: if it holds at commits, when no operation is in progress and so no
      block is in anybody's hands, then after any crash no block is shared and none is lost. */
  lemma OwnershipAfterCrash(c: Config, l: Ownership.Layout, inodes: map<nat, Block> -> map<nat, Ownership.Inode>,
                            r: Run<Block>, n: nat)
    requires IsRun(c, r) && n < |r.states| && GoodAtCommits(c, r, image => WellOwned(c, l, inodes, image))
    ensures Shape(c, r.states[n])
    ensures var fs := FsOf(c, inodes, Recovered(c, r.states[n].disk, r.states[n].hdr));
      && (forall s: Ownership.Slot, t: Ownership.Slot :: Ownership.Val(fs, s) == Ownership.Val(fs, t) != 0 ==> s == t)
      && (forall b: nat :: l.Data(b) ==> (Ownership.Bit(l, fs.blocks, b) <==> Ownership.Owned(fs, b)))
  {
    GoodAfterCrash(c, r, image => WellOwned(c, l, inodes, image), n);
  }
}
