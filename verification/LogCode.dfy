/** kernel/log.c as code: the in-memory log updated in place, loops over the block list,
    one bwrite at a time.  Each procedure is proved to follow protocol steps (Goes), so
    everything proved of runs in CrashSafety and LogSpace holds at each of its writes,
    and the listed events say what it means for the store.

    There are NBUF buffers.  A procedure that finds them all referenced gets none, which is
    the panic "bget: no buffers"; it then returns false and promises only that the state is
    one that a crash may leave behind. */
module LogCode {
  import opened Common
  import opened Blocks
  import opened LogHeader
  import opened LogProtocol
  import opened CrashSafety
  import opened LogTrace

  // ----- the header block -----

  /** write_head's loop. */
  method PackHeader(d: Block, bs: seq<nat>) returns (h: Block)
    requires Encodable(bs)
    ensures HeaderFits(h) && DecodeHeader(h) == bs
  {
    h := SetWord(d, 0, |bs|);
    var i := 0;
    while i < |bs|
      invariant 0 <= i <= |bs| && h == HeaderPrefix(d, bs, i)
    {
      h := SetWord(h, i + 1, bs[i]);
      i := i + 1;
    }
    HeaderRoundTrip(d, bs);
  }

  // ----- references -----

  /** Pinned and locked buffers are cached and belong to home blocks; with no operation in
      progress none is locked. */
  lemma ReachUsed<D(!new)>(c: Config, s: State<D>)
    requires Reachable(c, s)
    ensures forall b :: b in s.pins || b in s.held ==> b in s.cache && c.Home(b)
    ensures !s.phase.Running? ==> s.held == map[]
  {
    ReachInv(c, s);
  }

  /** During a commit exactly the listed blocks not yet installed are pinned. */
  lemma ReachPins<D(!new)>(c: Config, s: State<D>)
    requires Reachable(c, s)
    ensures s.phase.WritingLog? ==> s.phase.tail < |s.lh| && s.lh[s.phase.tail] in s.pins && |s.pins| == |s.lh|
    ensures s.phase.Installing? ==> s.phase.tail < |s.lh| && s.lh[s.phase.tail] in s.pins
  {
    ReachInv(c, s);
    if s.phase.WritingLog? {
      SeqSize(s.lh);
      assert s.pins == Members(s.lh);
    }
  }

  lemma SomeUnused(cached: set<nat>, used: set<nat>)
    requires used <= cached && |used| < |cached|
    ensures !(cached <= used)
  {
    assert cached <= used ==> cached == used;
  }

  lemma AllUsed(cached: set<nat>, used: set<nat>, n: nat)
    requires used <= cached && |cached| <= n <= |used|
    ensures cached == used
  {
    SubsetSize(used, cached);
    if cached != used {
      var x :| x in cached && x !in used;
      SubsetSize(used + {x}, cached);
    }
  }

  /** No more than NBUF blocks, the header among them, have buffers; the busy and the referenced
      ones do. */
  ghost predicate Fits(cached: set<nat>, busy: set<nat>, refs: set<nat>, headIn: bool) {
    busy <= cached && refs <= cached && |cached| + (if headIn then 1 else 0) <= NBUF
  }

  lemma FitsIdle(cached: set<nat>, busy: set<nat>, refs: set<nat>, headIn: bool)
    requires Fits(cached, busy, refs, headIn)
    ensures Fits(cached, {}, refs, headIn)
  {}

  /** The blocks whose buffer has a reference. */
  function References(pins: set<nat>, held: set<nat>, busy: set<nat>, refs: set<nat>): set<nat> {
    pins + held + busy + refs
  }

  lemma FewerReferences(pins: set<nat>, pins': set<nat>, held: set<nat>, busy: set<nat>, refs: set<nat>)
    requires pins' <= pins
    ensures |References(pins', held, busy, refs)| <= |References(pins, held, busy, refs)|
  {
    SubsetSize(References(pins', held, busy, refs), References(pins, held, busy, refs));
  }

  lemma OneMoreReference(pins: set<nat>, held: set<nat>, busy: set<nat>, refs: set<nat>, b: nat)
    ensures References(pins, held, busy + {b}, refs) == References(pins, held, busy, refs) + {b}
    ensures |References(pins, held, busy + {b}, refs)| <= |References(pins, held, busy, refs)| + 1
  {
    assert References(pins, held, busy + {b}, refs) == References(pins, held, busy, refs) + {b};
  }

  lemma OnlyPins(pins: set<nat>, held: map<nat, Pid>, refs: set<nat>)
    requires held == map[]
    ensures References(pins, held.Keys, {}, refs) == pins + refs
    ensures refs == {} ==> References(pins, held.Keys, {}, refs) == pins
  {
    assert held.Keys == {};
  }

  /** The length of the list, and the phase, after block `tail` of n has been installed. */
  ghost function LenAfter(tail: nat, n: nat): nat { if tail + 1 < n then n else 0 }

  ghost function PhaseAfter(recovering: bool, tail: nat, n: nat): Phase {
    if tail + 1 < n then (if recovering then Reinstalling(tail + 1) else Installing(tail + 1))
    else if recovering then Reclearing else Clearing
  }

  class Log {
    const c: Config
    // the disk and the buffer cache in front of it; the header block log.start, whose
    // buffer never differs from the disk, is kept apart
    var head: Block
    var disk: map<nat, Block>
    var cache: map<nat, Block>
    var headIn: bool            // the header block has a buffer
    var busy: set<nat>          // buffers between bread and brelse in the running procedure
    var refs: set<nat>          // buffers that other processes have between bread and brelse
    var pins: set<nat>
    var held: map<nat, Pid>
    // struct log
    var n: nat
    var block: array<nat>
    var outstanding: nat
    var committing: bool
    // who is where
    ghost var hdr: seq<nat>     // the list held by the header block
    ghost var ops: map<Pid, nat>
    ghost var sleepers: set<Pid>
    ghost var phase: Phase

    /** The protocol state, taking the first k entries of block[] as the list. */
    ghost function AbsList(k: nat): State<Block>
      reads this, block
      requires k <= block.Length
    {
      State(disk, hdr, cache, block[..k], ops, pins, held, sleepers, committing, phase)
    }

    ghost predicate ValidList(k: nat)
      reads this, block
    {
      block.Length == LOGSIZE && k <= LOGSIZE && outstanding == |ops| && Bounded() && Reachable(c, AbsList(k))
    }

    ghost predicate Valid()
      reads this, block
    {
      ValidList(n)
    }

    ghost function Now(): State<Block>
      reads this, block
      requires n <= block.Length
    {
      AbsList(n)
    }

    /** The header block on disk holds the list `hdr`. */
    ghost predicate HeadOk()
      reads this`head, this`hdr
    {
      HeaderFits(head) && DecodeHeader(head) == hdr
    }

    /** The state at power-on: struct log is zero and no block has a buffer. */
    constructor (c: Config, d: map<nat, Block>, h: Block)
      requires c.Wf() && GoodDisk(c, d) && HeaderFits(h) && GoodList(c, DecodeHeader(h))
      ensures Valid() && HeadOk() && this.c == c && disk == d && head == h && phase == Rebooted
      ensures busy == {} && refs == {} && ops == map[] && fresh(block)
    {
      this.c, disk, head, hdr := c, d, h, DecodeHeader(h);
      cache, headIn, busy, refs, pins, held := map[], false, {}, {}, {}, map[];
      n, outstanding, committing := 0, 0, false;
      block := new nat[LOGSIZE];
      ops, sleepers, phase := map[], {}, Rebooted;
      new;
      GoesNowhere(c, Now());
      assert Init(c, Now());
      assert cache.Keys == {};
    }

    // ----- buffers -----

    ghost predicate Bounded()
      reads this`cache, this`busy, this`refs, this`headIn
    {
      Fits(cache.Keys, busy, refs, headIn)
    }

    ghost function Used(): set<nat>
      reads this`pins, this`held, this`busy, this`refs
    {
      References(pins, held.Keys, busy, refs)
    }

    lemma UsedCached(k: nat)
      requires ValidList(k)
      ensures Used() <= cache.Keys && |Used()| <= |cache.Keys|
    {
      hide Reachable;
      ReachUsed(c, AbsList(k));
      SubsetSize(Used(), cache.Keys);
    }

    /** With all buffers referenced, a log block that nobody refers to is not cached. */
    lemma NoneLeft(b: nat)
      requires Valid() && |Used()| >= NBUF && busy == {} && b !in refs && !c.Home(b)
      ensures b !in cache
    {
      hide Reachable;
      UsedCached(n);
      ReachUsed(c, Now());
      AllUsed(cache.Keys, Used(), NBUF);
    }

    /** Before the two breads of a copying loop: both blocks are on the disk, the home block is
        pinned and cached unless recovering, and the log block is not cached when all buffers are
        referenced. */
    lemma CopyReady(tail: nat)
      requires Valid() && tail < n && busy == {}
      ensures c.start + tail + 1 < c.nblocks && block[tail] < c.nblocks
      ensures phase == WritingLog(tail) || phase == Installing(tail) ==> block[tail] in Used() && block[tail] in cache
      ensures |Used()| >= NBUF && c.start + tail + 1 !in refs ==> c.start + tail + 1 !in cache
    {
      hide Reachable, Fits;
      ReachFacts(c, Now());
      ReachPins(c, Now());
      UsedCached(n);
      assert c.Home(block[..n][tail]);
      if |Used()| >= NBUF && c.start + tail + 1 !in refs { NoneLeft(c.start + tail + 1); }
    }

    /** bget's choice of a victim: any buffer nobody refers to. */
    method Recycle()
      requires Valid() && |Used()| < NBUF
      modifies this`cache, this`headIn
      ensures Valid() && Goes(c, old(Now()), [], Now()) && |cache.Keys| + (if headIn then 1 else 0) < NBUF
      ensures forall b :: b in cache ==> b in old(cache) && cache[b] == old(cache)[b]
      ensures forall b :: b in old(cache) && b in Used() ==> b in cache
    {
      hide Reachable, Goes;
      GoesNowhere(c, Now());
      UsedCached(n);
      if |cache.Keys| + (if headIn then 1 else 0) < NBUF {
        return;
      }
      var used := References(pins, held.Keys, busy, refs);
      var ofHead: bool := *;
      if headIn && (ofHead || cache.Keys <= used) {
        headIn := false;
      } else {
        if !headIn { SomeUnused(cache.Keys, used); }
        var v :| v in cache.Keys && v !in used;
        Drop(v);
      }
    }

    /** The victim's buffer loses its block. */
    method Drop(v: nat)
      requires Valid() && v in cache && v !in Used()
      modifies this`cache
      ensures Valid() && Goes(c, old(Now()), [], Now()) && cache == old(cache) - {v} && |cache.Keys| < |old(cache.Keys)|
    {
      hide Reachable, Goes;
      EvictGoes(c, Now(), v);
      cache := cache - {v};
      assert cache.Keys == old(cache.Keys) - {v};
      ReachOn(c, old(Now()), [], Now());
    }

    /** Fills a free buffer from disk. */
    method Fill(b: nat)
      requires Valid() && b in disk && b !in cache && |cache.Keys| + (if headIn then 1 else 0) < NBUF
      modifies this`cache
      ensures Valid() && Goes(c, old(Now()), [], Now())
      ensures cache == old(cache)[b := disk[b]]
    {
      hide Reachable, Goes, References;
      LoadGoes(c, Now(), b);
      cache := cache[b := disk[b]];
      assert cache.Keys == old(cache.Keys) + {b};
      ReachOn(c, old(Now()), [], Now());
    }

    /** bread: the cached contents, else the disk's; no buffer exactly when the block is not
        cached and all buffers are referenced. */
    method Bread(b: nat) returns (d: Option<Block>)
      requires Valid() && b < c.nblocks
      modifies this`cache, this`busy, this`headIn
      ensures Valid() && Goes(c, old(Now()), [], Now())
      ensures d.None? <==> b !in old(cache) && |old(Used())| >= NBUF
      ensures d.None? ==> cache == old(cache) && busy == old(busy)
      ensures d.Some? ==> b in disk && d.value == (if b in old(cache) then old(cache)[b] else disk[b])
      ensures d.Some? ==> b in cache && cache[b] == d.value && busy == old(busy) + {b}
      ensures forall x :: x in old(Used()) && x in old(cache) ==> x in cache && cache[x] == old(cache)[x]
    {
      hide Reachable, Goes, References;
      ReachFacts(c, Now());
      if b in cache {
        GoesNowhere(c, Now());
      } else if |References(pins, held.Keys, busy, refs)| >= NBUF {
        GoesNowhere(c, Now());
        return None;
      } else {
        Miss(b);
      }
      busy := busy + {b};
      d := Some(cache[b]);
    }

    /** A buffer is found for a block that is not cached. */
    method Miss(b: nat)
      requires Valid() && b in disk && b !in cache && |Used()| < NBUF
      modifies this`cache, this`headIn
      ensures Valid() && Goes(c, old(Now()), [], Now()) && b in cache && cache[b] == disk[b]
      ensures forall x :: x in Used() && x in old(cache) ==> x in cache && cache[x] == old(cache)[x]
    {
      hide Reachable, Goes, References, Fits;
      Recycle();
      ghost var mid := Now();
      Fill(b);
      SilentThen(c, old(Now()), mid, [], Now());
    }

    /** Two breads in a row, as both copying loops do. */
    method BreadBoth(b: nat, b': nat) returns (r: Option<(Block, Block)>)
      requires Valid() && b < c.nblocks && b' < c.nblocks && busy == {}
      modifies this`cache, this`busy, this`headIn
      ensures Valid() && Goes(c, old(Now()), [], Now())
      ensures r.Some? ==>
                b in cache && cache[b] == r.value.0 && b' in cache && cache[b'] == r.value.1 && busy == {b, b'}
      ensures |old(Used())| + 2 <= NBUF ==> r.Some?
      ensures |old(Used())| < NBUF && b' in old(Used()) && b' in old(cache) ==> r.Some?
      ensures |old(Used())| >= NBUF && b !in old(cache) ==> r.None?
    {
      hide Reachable, Goes, Fits, References;
      var d := Bread(b);
      if d.None? {
        return None;
      }
      ghost var mid := Now();
      OneMoreReference(pins, held.Keys, {}, refs, b);
      assert {} + {b} == {b} == busy;
      var d' := Bread(b');
      SilentThen(c, old(Now()), mid, [], Now());
      if d'.None? {
        return None;
      }
      assert busy == {b, b'};
      return Some((d.value, d'.value));
    }

    /** The brelses of a round. */
    method BrelseAll(ghost k: nat)
      requires ValidList(k)
      modifies this`busy
      ensures ValidList(k) && busy == {} && AbsList(k) == old(AbsList(k))
    {
      hide Reachable, References;
      busy := {};
    }

    /** bread of the header block. */
    method BreadHead() returns (ok: bool)
      requires Valid()
      modifies this`cache, this`headIn
      ensures Valid() && Goes(c, old(Now()), [], Now())
      ensures ok <==> old(headIn) || |Used()| < NBUF
    {
      hide Reachable, Goes, References;
      if headIn {
        GoesNowhere(c, Now());
        return true;
      }
      if |References(pins, held.Keys, busy, refs)| >= NBUF {
        GoesNowhere(c, Now());
        return false;
      }
      Recycle();
      headIn := true;
      ok := true;
    }

    /** Another process reads a block and keeps its buffer; false if there is none. */
    method Refer(b: nat) returns (ok: bool)
      requires Valid() && b < c.nblocks && busy == {}
      modifies this`cache, this`busy, this`headIn, this`refs
      ensures Valid() && Goes(c, old(Now()), [], Now()) && busy == {}
      ensures ok <==> b in old(cache) || |old(Used())| < NBUF
      ensures refs == if ok then old(refs) + {b} else old(refs)
    {
      hide Reachable, Goes, References;
      var d := Bread(b);
      ok := d.Some?;
      if ok {
        refs := refs + {b};
        busy := {};
      }
    }

    /** It releases the buffer again. */
    method Unrefer(b: nat)
      requires Valid()
      modifies this`refs
      ensures Valid() && refs == old(refs) - {b} && Now() == old(Now())
    {
      refs := refs - {b};
    }

    // ----- write_log -----

    lemma OnDisk(tail: nat)
      requires Valid() && tail < n
      ensures c.start + 1 + tail in disk && block[tail] in disk && Now().lh[tail] == block[tail]
    {
      hide Reachable, Fits;
      ReachFacts(c, Now());
      assert c.Home(block[..n][tail]);
    }

    /** memmove(to, from); bwrite(to) for log block `tail`. */
    method WriteLogBlock(tail: nat, from: Block)
      requires Valid() && phase == WritingLog(tail) && tail < n && block[tail] in cache && cache[block[tail]] == from
      requires c.start + 1 + tail in cache
      modifies this`disk, this`cache, this`phase
      ensures Valid() && Goes(c, old(Now()), [], Now())
      ensures phase == if tail + 1 < n then WritingLog(tail + 1) else WritingHead
      ensures disk == old(disk)[c.start + 1 + tail := from]
    {
      hide Reachable, Goes, Fits, References;
      OnDisk(tail);
      CopyGoes(c, Now(), tail, from);
      disk := disk[c.start + 1 + tail := from];
      cache := cache[c.start + 1 + tail := from];
      assert cache.Keys == old(cache.Keys);
      phase := if tail + 1 < n then WritingLog(tail + 1) else WritingHead;
      ReachOn(c, old(Now()), [], Now());
    }

    /** One iteration of write_log. */
    method CopyBlock(tail: nat) returns (ok: bool)
      requires Valid() && phase == WritingLog(tail) && tail < n && busy == {}
      modifies this`disk, this`cache, this`busy, this`phase, this`headIn
      ensures Valid()
      ensures ok ==> Goes(c, old(Now()), [], Now()) && busy == {}
      ensures ok ==> phase == if tail + 1 < n then WritingLog(tail + 1) else WritingHead
      ensures |old(Used())| < NBUF ==> ok
      ensures |old(Used())| >= NBUF && c.start + tail + 1 !in refs ==> !ok
    {
      hide Reachable, Goes, Fits, References, Bounded;
      CopyReady(tail);
      var r := BreadBoth(c.start + tail + 1, block[tail]);
      if r.None? {
        return false;
      }
      ghost var mid := Now();
      WriteLogBlock(tail, r.value.1);
      SilentThen(c, old(Now()), mid, [], Now());
      BrelseAll(n);
      ok := true;
    }

    /** write_log: copies the modified blocks from the cache to the log. */
    method WriteLog() returns (ok: bool)
      requires Valid() && phase == WritingLog(0) && 0 < n && busy == {}
      modifies this`disk, this`cache, this`busy, this`phase, this`headIn
      ensures Valid()
      ensures ok ==> Goes(c, old(Now()), [], Now()) && busy == {} && phase == WritingHead
      ensures |old(Used())| < NBUF ==> ok
      ensures |old(Used())| >= NBUF && c.start + 1 !in refs ==> !ok
    {
      hide Reachable, Goes, Fits, References;
      var tail := 0;
      GoesNowhere(c, Now());
      while tail < n
        invariant 0 <= tail <= n && Valid() && Goes(c, old(Now()), [], Now()) && busy == {}
        invariant phase == if tail < n then WritingLog(tail) else WritingHead
        invariant 0 < tail && c.start + 1 !in refs ==> |old(Used())| < NBUF
      {
        ghost var s0 := Now();
        assert Used() == old(Used());
        ok := CopyBlock(tail);
        if !ok {
          return;
        }
        SilentThen(c, old(Now()), s0, [], Now());
        tail := tail + 1;
      }
      ok := true;
    }

    // ----- write_head -----

    method WriteHead() returns (ok: bool)
      requires Valid() && HeadOk()
      requires phase.WritingHead? || ((phase.Clearing? || phase.Reclearing?) && n == 0)
      modifies this`head, this`hdr, this`phase, this`cache, this`headIn
      ensures Valid() && HeadOk()
      ensures ok <==> old(headIn) || |Used()| < NBUF
      ensures !ok ==> phase == old(phase) && hdr == old(hdr)
      ensures ok ==> hdr == block[..n]
      ensures ok ==>
                phase == if old(phase).WritingHead? then Installing(0) else if old(phase).Clearing? then Committed
                    else Running
      ensures ok ==> Goes(c, old(Now()), if old(phase).WritingHead? then [MakeDurable] else [], Now())
    {
      hide Reachable, Goes, Fits, References;
      ok := BreadHead();
      if ok {
        ghost var mid := Now();
        PutHead();
        SilentThen(c, old(Now()), mid, if old(phase).WritingHead? then [MakeDurable] else [], Now());
      }
    }

    /** The header's buffer filled and written. */
    method PutHead()
      requires Valid() && HeadOk()
      requires phase.WritingHead? || ((phase.Clearing? || phase.Reclearing?) && n == 0)
      modifies this`head, this`hdr, this`phase
      ensures Valid() && HeadOk() && hdr == block[..n]
      ensures phase == if old(phase).WritingHead? then Installing(0) else if old(phase).Clearing? then Committed
              else Running
      ensures Goes(c, old(Now()), if old(phase).WritingHead? then [MakeDurable] else [], Now())
    {
      hide Reachable, Goes, Fits, References;
      ReachFacts(c, Now());
      if phase.WritingHead? { HeadGoes(c, Now()); } else { ClearGoes(c, Now()); }
      head := PackHeader(head, block[..n]);
      hdr := block[..n];
      phase := if phase.WritingHead? then Installing(0) else if phase.Clearing? then Committed else Running;
      ReachOn(c, old(Now()), if old(phase).WritingHead? then [MakeDurable] else [], Now());
    }

    // ----- install_trans -----

    /** memmove(dbuf, lbuf); bwrite(dbuf); bunpin(dbuf), in a commit. */
    method InstallBlock(tail: nat, d: Block)
      requires Valid() && tail + 1 < n && phase == Installing(tail)
      requires c.start + 1 + tail in cache && cache[c.start + 1 + tail] == d && block[tail] in cache
      modifies this`disk, this`cache, this`pins, this`phase
      ensures ValidList(n) && Goes(c, old(Now()), [], AbsList(n)) && phase == Installing(tail + 1)
      ensures disk == old(disk)[block[tail] := d] && pins == old(pins) - {block[tail]}
    {
      hide Reachable, Goes, Fits, References;
      var h := block[tail];
      OnDisk(tail);
      disk := disk[h := d];
      cache := cache[h := d];
      assert cache.Keys == old(cache.Keys);
      pins := pins - {h};
      phase := Installing(tail + 1);
      InstallGoes(c, old(Now()), tail, d, Now());
    }

    /** The same for the last listed block. */
    method InstallLast(tail: nat, d: Block)
      requires Valid() && tail + 1 == n && phase == Installing(tail)
      requires c.start + 1 + tail in cache && cache[c.start + 1 + tail] == d && block[tail] in cache
      modifies this`disk, this`cache, this`pins, this`phase
      ensures ValidList(0) && Goes(c, old(Now()), [], AbsList(0)) && phase == Clearing
      ensures disk == old(disk)[block[tail] := d] && pins == old(pins) - {block[tail]}
    {
      hide Reachable, Goes, Fits, References;
      var h := block[tail];
      OnDisk(tail);
      disk := disk[h := d];
      cache := cache[h := d];
      assert cache.Keys == old(cache.Keys);
      pins := pins - {h};
      phase := Clearing;
      InstallGoes(c, old(Now()), tail, d, AbsList(0));
    }

    /** memmove(dbuf, lbuf); bwrite(dbuf), in recovery. */
    method ReinstallBlock(tail: nat, d: Block)
      requires Valid() && tail + 1 < n && phase == Reinstalling(tail)
      requires c.start + 1 + tail in cache && cache[c.start + 1 + tail] == d && block[tail] in cache
      modifies this`disk, this`cache, this`phase
      ensures ValidList(n) && Goes(c, old(Now()), [], AbsList(n)) && phase == Reinstalling(tail + 1)
      ensures disk == old(disk)[block[tail] := d]
    {
      hide Reachable, Goes, Fits, References;
      var h := block[tail];
      OnDisk(tail);
      ReinstallGoes(c, Now(), tail, d);
      disk := disk[h := d];
      cache := cache[h := d];
      assert cache.Keys == old(cache.Keys);
      phase := Reinstalling(tail + 1);
      ReachOn(c, old(Now()), [], AbsList(n));
    }

    /** The same for the last listed block. */
    method ReinstallLast(tail: nat, d: Block)
      requires Valid() && tail + 1 == n && phase == Reinstalling(tail)
      requires c.start + 1 + tail in cache && cache[c.start + 1 + tail] == d && block[tail] in cache
      modifies this`disk, this`cache, this`phase
      ensures ValidList(0) && Goes(c, old(Now()), [], AbsList(0)) && phase == Reclearing
      ensures disk == old(disk)[block[tail] := d]
    {
      hide Reachable, Goes, Fits, References;
      var h := block[tail];
      OnDisk(tail);
      ReinstallGoes(c, Now(), tail, d);
      disk := disk[h := d];
      cache := cache[h := d];
      assert cache.Keys == old(cache.Keys);
      phase := Reclearing;
      ReachOn(c, old(Now()), [], AbsList(0));
    }

    /** The copy home and what follows it in one iteration. */
    method PutHome(recovering: bool, tail: nat, d: Block)
      requires Valid() && tail < n && phase == (if recovering then Reinstalling(tail) else Installing(tail))
      requires c.start + 1 + tail in cache && cache[c.start + 1 + tail] == d && block[tail] in cache
      modifies this`disk, this`cache, this`pins, this`phase
      ensures ValidList(LenAfter(tail, n)) && pins <= old(pins)
      ensures Goes(c, old(Now()), [], AbsList(LenAfter(tail, n)))
      ensures phase == PhaseAfter(recovering, tail, n)
    {
      hide Reachable, Goes, Fits, References;
      if recovering {
        if tail + 1 < n { ReinstallBlock(tail, d); } else { ReinstallLast(tail, d); }
      } else {
        if tail + 1 < n { InstallBlock(tail, d); } else { InstallLast(tail, d); }
      }
    }

    /** One iteration of install_trans. */
    method InstallNext(recovering: bool, tail: nat) returns (ok: bool)
      requires Valid() && tail < n && phase == (if recovering then Reinstalling(tail) else Installing(tail))
               && busy == {}
      modifies this`disk, this`cache, this`busy, this`pins, this`phase, this`headIn
      ensures !ok ==> Valid()
      ensures ok ==> ValidList(LenAfter(tail, n)) && pins <= old(pins) && busy == {}
      ensures ok ==> Goes(c, old(Now()), [], AbsList(LenAfter(tail, n)))
      ensures ok ==> phase == PhaseAfter(recovering, tail, n)
      ensures |old(Used())| + (if recovering then 2 else 1) <= NBUF ==> ok
    {
      hide Reachable, Goes, Fits, References, Bounded, LenAfter, PhaseAfter;
      CopyReady(tail);
      var r := BreadBoth(c.start + tail + 1, block[tail]);
      if r.None? {
        return false;
      }
      ghost var mid := Now();
      PutHome(recovering, tail, r.value.0);
      SilentThen(c, old(Now()), mid, [], AbsList(LenAfter(tail, n)));
      BrelseAll(LenAfter(tail, n));
      ok := true;
    }

    /** install_trans: copies the logged blocks to their home locations. */
    method InstallTrans(recovering: bool) returns (ok: bool)
      requires Valid() && busy == {}
      requires if n > 0 then phase == (if recovering then Reinstalling(0) else Installing(0))
               else recovering && phase == Reclearing
      modifies this`disk, this`cache, this`busy, this`pins, this`phase, this`headIn
      ensures !ok ==> Valid()
      ensures ok ==> ValidList(0) && Goes(c, old(Now()), [], AbsList(0)) && busy == {} && pins <= old(pins)
      ensures ok ==> phase == if recovering then Reclearing else Clearing
      ensures |old(Used())| + (if recovering then 2 else 1) <= NBUF ==> ok
    {
      hide Reachable, Goes, Fits, References;
      var tail := 0;
      GoesNowhere(c, Now());
      while tail < n
        invariant 0 <= tail <= n && busy == {} && pins <= old(pins)
        invariant ValidList(if tail < n then n else 0)
        invariant Goes(c, old(Now()), [], AbsList(if tail < n then n else 0))
        invariant phase == if tail < n then (if recovering then Reinstalling(tail) else Installing(tail))
                           else if recovering then Reclearing else Clearing
      {
        ghost var s0 := Now();
        FewerReferences(old(pins), pins, held.Keys, busy, refs);
        ok := InstallNext(recovering, tail);
        if !ok {
          return;
        }
        SilentThen(c, old(Now()), s0, [], AbsList(if tail + 1 < n then n else 0));
        tail := tail + 1;
      }
      ok := true;
    }

    // ----- commit and recovery -----

    /** log.lh.n = 0; write_head(). */
    method EraseHead() returns (ok: bool)
      requires ValidList(0) && HeadOk() && (phase.Clearing? || phase.Reclearing?) && n <= LOGSIZE
      modifies this`head, this`hdr, this`cache, this`phase, this`n, this`headIn
      ensures Valid() && HeadOk() && n == 0
      ensures ok ==>
                phase == (if old(phase).Clearing? then Committed else Running) && Goes(c, old(AbsList(0)), [], Now())
      ensures |Used()| < NBUF ==> ok
    {
      hide Reachable, Goes, Fits, References;
      n := 0;
      ok := WriteHead();
    }

    /** The disk writes that come after the header: install, then erase the header. */
    method FinishCommit() returns (ok: bool)
      requires Valid() && HeadOk() && n > 0 && phase == Installing(0) && busy == {}
      modifies this`head, this`hdr, this`disk, this`cache, this`busy, this`pins, this`phase, this`n, this`headIn
      ensures Valid() && HeadOk()
      ensures ok ==> n == 0 && phase == Committed && busy == {}
      ensures ok ==> Goes(c, old(Now()), [], Now())
      ensures |old(Used())| < NBUF ==> ok
    {
      hide Reachable, Goes, Fits, References, Bounded, HeadOk;
      ok := InstallTrans(false);
      if ok {
        ghost var mid := AbsList(0);
        FewerReferences(old(pins), pins, held.Keys, busy, refs);
        ok := EraseHead();
        if ok { SilentThen(c, old(Now()), mid, [], Now()); }
      }
    }

    /** write_log, then the header: the transaction is committed. */
    method MakeCommit() returns (ok: bool)
      requires Valid() && HeadOk() && phase == WritingLog(0) && n > 0 && busy == {}
      modifies this`head, this`hdr, this`disk, this`cache, this`busy, this`phase, this`headIn
      ensures Valid() && HeadOk()
      ensures ok ==> phase == Installing(0) && busy == {} && Goes(c, old(Now()), [MakeDurable], Now())
      ensures |old(Used())| < NBUF ==> ok
      ensures |old(Used())| >= NBUF && c.start + 1 !in refs ==> !ok
    {
      hide Reachable, Goes, Fits, References, Bounded, HeadOk;
      ok := WriteLog();
      if ok {
        ghost var s1 := Now();
        ok := WriteHead();
        if ok { SilentThen(c, old(Now()), s1, [MakeDurable], Now()); }
      }
    }

    /** commit() with something to commit. */
    method CommitList() returns (ok: bool)
      requires Valid() && HeadOk() && phase == WritingLog(0) && n > 0 && busy == {}
      modifies this`head, this`hdr, this`disk, this`cache, this`busy, this`pins, this`phase, this`n, this`headIn
      ensures Valid() && HeadOk()
      ensures ok ==> n == 0 && phase == Committed && busy == {}
      ensures ok ==> Goes(c, old(Now()), [MakeDurable], Now())
      ensures |old(Used())| < NBUF ==> ok
      ensures |old(Used())| >= NBUF && c.start + 1 !in refs ==> !ok
    {
      hide Reachable, Goes, Fits, References, Bounded, HeadOk;
      ok := MakeCommit();
      if ok {
        ghost var s1 := Now();
        ok := FinishCommit();
        if ok { ThenSilent(c, old(Now()), [MakeDurable], s1, Now()); }
      }
    }

    /** commit(): never short of buffers if one is left when it starts.  With no references but
        the pins it completes if and only if the transaction has fewer than NBUF blocks. */
    method Commit() returns (ok: bool)
      requires Valid() && HeadOk() && phase == (if n > 0 then WritingLog(0) else Committed) && busy == {}
      modifies this`head, this`hdr, this`disk, this`cache, this`busy, this`pins, this`phase, this`n, this`headIn
      ensures Valid() && HeadOk()
      ensures ok ==> n == 0 && phase == Committed && busy == {}
      ensures ok ==> Goes(c, old(Now()), if old(n) > 0 then [MakeDurable] else [], Now())
      ensures old(n) == 0 || |old(pins) + refs| < NBUF ==> ok
      ensures refs == {} ==> (ok <==> old(n) < NBUF)
    {
      hide Reachable, Goes, Fits, References, Bounded, HeadOk;
      if n == 0 {
        GoesNowhere(c, Now());
        return true;
      }
      ReachUsed(c, Now());
      ReachPins(c, Now());
      OnlyPins(pins, held, refs);
      ok := CommitList();
    }

    /** read_head's loop. */
    method CopyList()
      requires block.Length == LOGSIZE && GetWord(head, 0) <= LOGSIZE
      modifies this`n, block
      ensures n == GetWord(head, 0) && block[..n] == HeaderWords(head, n)
    {
      n := GetWord(head, 0);
      var i := 0;
      while i < n
        invariant 0 <= i <= n == GetWord(head, 0) <= LOGSIZE
        invariant block[..i] == HeaderWords(head, i)
      {
        block[i] := GetWord(head, i + 1);
        i := i + 1;
      }
    }

    /** read_head: loads the list from the header block. */
    method ReadHead()
      requires Valid() && HeadOk() && phase == Rebooted
      modifies this`n, this`phase, block
      ensures Valid() && n == |hdr| && block[..n] == hdr
      ensures phase == if n > 0 then Reinstalling(0) else Reclearing
      ensures Goes(c, old(Now()), [], Now())
    {
      hide Reachable, Goes, Fits, References;
      ReachFacts(c, Now());
      ReadHeadGoes(c, Now());
      CopyList();
      phase := if n > 0 then Reinstalling(0) else Reclearing;
      ReachOn(c, old(Now()), [], Now());
    }

    /** The disk writes of recovery. */
    method ReinstallAndClear() returns (ok: bool)
      requires Valid() && HeadOk() && phase == (if n > 0 then Reinstalling(0) else Reclearing) && busy == {}
      modifies this`head, this`hdr, this`disk, this`cache, this`busy, this`pins, this`phase, this`n, this`headIn
      ensures Valid() && HeadOk()
      ensures ok ==> n == 0 && phase == Running && busy == {} && Goes(c, old(Now()), [], Now())
      ensures |old(Used())| + 2 <= NBUF ==> ok
    {
      hide Reachable, Goes, Fits, References, Bounded, HeadOk;
      ok := InstallTrans(true);
      if ok {
        ghost var mid := AbsList(0);
        FewerReferences(old(pins), pins, held.Keys, busy, refs);
        ok := EraseHead();
        if ok { SilentThen(c, old(Now()), mid, [], Now()); }
      }
    }

    /** recover_from_log: afterwards the home blocks hold what the disk before it promised.  It
        needs two buffers. */
    method RecoverFromLog() returns (ok: bool)
      requires Valid() && HeadOk() && phase == Rebooted && busy == {}
      modifies this`head, this`hdr, this`disk, this`cache, this`busy, this`pins, this`phase, this`n, this`headIn, block
      ensures Valid() && HeadOk()
      ensures ok ==> n == 0 && phase == Running && busy == {} && Goes(c, old(Now()), [], Now())
      ensures c.Wf() && GoodDisk(c, old(disk)) && GoodDisk(c, disk) && GoodList(c, old(hdr))
      ensures ok ==> forall b :: c.Home(b) ==> disk[b] == RecoveredAt(c, old(disk), old(hdr), b)
      ensures |old(refs)| + 2 <= NBUF ==> ok
    {
      hide Reachable, Goes, Fits, References;
      NoPins(c, Now());
      OnlyPins(pins, held, refs);
      assert {} + refs == refs;
      ReachFacts(c, Now());
      ok := BreadHead();
      ghost var s1 := Now();
      if ok {
        ReadHead();
        ghost var s2 := Now();
        SilentThen(c, old(Now()), s1, [], s2);
        ok := ReinstallAndClear();
        if ok {
          SilentThen(c, old(Now()), s2, [], Now());
          RecoveryYields(c, old(Now()), Now());
        }
      }
      ReachFacts(c, Now());
    }

    // ----- system calls -----

    /** One pass of begin_op's loop: admitted, or asleep on the log. */
    method BeginOp(p: Pid) returns (admitted: bool)
      requires Valid() && !Recovering(Now()) && p !in ops && p !in sleepers
      modifies this`outstanding, this`ops, this`sleepers
      ensures Valid() && admitted == !(committing || n + (old(outstanding) + 1) * MAXOPBLOCKS > LOGSIZE)
      ensures Goes(c, old(Now()), if admitted then [Start(p)] else [], Now())
      ensures admitted ==> outstanding == old(outstanding) + 1 && ops == old(ops)[p := 0]
      ensures !admitted ==> outstanding == old(outstanding) && ops == old(ops) && sleepers == old(sleepers) + {p}
    {
      hide Reachable, Goes, Fits, References;
      if committing {
        WaitGoes(c, Now(), p);
        sleepers := sleepers + {p};
        admitted := false;
      } else if n + (outstanding + 1) * MAXOPBLOCKS > LOGSIZE {
        WaitGoes(c, Now(), p);
        sleepers := sleepers + {p};
        admitted := false;
      } else {
        BeginGoes(c, Now(), p);
        outstanding := outstanding + 1;
        ops := ops[p := 0];
        assert ops.Keys == old(ops.Keys) + {p};
        admitted := true;
      }
      ReachOn(c, old(Now()), if admitted then [Start(p)] else [], Now());
    }

    /** A client's bread and change of b->data; false if there is no buffer for the block. */
    method Modify(p: Pid, b: nat, data: Block) returns (ok: bool)
      requires Valid() && p in ops && c.Home(b) && (b in held ==> held[b] == p) && busy == {}
      modifies this`cache, this`held, this`busy, this`headIn
      ensures Valid() && busy == {}
      ensures ok <==> b in old(cache) || |old(Used())| < NBUF
      ensures ok ==> b in cache && cache[b] == data && held == old(held)[b := p]
      ensures ok ==> Goes(c, old(Now()), [Put(p, b, data)], Now())
      ensures !ok ==> Now() == old(Now())
    {
      hide Reachable, Goes, Fits, References;
      var d := Bread(b);
      ok := d.Some?;
      if ok {
        ghost var mid := Now();
        FitsIdle(cache.Keys, busy, refs, headIn);
        busy := {};
        Change(p, b, data);
        SilentThen(c, old(Now()), mid, [Put(p, b, data)], Now());
      }
    }

    /** The change itself, to a buffer the client has. */
    method Change(p: Pid, b: nat, data: Block)
      requires Valid() && p in ops && c.Home(b) && (b in held ==> held[b] == p) && b in cache
      modifies this`cache, this`held
      ensures Valid() && cache == old(cache)[b := data] && held == old(held)[b := p]
      ensures Goes(c, old(Now()), [Put(p, b, data)], Now())
    {
      hide Reachable, Goes, Fits, References;
      ModifyGoes(c, Now(), p, b, data);
      cache := cache[b := data];
      assert cache.Keys == old(cache.Keys);
      held := held[b := p];
      ReachOn(c, old(Now()), [Put(p, b, data)], Now());
    }

    /** log_write's search for the block. */
    method FindListed(b: nat) returns (i: nat)
      requires n <= block.Length
      ensures i <= n && b !in block[..i] && (i < n ==> block[i] == b)
    {
      i := 0;
      while i < n && block[i] != b
        invariant 0 <= i <= n && b !in block[..i]
      {
        i := i + 1;
      }
    }

    /** log_write and brelse: absorbed if the block is listed already, else listed and pinned; false is
        the panic "too big a transaction", met exactly when the log is full. */
    method LogWrite(p: Pid, b: nat) returns (ok: bool)
      requires Valid() && p in ops && b in held && held[b] == p && (b in block[..n] || ops[p] < MAXOPBLOCKS)
      modifies this`held, this`pins, this`n, this`ops, block
      ensures Valid() && ok == (old(n) < LOGSIZE && old(n) < c.size - 1)
      ensures !ok ==> Now() == old(Now())
      ensures ok ==> held == old(held) - {b} && Goes(c, old(Now()), [], Now())
      ensures ok ==> if b in old(block[..n]) then n == old(n) && block[..n] == old(block[..n]) && pins == old(pins)
                     else n == old(n) + 1 && block[..n] == old(block[..n]) + [b] && pins == old(pins) + {b}
    {
      hide Reachable, Goes, Fits, References;
      if n >= LOGSIZE || n >= c.size - 1 {
        return false;
      }
      var i := FindListed(b);
      ghost var list := block[..n];
      if i < n {
        assert list[i] == b;
        Absorb(p, b, i);
      } else {
        Append(p, b);
      }
      ok := true;
    }

    /** The block is in the list already. */
    method Absorb(p: Pid, b: nat, i: nat)
      requires Valid() && p in ops && b in held && held[b] == p && n < LOGSIZE && n < c.size - 1
      requires i < n && block[i] == b
      modifies this`held, block
      ensures Valid() && held == old(held) - {b} && Goes(c, old(Now()), [], Now()) && block[..n] == old(block[..n])
    {
      hide Reachable, Goes, Fits, References;
      ghost var list := block[..n];
      assert list[i] == b;
      LogWriteGoes(c, Now(), p, b);
      block[i] := b;
      assert block[..n] == list;
      held := held - {b};
      ReachOn(c, old(Now()), [], Now());
    }

    method Enlist(b: nat)
      requires n < block.Length
      modifies this`n, block
      ensures n == old(n) + 1 && block[..n] == old(block[..n]) + [b]
    {
      block[n] := b;
      n := n + 1;
    }

    /** The block is new in the list. */
    method Append(p: Pid, b: nat)
      requires Valid() && p in ops && b in held && held[b] == p && n < LOGSIZE && n < c.size - 1
      requires b !in block[..n] && ops[p] < MAXOPBLOCKS
      modifies this`held, this`pins, this`n, this`ops, block
      ensures Valid() && held == old(held) - {b} && Goes(c, old(Now()), [], Now())
      ensures n == old(n) + 1 && block[..n] == old(block[..n]) + [b] && pins == old(pins) + {b}
    {
      hide Reachable, Goes, Fits, References;
      Enlist(b);
      pins := pins + {b};
      ops := ops[p := ops[p] + 1];
      assert ops.Keys == old(ops.Keys);
      held := held - {b};
      AppendGoes(c, old(Now()), p, b, Now());
    }

    /** end_op's first section. */
    method Leave(p: Pid) returns (doCommit: bool)
      requires Valid() && p in ops && forall b :: b in held ==> held[b] != p
      modifies this`outstanding, this`committing, this`ops, this`sleepers, this`phase
      ensures Valid() && outstanding == old(outstanding) - 1 && ops == old(ops) - {p}
      ensures doCommit == (outstanding == 0) && Goes(c, old(Now()), [Stop(p)], Now())
      ensures doCommit ==> committing && phase == if n > 0 then WritingLog(0) else Committed
      ensures !doCommit ==> committing == old(committing) && phase == old(phase) && sleepers == {}
    {
      hide Reachable, Goes, Fits, References;
      assert (ops - {p}).Keys == ops.Keys - {p};
      outstanding := outstanding - 1;
      if outstanding == 0 {
        assert |(ops - {p}).Keys| == 0;
        assert ops - {p} == map[];
        LeaveLast(p);
        doCommit := true;
      } else {
        LeaveOthers(p);
        doCommit := false;
      }
    }

    method LeaveLast(p: Pid)
      requires block.Length == LOGSIZE && n <= LOGSIZE && outstanding == 0 && Bounded() && Reachable(c, Now())
      requires p in ops && ops - {p} == map[] && forall b :: b in held ==> held[b] != p
      modifies this`committing, this`ops, this`phase
      ensures Valid() && ops == map[] && committing && phase == (if n > 0 then WritingLog(0) else Committed)
      ensures Goes(c, old(Now()), [Stop(p)], Now())
    {
      hide Reachable, Goes, Fits, References;
      EndGoes(c, Now(), p);
      ops := map[];
      committing := true;
      phase := if n > 0 then WritingLog(0) else Committed;
      ReachOn(c, old(Now()), [Stop(p)], Now());
    }

    method LeaveOthers(p: Pid)
      requires block.Length == LOGSIZE && n <= LOGSIZE && outstanding == |ops - {p}| && Bounded() && Reachable(c, Now())
      requires p in ops && ops - {p} != map[] && forall b :: b in held ==> held[b] != p
      modifies this`ops, this`sleepers
      ensures Valid() && ops == old(ops) - {p} && sleepers == {} && Goes(c, old(Now()), [Stop(p)], Now())
    {
      hide Reachable, Goes, Fits, References;
      EndGoes(c, Now(), p);
      ops := ops - {p};
      sleepers := {};
      ReachOn(c, old(Now()), [Stop(p)], Now());
    }

    /** end_op's last section. */
    method Reopen()
      requires Valid() && phase == Committed
      modifies this`committing, this`sleepers, this`phase
      ensures Valid() && phase == Running && !committing && sleepers == {} && Goes(c, old(Now()), [], Now())
    {
      hide Reachable, Goes, Fits, References;
      FinishGoes(c, Now());
      committing := false;
      sleepers := {};
      phase := Running;
      ReachOn(c, old(Now()), [], Now());
    }

    /** The part of end_op after the last operation has left. */
    method CommitAndReopen() returns (ok: bool)
      requires Valid() && HeadOk() && phase == (if n > 0 then WritingLog(0) else Committed) && busy == {}
      modifies this`committing, this`sleepers, this`phase, this`head, this`hdr, this`disk, this`cache,
               this`busy, this`pins, this`n, this`headIn
      ensures Valid() && HeadOk()
      ensures ok ==> phase == Running && !committing && n == 0 && sleepers == {} && busy == {}
      ensures ok ==> Goes(c, old(Now()), if old(n) > 0 then [MakeDurable] else [], Now())
      ensures old(n) == 0 || |old(pins) + refs| < NBUF ==> ok
      ensures refs == {} ==> (ok <==> old(n) < NBUF)
    {
      hide Reachable, Goes, Fits, References, Bounded, HeadOk;
      ok := Commit();
      if ok {
        ghost var mid := Now();
        Reopen();
        ThenSilent(c, old(Now()), if old(n) > 0 then [MakeDurable] else [], mid, Now());
      }
    }

    /** end_op: the last operation out makes everything written so far durable, in place.  It falls short of
        buffers only if all are pinned or referenced, which takes a log region of more than NBUF blocks when no
        other process has buffers. */
    method EndOp(p: Pid) returns (ok: bool)
      requires Valid() && HeadOk() && p in ops && (forall b :: b in held ==> held[b] != p) && busy == {}
      modifies this`outstanding, this`committing, this`ops, this`sleepers, this`phase,
               this`head, this`hdr, this`disk, this`cache, this`busy, this`pins, this`n, this`headIn
      ensures Valid() && HeadOk() && outstanding == old(outstanding) - 1 && ops == old(ops) - {p}
      ensures ok ==>
                Goes(c, old(Now()), [Stop(p)] + (if outstanding == 0 && old(n) > 0 then [MakeDurable] else []), Now())
      ensures ok && outstanding == 0 ==> phase == Running && !committing && n == 0
      ensures c.Wf() && GoodDisk(c, old(disk)) && GoodDisk(c, disk)
      ensures ok && outstanding == 0 ==>
        forall b :: c.Home(b) ==> disk[b] == if b in old(cache) then old(cache)[b] else old(disk)[b]
      ensures outstanding > 0 || |old(pins) + refs| < NBUF ==> ok
      ensures refs == {} ==> (ok <==> outstanding > 0 || old(n) < NBUF)
      ensures refs == {} && c.size <= NBUF ==> ok
    {
      hide Reachable, Goes, Fits, References, Bounded, HeadOk;
      ReachFacts(c, Now());
      var doCommit := Leave(p);
      ghost var mid := Now();
      if doCommit {
        ok := CommitAndReopen();
        if ok {
          GoesOn(c, old(Now()), [Stop(p)], mid, if old(n) > 0 then [MakeDurable] else [], Now());
          EndYields(c, old(Now()), p, old(n) > 0, Now());
        } else {
          ReachFacts(c, Now());
        }
      } else {
        GoesNowhere(c, Now());
        GoesOn(c, old(Now()), [Stop(p)], mid, [], Now());
        ok := true;
      }
    }
  }

  /** initlog: after it the home blocks hold what the disk promised, and no operation is in progress. */
  method Initlog(c: Config, d: map<nat, Block>, h: Block) returns (log: Log)
    requires c.Wf() && GoodDisk(c, d) && HeaderFits(h) && GoodList(c, DecodeHeader(h))
    ensures fresh(log) && fresh(log.block) && log.c == c && log.Valid() && log.HeadOk()
    ensures log.phase == Running && log.n == 0 && log.hdr == [] && log.ops == map[] && GoodDisk(c, log.disk)
    ensures forall b :: c.Home(b) ==> log.disk[b] == RecoveredAt(c, d, DecodeHeader(h), b)
  {
    hide Reachable, Goes, Fits, References, HeaderFits, DecodeHeader;
    log := new Log(c, d, h);
    var ok := log.RecoverFromLog();
    Idle(c, log.Now());
  }

  lemma Idle<D(!new)>(c: Config, s: State<D>)
    requires Reachable(c, s) && s.phase == Running && s.lh == []
    ensures s.hdr == []
  {
    ReachInv(c, s);
  }

  lemma NoPins<D(!new)>(c: Config, s: State<D>)
    requires Reachable(c, s) && s.phase == Rebooted
    ensures s.pins == {} && s.held == map[]
  {
    ReachInv(c, s);
  }

  // ----- what the events mean for the disk -----

  lemma RecoveryYields<D(!new)>(c: Config, s: State<D>, t: State<D>)
    requires Reachable(c, s) && Goes(c, s, [], t) && s.phase == Rebooted && t.phase == Running
    ensures c.Wf() && GoodDisk(c, s.disk) && GoodDisk(c, t.disk) && GoodList(c, s.hdr)
    ensures forall b :: c.Home(b) ==> t.disk[b] == RecoveredAt(c, s.disk, s.hdr, b)
  {
    ReachInv(c, s);
    GoesImage(c, s, [], t);
    QuiescentDisk(c, t);
    forall b | c.Home(b)
      ensures t.disk[b] == RecoveredAt(c, s.disk, s.hdr, b)
    {
      assert t.disk[b] == Abs(c, t).durable[b] == Abs(c, s).durable[b];
    }
  }

  lemma EndYields<D(!new)>(c: Config, s: State<D>, p: Pid, some: bool, t: State<D>)
    requires Reachable(c, s) && p in s.ops && t.phase == Running && t.ops == map[]
    requires Goes(c, s, [Stop(p)] + (if some then [MakeDurable] else []), t)
    ensures c.Wf() && GoodDisk(c, s.disk) && GoodDisk(c, t.disk)
    ensures forall b :: c.Home(b) ==> t.disk[b] == Read(s, b)
  {
    var es: seq<Event<D>> := [Stop(p)] + (if some then [MakeDurable] else []);
    ReachInv(c, s);
    GoesImage(c, s, es, t);
    QuiescentDisk(c, t);
    EndEvents(Abs(c, s), p, some);
    forall b | c.Home(b)
      ensures t.disk[b] == Read(s, b)
    {
      assert t.disk[b] == Abs(c, t).durable[b] == Abs(c, t).current[b] == View(c, s)[b];
    }
  }

  lemma EndEvents<D>(a: Store<D>, p: Pid, some: bool)
    ensures ApplyEvents(a, [Stop(p)] + (if some then [MakeDurable] else [])).current == a.current
  {
    var stop: seq<Event<D>> := [Stop(p)];
    assert stop[..0] == [] && (stop + [MakeDurable])[..1] == stop && stop + [] == stop;
    assert ApplyEvents(a, stop) == ApplyEvent(a, Stop(p));
  }
}
