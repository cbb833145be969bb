/** bio.c under log.c: the log's device as the buffer cache keeps it, over whole runs.

    The buffers are tied to a state of the log protocol that its steps reach from power-on.  A
    block is cached there exactly when a valid buffer holds it, with the same contents.  The reference
    count of a buffer is the number of its users, plus one if log_write has pinned the block, plus one if
    a client has changed it and not logged it yet.  So bget, which only looks at the counts, never
    takes the buffer of a pending block. */
module LogBuffers {
  import opened Common
  import opened Blocks
  import opened BufferCache
  import opened LogHeader
  import opened LogProtocol
  import opened CrashSafety
  import opened LogTrace
  import LogCode

  const DEV := 1

  /** The block is in the pending transaction, or changed and about to be. */
  ghost predicate Pending(s: State<Block>, b: nat) {
    b in s.pins || b in s.held
  }

  /** The references that the log and its clients have on a pending block's buffer. */
  ghost function Need(s: State<Block>, b: nat): nat {
    (if b in s.pins then 1 else 0) + (if b in s.held then 1 else 0)
  }

  /** Buffer i holds block b of the log's device, the header aside. */
  ghost predicate Copy(c: Config, buf: seq<Buf>, b: nat, i: int) {
    0 <= i < |buf| && b != c.start && buf[i].valid && buf[i].Holds(DEV, b)
  }

  /** Disk and buffers have the contents that the protocol's state gives them. */
  ghost predicate Tied(c: Config, s: State<Block>, buf: seq<Buf>, disk: BufferCache.Disk) {
    && (forall b :: b in s.disk && b != c.start ==> (DEV, b) in disk && disk[(DEV, b)] == s.disk[b])
    && (forall b :: b in s.cache ==> exists i :: Copy(c, buf, b, i))
    && (forall b, i :: Copy(c, buf, b, i) ==> b in s.cache && s.cache[b] == buf[i].data)
  }

  /** The header block holds the list on disk, and its buffer never differs from it. */
  ghost predicate HeadTied(c: Config, hdr: seq<nat>, buf: seq<Buf>, disk: BufferCache.Disk) {
    && (DEV, c.start) in disk && HeaderFits(disk[(DEV, c.start)]) && DecodeHeader(disk[(DEV, c.start)]) == hdr
    && forall i :: 0 <= i < |buf| && buf[i].valid && buf[i].Holds(DEV, c.start) ==> buf[i].data == disk[(DEV, c.start)]
  }

  ghost function Claims(s: State<Block>, x: Buf): nat {
    if x.dev == DEV then Need(s, x.blockno) else 0
  }

  /** A locked buffer has a user, or a client has changed it and not logged it yet. */
  ghost predicate LockedBy(s: State<Block>, x: Buf, n: nat) {
    x.locked ==> n > 0 || (x.dev == DEV && x.blockno in s.held)
  }

  /** Every reference is accounted for. */
  ghost predicate Counted(s: State<Block>, buf: seq<Buf>, users: seq<nat>) {
    && |users| == |buf|
    && forall i :: 0 <= i < |buf| ==> buf[i].refcnt == users[i] + Claims(s, buf[i]) && LockedBy(s, buf[i], users[i])
  }

  /** Pins and claims differ at block b at most. */
  ghost predicate SameClaims(s: State<Block>, s': State<Block>, b: nat) {
    forall e: nat :: e != b ==> (e in s'.pins <==> e in s.pins) && (e in s'.held <==> e in s.held)
  }

  ghost predicate Backs(c: Config, s: State<Block>, buf: seq<Buf>, disk: BufferCache.Disk, users: seq<nat>) {
    Tied(c, s, buf, disk) && HeadTied(c, s.hdr, buf, disk) && Counted(s, buf, users) && Reachable(c, s)
  }

  /** The buffers of pending blocks stay where they are, with their data. */
  ghost predicate Stay(c: Config, s: State<Block>, buf: seq<Buf>, buf': seq<Buf>) {
    forall b, i :: Copy(c, buf, b, i) && Pending(s, b) ==> Copy(c, buf', b, i) && buf'[i].data == buf[i].data
  }

  /** Every block reads the same. */
  ghost predicate SameReads(s: State<Block>, s': State<Block>) {
    s'.disk == s.disk && forall b: nat :: b in s.disk ==> Read(s', b) == Read(s, b)
  }

  // ----- what reachability gives -----

  lemma PendingFacts(c: Config, s: State<Block>)
    requires Reachable(c, s)
    ensures forall b: nat :: Pending(s, b) ==> b in s.cache && b in s.disk && c.Home(b)
    ensures forall b: nat :: b in s.cache && !Pending(s, b) ==> b in s.disk && s.cache[b] == s.disk[b]
    ensures forall b: nat :: b in s.disk <==> b < c.nblocks
    ensures c.Wf()
  {
    ReachInv(c, s);
  }

  // ----- one buffer changes -----

  /** The buffer of block b gets other data or bookkeeping, and the protocol's state follows. */
  lemma TiedAt(c: Config, s: State<Block>, s': State<Block>, buf: seq<Buf>, disk: BufferCache.Disk,
               disk': BufferCache.Disk, k: nat, b: nat, x: Buf)
    requires Tied(c, s, buf, disk) && Unique(buf) && Copy(c, buf, b, k) && b in s.disk && b in s'.disk
    requires x.valid && x.Holds(DEV, b) && s'.cache == s.cache[b := x.data]
    requires s'.disk == s.disk[b := s'.disk[b]] && disk' == disk[(DEV, b) := s'.disk[b]]
    ensures Tied(c, s', buf[k := x], disk')
  {
    var buf' := buf[k := x];
    forall e | e in s'.cache
      ensures exists i :: Copy(c, buf', e, i)
    {
      if e == b { assert Copy(c, buf', b, k); } else {
        var i :| Copy(c, buf, e, i);
        assert Copy(c, buf', e, i);
      }
    }
    forall e, i | Copy(c, buf', e, i)
      ensures e in s'.cache && s'.cache[e] == buf'[i].data
    {
      assert Copy(c, buf, e, i);
      assert e == b ==> i == k;
    }
  }

  /** A buffer that holds no block of the protocol's is replaced by another such. */
  lemma TiedAside(c: Config, s: State<Block>, buf: seq<Buf>, disk: BufferCache.Disk, k: nat, x: Buf)
    requires Tied(c, s, buf, disk) && k < |buf| && !Copy(c, buf, buf[k].blockno, k)
    requires !(x.valid && x.dev == DEV && x.blockno != c.start)
    ensures Tied(c, s, buf[k := x], disk)
  {
    var buf' := buf[k := x];
    forall e | e in s.cache
      ensures exists i :: Copy(c, buf', e, i)
    {
      var i :| Copy(c, buf, e, i);
      assert Copy(c, buf', e, i);
    }
    forall e, i | Copy(c, buf', e, i)
      ensures e in s.cache && s.cache[e] == buf'[i].data
    {
      assert Copy(c, buf, e, i);
    }
  }

  /** The buffer of a block is renamed. */
  lemma TiedDrop(c: Config, s: State<Block>, buf: seq<Buf>, disk: BufferCache.Disk, k: nat, v: nat, x: Buf)
    requires Tied(c, s, buf, disk) && Unique(buf) && Copy(c, buf, v, k) && !x.valid
    ensures v in s.cache && Tied(c, s.(cache := s.cache - {v}), buf[k := x], disk)
  {
    var s', buf' := s.(cache := s.cache - {v}), buf[k := x];
    forall b | b in s'.cache
      ensures exists i :: Copy(c, buf', b, i)
    {
      var i :| Copy(c, buf, b, i);
      assert Copy(c, buf', b, i);
    }
    forall b, i | Copy(c, buf', b, i)
      ensures b in s'.cache && s'.cache[b] == buf'[i].data
    {
      assert Copy(c, buf, b, i);
    }
  }

  /** A buffer is filled from the disk. */
  lemma TiedFill(c: Config, s: State<Block>, buf: seq<Buf>, disk: BufferCache.Disk, k: nat, b: nat, x: Buf)
    requires Tied(c, s, buf, disk) && Unique(buf) && k < |buf| && b in s.disk && b != c.start
    requires buf[k].Holds(DEV, b) && !buf[k].valid && x.Holds(DEV, b) && x.valid && x.data == s.disk[b]
    ensures b !in s.cache && Tied(c, s.(cache := s.cache[b := s.disk[b]]), buf[k := x], disk)
  {
    var buf' := buf[k := x];
    assert forall i :: !Copy(c, buf, b, i);
    var s' := s.(cache := s.cache[b := s.disk[b]]);
    forall e | e in s'.cache
      ensures exists i :: Copy(c, buf', e, i)
    {
      if e == b { assert Copy(c, buf', b, k); } else {
        var i :| Copy(c, buf, e, i);
        assert i != k && Copy(c, buf', e, i);
      }
    }
    forall e, i | Copy(c, buf', e, i)
      ensures e in s'.cache && s'.cache[e] == buf'[i].data
    {
      if i != k { assert Copy(c, buf, e, i); }
    }
  }

  lemma CountedAt(s: State<Block>, s': State<Block>, buf: seq<Buf>, users: seq<nat>, k: nat, b: nat, x: Buf, n: nat)
    requires Counted(s, buf, users) && Unique(buf) && k < |buf| && x.refcnt == n + Claims(s', x) && LockedBy(s', x, n)
    requires (s'.pins == s.pins && s'.held == s.held) || (buf[k].Holds(DEV, b) && SameClaims(s, s', b))
    ensures Counted(s', buf[k := x], users[k := n])
  {}

  // ----- and everything stays tied -----

  lemma BacksAt(c: Config, s: State<Block>, s': State<Block>, buf: seq<Buf>, disk: BufferCache.Disk,
                disk': BufferCache.Disk, users: seq<nat>, k: nat, b: nat, x: Buf, n: nat)
    requires Backs(c, s, buf, disk, users) && Unique(buf) && Copy(c, buf, b, k) && Reachable(c, s') && b in s'.disk
    requires x.valid && x.Holds(DEV, b) && s'.cache == s.cache[b := x.data] && s'.hdr == s.hdr
    requires b in s.disk && s'.disk == s.disk[b := s'.disk[b]] && disk' == disk[(DEV, b) := s'.disk[b]]
    requires x.refcnt == n + Need(s', b) && SameClaims(s, s', b) && LockedBy(s', x, n)
    ensures Backs(c, s', buf[k := x], disk', users[k := n])
  {
    hide Tied, Counted, Reachable, Need, LockedBy;
    TiedAt(c, s, s', buf, disk, disk', k, b, x);
    CountedAt(s, s', buf, users, k, b, x, n);
  }

  lemma BacksAside(c: Config, s: State<Block>, buf: seq<Buf>, disk: BufferCache.Disk, users: seq<nat>, k: nat, x: Buf,
                   n: nat)
    requires Backs(c, s, buf, disk, users) && Unique(buf) && k < |buf| && !Copy(c, buf, buf[k].blockno, k)
    requires !(x.valid && x.dev == DEV && x.blockno != c.start) && x.refcnt == n + Claims(s, x) && LockedBy(s, x, n)
    requires x.valid && x.Holds(DEV, c.start) ==> (DEV, c.start) in disk && x.data == disk[(DEV, c.start)]
    ensures Backs(c, s, buf[k := x], disk, users[k := n])
  {
    hide Tied, Counted, Reachable, Claims;
    TiedAside(c, s, buf, disk, k, x);
    CountedAt(s, s, buf, users, k, 0, x, n);
  }

  /** No one needs an unreferenced buffer. */
  lemma Unreferenced(c: Config, s: State<Block>, buf: seq<Buf>, disk: BufferCache.Disk, users: seq<nat>, k: nat, x: Buf)
    requires Backs(c, s, buf, disk, users) && Unique(buf) && k < |buf| && buf[k].refcnt == 0
    ensures |users| == |buf| && users[k] == 0 && Stay(c, s, buf, buf[k := x]) && !buf[k].locked
    ensures Copy(c, buf, buf[k].blockno, k) ==> !Pending(s, buf[k].blockno)
  {
    hide Reachable, HeaderFits, DecodeHeader, Tied;
  }

  lemma NotCached(c: Config, s: State<Block>, buf: seq<Buf>, disk: BufferCache.Disk, b: nat)
    requires Tied(c, s, buf, disk) && forall i :: 0 <= i < |buf| ==> !buf[i].Holds(DEV, b)
    ensures b !in s.cache
  {
    assert forall i :: !Copy(c, buf, b, i);
  }

  /** Renaming an unreferenced buffer is the eviction of a block the protocol lets go, or nothing. */
  lemma BacksRecycle(c: Config, s: State<Block>, buf: seq<Buf>, disk: BufferCache.Disk, users: seq<nat>, k: nat, b: nat,
                     x: Buf)
    returns (s': State<Block>)
    requires Backs(c, s, buf, disk, users) && Unique(buf) && k < |buf| && buf[k].refcnt == 0
    requires !x.valid && x.Holds(DEV, b) && x.refcnt == 1 && forall i :: 0 <= i < |buf| ==> !buf[i].Holds(DEV, b)
    ensures Backs(c, s', buf[k := x], disk, users[k := 1]) && Goes(c, s, [], s') && s' == s.(cache := s'.cache)
    ensures |users| == |buf| && users[k] == 0 && Stay(c, s, buf, buf[k := x]) && SameReads(s, s')
  {
    hide Goes, Reachable, HeaderFits, DecodeHeader, Tied, Counted, Stay;
    var v := buf[k].blockno;
    Unreferenced(c, s, buf, disk, users, k, x);
    NotCached(c, s, buf, disk, b);
    PendingFacts(c, s);
    if Copy(c, buf, v, k) {
      TiedDrop(c, s, buf, disk, k, v, x);
      EvictGoes(c, s, v);
      s' := s.(cache := s.cache - {v});
      ReachOn(c, s, [], s');
    } else {
      TiedAside(c, s, buf, disk, k, x);
      GoesNowhere(c, s);
      s' := s;
    }
    CountedAt(s, s', buf, users, k, b, x, 1);
  }

  /** Filling a buffer from the disk is the protocol's load. */
  lemma BacksFill(c: Config, s: State<Block>, buf: seq<Buf>, disk: BufferCache.Disk, users: seq<nat>, k: nat, b: nat,
                  x: Buf)
    returns (s': State<Block>)
    requires Backs(c, s, buf, disk, users) && Unique(buf) && k < |buf| && b in s.disk && b != c.start
    requires buf[k].Holds(DEV, b) && !buf[k].valid && x == buf[k].(locked := x.locked, valid := true, data := s.disk[b])
    requires |users| == |buf| && users[k] > 0
    ensures Backs(c, s', buf[k := x], disk, users) && Goes(c, s, [], s')
    ensures s' == s.(cache := s.cache[b := s.disk[b]]) && b !in s.cache && SameReads(s, s')
  {
    hide Goes, Reachable, Tied, Counted, HeaderFits, DecodeHeader;
    TiedFill(c, s, buf, disk, k, b, x);
    LoadGoes(c, s, b);
    s' := s.(cache := s.cache[b := s.disk[b]]);
    ReachOn(c, s, [], s');
    Users(s, buf, users, k);
    CountedAt(s, s', buf, users, k, b, x, users[k]);
    assert users[k := users[k]] == users;
  }

  lemma Users(s: State<Block>, buf: seq<Buf>, users: seq<nat>, k: nat)
    requires Counted(s, buf, users) && k < |buf|
    ensures |users| == |buf| && buf[k].refcnt == users[k] + Claims(s, buf[k]) && LockedBy(s, buf[k], users[k])
  {}

  /** A step of the protocol that touches no buffer. */
  lemma BacksQuiet(c: Config, s: State<Block>, s': State<Block>, buf: seq<Buf>, disk: BufferCache.Disk, users: seq<nat>)
    requires Backs(c, s, buf, disk, users) && Reachable(c, s')
    requires s'.disk == s.disk && s'.hdr == s.hdr && s'.cache == s.cache && s'.pins == s.pins && s'.held == s.held
    ensures Backs(c, s', buf, disk, users)
  {
    hide Reachable, HeaderFits, DecodeHeader;
  }

  /** The header's buffer is changed and written. */
  lemma BacksHead(c: Config, s: State<Block>, s': State<Block>, buf: seq<Buf>, disk: BufferCache.Disk, users: seq<nat>,
                  k: nat, d: Block)
    requires Backs(c, s, buf, disk, users) && Unique(buf) && k < |buf| && buf[k].Holds(DEV, c.start)
    requires Reachable(c, s') && HeaderFits(d) && DecodeHeader(d) == s'.hdr
    requires s'.disk == s.disk && s'.cache == s.cache && s'.pins == s.pins && s'.held == s.held
    ensures Backs(c, s', buf[k := buf[k].(data := d)], disk[(DEV, c.start) := d], users)
  {
    hide Reachable, HeaderFits, DecodeHeader;
    var x := buf[k].(data := d);
    TiedAside(c, s, buf, disk, k, x);
    CountedAt(s, s', buf, users, k, c.start, x, users[k]);
    assert users[k := users[k]] == users;
  }

  /** binit, with the disk as found. */
  lemma BacksInit(c: Config, s: State<Block>, buf: seq<Buf>, disk: BufferCache.Disk, users: seq<nat>)
    requires Reachable(c, s) && s.cache == map[] && s.pins == {} && s.held == map[]
    requires forall b :: b in s.disk && b != c.start ==> (DEV, b) in disk && disk[(DEV, b)] == s.disk[b]
    requires (DEV, c.start) in disk && HeaderFits(disk[(DEV, c.start)]) && DecodeHeader(disk[(DEV, c.start)]) == s.hdr
    requires forall i :: 0 <= i < |buf| ==> !buf[i].valid && buf[i].refcnt == 0 && !buf[i].locked
    requires |users| == |buf| && forall i :: 0 <= i < |buf| ==> users[i] == 0
    ensures Backs(c, s, buf, disk, users)
  {
    hide Reachable, HeaderFits, DecodeHeader;
  }

  // ----- what a buffer's user may rely on -----

  /** The contents of a block as a bread gives them. */
  ghost function Shown(c: Config, s: State<Block>, disk: BufferCache.Disk, b: nat): Block
    requires b in s.disk && (DEV, c.start) in disk
  {
    if b == c.start then disk[(DEV, c.start)] else Read(s, b)
  }

  lemma BlockFacts(c: Config, s: State<Block>, buf: seq<Buf>, disk: BufferCache.Disk, users: seq<nat>, b: nat)
    requires Backs(c, s, buf, disk, users) && b < c.nblocks
    ensures b in s.disk && (DEV, b) in disk && (DEV, c.start) in disk && c.Wf()
    ensures b != c.start ==> disk[(DEV, b)] == s.disk[b]
  {
    hide Reachable, HeaderFits, DecodeHeader;
    PendingFacts(c, s);
  }

  /** The last reference to a buffer is only ever dropped when the disk has its contents. */
  lemma LastIsClean(c: Config, s: State<Block>, buf: seq<Buf>, disk: BufferCache.Disk, users: seq<nat>, k: nat)
    requires Backs(c, s, buf, disk, users) && k < |buf| && users[k] > 0 && buf[k].dev == DEV
    ensures buf[k].refcnt >= 1
    ensures buf[k].refcnt == 1 && buf[k].valid ==>
              (DEV, buf[k].blockno) in disk && buf[k].data == disk[(DEV, buf[k].blockno)]
  {
    hide Reachable, HeaderFits, DecodeHeader;
    PendingFacts(c, s);
    var b := buf[k].blockno;
    assert b != c.start && buf[k].valid ==> Copy(c, buf, b, k);
  }

  lemma Untouched(c: Config, s: State<Block>, buf: seq<Buf>)
    ensures SameReads(s, s) && Stay(c, s, buf, buf)
  {}

  /** No buffer has the block, and all are in use. */
  ghost predicate Exhausted(buf: seq<Buf>, b: nat) {
    forall x :: 0 <= x < |buf| ==> !buf[x].Holds(DEV, b) && buf[x].refcnt > 0
  }

  /** No two buffers are unused. */
  ghost predicate Few(buf: seq<Buf>) {
    forall x, y :: 0 <= x < y < |buf| ==> buf[x].refcnt > 0 || buf[y].refcnt > 0
  }

  lemma FewExhausted(buf: seq<Buf>, b: nat)
    ensures Exhausted(buf, b) ==> Few(buf) && !HeldUp(buf, b)
  {}

  /** The second of two breads fails. */
  lemma SecondFails(buf: seq<Buf>, buf': seq<Buf>, i: nat, b: nat)
    requires |buf| == |buf'| && i < |buf| && (forall x :: 0 <= x < |buf| && x != i ==> buf'[x] == buf[x])
    requires !buf'[i].Holds(DEV, b)
    ensures Exhausted(buf', b) ==> Few(buf)
    ensures HeldUp(buf', b) ==> HeldUp(buf, b)
  {
    if HeldUp(buf', b) {
      var x :| 0 <= x < |buf'| && buf'[x].Holds(DEV, b) && buf'[x].locked;
      assert x != i && buf[x] == buf'[x];
    }
  }

  /** The block's buffer is locked. */
  ghost predicate HeldUp(buf: seq<Buf>, b: nat) {
    exists x :: 0 <= x < |buf| && buf[x].Holds(DEV, b) && buf[x].locked
  }

  /** One bget, found or recycled. */
  lemma BacksGet(c: Config, s: State<Block>, buf: seq<Buf>, disk: BufferCache.Disk, users: seq<nat>, k: nat, b: nat,
                 x: Buf)
    returns (s': State<Block>)
    requires Backs(c, s, buf, disk, users) && Unique(buf) && k < |buf| && b < c.nblocks
    requires buf[k].Holds(DEV, b) ==> x == buf[k].(refcnt := buf[k].refcnt + 1)
    requires !buf[k].Holds(DEV, b) ==> buf[k].refcnt == 0 && !x.valid && x.Holds(DEV, b) && x.refcnt == 1
    requires !buf[k].Holds(DEV, b) ==> forall i :: 0 <= i < |buf| ==> !buf[i].Holds(DEV, b)
    requires x.locked == buf[k].locked
    ensures |users| == |buf| && Backs(c, s', buf[k := x], disk, users[k := users[k] + 1])
    ensures Goes(c, s, [], s') && s' == s.(cache := s'.cache) && Stay(c, s, buf, buf[k := x])
    ensures SameReads(s, s') && (x.locked <==> HeldUp(buf, b))
  {
    hide Goes, Reachable, Backs;
    BlockFacts(c, s, buf, disk, users, b);
    UserFacts(c, s, buf, disk, users, k);
    if !buf[k].Holds(DEV, b) {
      Unreferenced(c, s, buf, disk, users, k, x);
      s' := BacksRecycle(c, s, buf, disk, users, k, b, x);
    } else {
      s' := s;
      GoesNowhere(c, s);
      BacksFound(c, s, buf, disk, users, k, b, x, users[k] + 1);
    }
  }

  lemma UserFacts(c: Config, s: State<Block>, buf: seq<Buf>, disk: BufferCache.Disk, users: seq<nat>, k: nat)
    requires Backs(c, s, buf, disk, users) && k < |buf|
    ensures |users| == |buf| && buf[k].refcnt == users[k] + Claims(s, buf[k]) && LockedBy(s, buf[k], users[k])
            && Reachable(c, s)
  {}

  /** The bookkeeping of a buffer changes, and with it the number of its users. */
  lemma BacksFound(c: Config, s: State<Block>, buf: seq<Buf>, disk: BufferCache.Disk, users: seq<nat>, k: nat, b: nat,
                   x: Buf, n: nat)
    requires Backs(c, s, buf, disk, users) && Unique(buf) && k < |buf| && b < c.nblocks && buf[k].Holds(DEV, b)
    requires x == buf[k].(locked := x.locked, refcnt := x.refcnt) && x.refcnt == n + Claims(s, x) && LockedBy(s, x, n)
    ensures Backs(c, s, buf[k := x], disk, users[k := n]) && Stay(c, s, buf, buf[k := x])
  {
    hide Reachable, HeaderFits, DecodeHeader, Need;
    BlockFacts(c, s, buf, disk, users, b);
    if Copy(c, buf, b, k) {
      assert s.cache[b := x.data] == s.cache && s.disk[b := s.disk[b]] == s.disk && disk[(DEV, b) := s.disk[b]] == disk;
      BacksAt(c, s, s, buf, disk, disk, users, k, b, x, n);
    } else {
      BacksAside(c, s, buf, disk, users, k, x, n);
    }
  }

  /** acquiresleep, and the disk's contents if the buffer has none. */
  lemma BacksLock(c: Config, s: State<Block>, buf: seq<Buf>, disk: BufferCache.Disk, users: seq<nat>, k: nat, b: nat,
                  x: Buf)
    returns (s': State<Block>)
    requires Backs(c, s, buf, disk, users) && Unique(buf) && k < |buf| && b < c.nblocks && buf[k].Holds(DEV, b)
    requires x == buf[k].(locked := true, valid := true, data := x.data)
    requires if buf[k].valid then x.data == buf[k].data else (DEV, b) in disk && x.data == disk[(DEV, b)]
    requires |users| == |buf| && users[k] > 0
    ensures Backs(c, s', buf[k := x], disk, users) && Goes(c, s, [], s') && s' == s.(cache := s'.cache)
    ensures Stay(c, s, buf, buf[k := x])
    ensures b in s.disk && (DEV, c.start) in disk && x.data == Shown(c, s, disk, b)
    ensures SameReads(s, s')
  {
    hide Goes, Reachable, HeaderFits, DecodeHeader, Backs;
    BlockFacts(c, s, buf, disk, users, b);
    UserFacts(c, s, buf, disk, users, k);
    if buf[k].valid { CopyFacts(c, s, buf, disk, users, k, b); }
    assert users[k := users[k]] == users;
    if buf[k].valid || b == c.start {
      s' := s;
      GoesNowhere(c, s);
      if buf[k].valid { BacksFound(c, s, buf, disk, users, k, b, x, users[k]); }
      else { BacksAside(c, s, buf, disk, users, k, x, users[k]); }
    } else {
      s' := BacksFill(c, s, buf, disk, users, k, b, x);
    }
  }

  lemma CopyFacts(c: Config, s: State<Block>, buf: seq<Buf>, disk: BufferCache.Disk, users: seq<nat>, k: nat, b: nat)
    requires Backs(c, s, buf, disk, users) && k < |buf| && buf[k].Holds(DEV, b) && buf[k].valid
    ensures b == c.start ==> (DEV, c.start) in disk && buf[k].data == disk[(DEV, c.start)]
    ensures b != c.start ==> b in s.cache && s.cache[b] == buf[k].data
  {
    hide Reachable, HeaderFits, DecodeHeader;
    assert b != c.start ==> Copy(c, buf, b, k);
  }

  /** The device at power-on. */
  ghost function AtPowerOn(c: Config, d: BufferCache.Disk): State<Block>
    requires Readable(c, d)
  {
    State(map b: nat | b < c.nblocks :: d[(DEV, b)], DecodeHeader(d[(DEV, c.start)]), map[], [], map[], {}, map[], {},
          false, Rebooted)
  }

  /** All blocks are there and the header holds a list. */
  ghost predicate Readable(c: Config, d: BufferCache.Disk) {
    && c.Wf() && (forall b: nat :: b < c.nblocks ==> (DEV, b) in d)
    && HeaderFits(d[(DEV, c.start)]) && GoodList(c, DecodeHeader(d[(DEV, c.start)]))
  }

  lemma PowerOn(c: Config, d: BufferCache.Disk)
    requires Readable(c, d)
    ensures Reachable(c, AtPowerOn(c, d))
  {
    hide Goes;
    var s := AtPowerOn(c, d);
    GoesNowhere(c, s);
    assert Init(c, s) && Goes(c, s, [], s);
  }

  lemma StayTwice(c: Config, s: State<Block>, s': State<Block>, buf: seq<Buf>, buf': seq<Buf>, buf'': seq<Buf>)
    requires Stay(c, s, buf, buf') && Stay(c, s', buf', buf'') && s'.pins == s.pins && s'.held == s.held
    ensures Stay(c, s, buf, buf'')
  {}

  // ----- the log's own steps -----

  lemma ModifyDoes(c: Config, s: State<Block>, p: Pid, b: nat, d: Block)
    requires Enabled(c, s, Modify(p, b, d))
    ensures var s' := Do(c, s, Modify(p, b, d));
            s' == s.(cache := s.cache[b := d], held := s.held[b := p]) && (b in s.disk ==> Read(s', b) == d)
  {}

  lemma LogWriteDoes(c: Config, s: State<Block>, p: Pid, b: nat)
    requires Enabled(c, s, LogWrite(p, b))
    ensures var s' := Do(c, s, LogWrite(p, b));
            && s'.disk == s.disk && s'.cache == s.cache && b in s'.lh && s'.held == s.held - {b}
            && (b in s.disk ==> Read(s', b) == Read(s, b))
  {}

  /** A client's change: its use of the buffer becomes the claim of a changed block. */
  lemma BacksModify(c: Config, s: State<Block>, s': State<Block>, buf: seq<Buf>, disk: BufferCache.Disk,
                    users: seq<nat>, k: nat, p: Pid, b: nat, d: Block, n: nat)
    requires Backs(c, s, buf, disk, users) && Unique(buf) && Copy(c, buf, b, k) && p in s.ops && c.Home(b)
    requires if b in s.held then s.held[b] == p && n == users[k] else users[k] == n + 1
    requires s' == s.(cache := s.cache[b := d], held := s.held[b := p])
    ensures Backs(c, s', buf[k := buf[k].(data := d)], disk, users[k := n]) && Goes(c, s, [Put(p, b, d)], s')
  {
    hide Goes, Reachable, Backs;
    BlockFacts(c, s, buf, disk, users, b);
    UserFacts(c, s, buf, disk, users, k);
    ModifyGoes(c, s, p, b, d);
    ReachOn(c, s, [Put(p, b, d)], s');
    assert s.disk[b := s.disk[b]] == s.disk && disk[(DEV, b) := s.disk[b]] == disk;
    BacksAt(c, s, s', buf, disk, disk, users, k, b, buf[k].(data := d), n);
  }

  /** log_write and brelse: the claim of the changed block becomes the pin. */
  lemma BacksLogWrite(c: Config, s: State<Block>, s': State<Block>, buf: seq<Buf>, disk: BufferCache.Disk,
                      users: seq<nat>, k: nat, p: Pid, b: nat, x: Buf)
    requires Backs(c, s, buf, disk, users) && Unique(buf) && Copy(c, buf, b, k) && c.Home(b)
    requires Enabled(c, s, LogWrite(p, b)) && s' == Do(c, s, LogWrite(p, b))
    requires x == buf[k].(locked := false, refcnt := users[k] + 1)
    ensures Backs(c, s', buf[k := x], disk, users) && Goes(c, s, [], s')
  {
    hide Goes, Reachable, Backs;
    BlockFacts(c, s, buf, disk, users, b);
    UserFacts(c, s, buf, disk, users, k);
    CopyFacts(c, s, buf, disk, users, k, b);
    ListedIsPinned(c, s, p, b);
    GoesStep(c, s, LogWrite(p, b));
    ReachOn(c, s, [], s');
    assert s.disk[b := s.disk[b]] == s.disk && disk[(DEV, b) := s.disk[b]] == disk && s.cache[b := x.data] == s.cache;
    assert users[k := users[k]] == users;
    BacksAt(c, s, s', buf, disk, disk, users, k, b, x, users[k]);
  }

  /** While operations run, exactly the listed blocks are pinned. */
  lemma ListedIsPinned(c: Config, s: State<Block>, p: Pid, b: nat)
    requires Reachable(c, s) && p in s.ops
    ensures b in s.lh <==> b in s.pins
  {
    ReachInv(c, s);
    if b in s.lh {
      var j :| 0 <= j < |s.lh| && s.lh[j] == b;
    }
  }

  /** A block is written through its buffer, which may lose its pin. */
  lemma BacksThrough(c: Config, s: State<Block>, s': State<Block>, buf: seq<Buf>, disk: BufferCache.Disk,
                     users: seq<nat>, k: nat, b: nat, d: Block, x: Buf)
    requires Backs(c, s, buf, disk, users) && Unique(buf) && Copy(c, buf, b, k) && b < c.nblocks && Reachable(c, s')
    requires Writes(s, s', b, d) && x == buf[k].(data := d, refcnt := x.refcnt)
    requires buf[k].refcnt - x.refcnt == Need(s, b) - Need(s', b)
    ensures Backs(c, s', buf[k := x], disk[(DEV, b) := d], users)
  {
    hide Reachable, Backs;
    BlockFacts(c, s, buf, disk, users, b);
    UserFacts(c, s, buf, disk, users, k);
    assert users[k := users[k]] == users;
    BacksAt(c, s, s', buf, disk, disk[(DEV, b) := d], users, k, b, x, users[k]);
  }

  /** Disk and cache get d for block b; at most b's pin goes. */
  ghost predicate Writes(s: State<Block>, s': State<Block>, b: nat, d: Block) {
    && s'.disk == s.disk[b := d] && s'.cache == s.cache[b := d] && s'.hdr == s.hdr && s'.held == s.held
    && (s'.pins == s.pins || s'.pins == s.pins - {b})
  }

  /** Which step of the protocol a round of write_log or install_trans is, and what it writes where. */
  datatype Round = Copying | Home | Again

  ghost predicate Stands(s: State<Block>, r: Round, tail: nat) {
    && tail < |s.lh|
    && s.phase ==
        match r case Copying => WritingLog(tail) case Home => Installing(tail) case Again => Reinstalling(tail)
  }

  ghost function StepOf(r: Round): Step<Block> {
    match r case Copying => CopyToLog case Home => Install case Again => Reinstall
  }

  function Source(c: Config, r: Round, tail: nat, home: nat): nat {
    if r.Copying? then home else c.start + 1 + tail
  }

  function Target(c: Config, r: Round, tail: nat, home: nat): nat {
    if r.Copying? then c.start + 1 + tail else home
  }

  lemma RoundFacts(c: Config, s: State<Block>, r: Round, tail: nat)
    requires Reachable(c, s) && Stands(s, r, tail)
    ensures c.Home(s.lh[tail]) && c.start + 1 + tail < c.nblocks && s.lh[tail] < c.nblocks
    ensures s.lh[tail] != c.start && s.lh[tail] != c.start + 1 + tail
    ensures s.lh[tail] in s.disk && c.start + 1 + tail in s.disk && Enabled(c, s, StepOf(r))
    ensures s.lh[tail] in s.pins <==> !r.Again?
    ensures c.start + 1 + tail !in s.pins
  {
    ReachInv(c, s);
  }

  /** The state after a round that writes d. */
  ghost function After(c: Config, s: State<Block>, r: Round, tail: nat, d: Block): State<Block>
    requires tail < |s.lh|
  {
    var b, last := Target(c, r, tail, s.lh[tail]), tail + 1 >= |s.lh|;
    State(s.disk[b := d], s.hdr, s.cache[b := d], if last && !r.Copying? then [] else s.lh, s.ops,
          if r.Home? then s.pins - {b} else s.pins, s.held, s.sleepers, s.committing,
          match r
          case Copying => if last then WritingHead else WritingLog(tail + 1)
          case Home => if last then Clearing else Installing(tail + 1)
          case Again => if last then Reclearing else Reinstalling(tail + 1))
  }

  lemma DoRound(c: Config, s: State<Block>, r: Round, tail: nat, d: Block)
    requires Stands(s, r, tail) && Enabled(c, s, StepOf(r)) && Source(c, r, tail, s.lh[tail]) in s.disk
             && d == Read(s, Source(c, r, tail, s.lh[tail]))
    ensures Do(c, s, StepOf(r)) == After(c, s, r, tail, d)
  {
    hide Read;
    match r
    case Copying => assert Do(c, s, CopyToLog) == After(c, s, Copying, tail, d);
    case Home => assert Do(c, s, Install) == After(c, s, Home, tail, d);
    case Again => assert Do(c, s, Reinstall) == After(c, s, Again, tail, d);
  }

  lemma RoundWrites(c: Config, s: State<Block>, r: Round, tail: nat, d: Block) returns (s': State<Block>)
    requires Reachable(c, s) && Stands(s, r, tail) && Source(c, r, tail, s.lh[tail]) in s.disk
             && d == Read(s, Source(c, r, tail, s.lh[tail]))
    ensures Enabled(c, s, StepOf(r)) && s' == Do(c, s, StepOf(r)) && Goes(c, s, [], s') && Reachable(c, s')
    ensures Writes(s, s', Target(c, r, tail, s.lh[tail]), d)
    ensures s'.pins == if r.Home? then s.pins - {s.lh[tail]} else s.pins
  {
    hide Goes, Reachable, Do, Enabled, Read;
    RoundFacts(c, s, r, tail);
    s' := Do(c, s, StepOf(r));
    DoRound(c, s, r, tail, d);
    GoesStep(c, s, StepOf(r));
    ReachOn(c, s, [], s');
  }

  /** A round does the same to disk, list and pins whatever else is cached. */
  lemma SameStep(c: Config, s: State<Block>, s1: State<Block>, k: Round, tail: nat)
    requires Stands(s, k, tail) && SameReads(s, s1) && s1 == s.(cache := s1.cache)
    requires Enabled(c, s, StepOf(k)) && Enabled(c, s1, StepOf(k))
    ensures Do(c, s1, StepOf(k)) == Do(c, s, StepOf(k)).(cache := Do(c, s1, StepOf(k)).cache)
  {
    hide Read, Do;
    var b := Source(c, k, tail, s.lh[tail]);
    assert b in s.disk && Read(s1, b) == Read(s, b);
    DoRound(c, s, k, tail, Read(s, b));
    DoRound(c, s1, k, tail, Read(s, b));
  }

  /** The step that a write of the header is. */
  function HeadStep(ph: Phase): Step<Block> {
    if ph.WritingHead? then CommitHead else if ph.Clearing? then ClearHead else ReclearHead
  }

  ghost predicate HeadDue(s: State<Block>) {
    s.phase.WritingHead? || s.phase.Clearing? || s.phase.Reclearing?
  }

  lemma HeadWrites(c: Config, s: State<Block>) returns (s': State<Block>)
    requires Reachable(c, s) && HeadDue(s)
    ensures Enabled(c, s, HeadStep(s.phase)) && s' == Do(c, s, HeadStep(s.phase)) && Encodable(s.lh) && s'.hdr == s.lh
    ensures Goes(c, s, if s.phase.WritingHead? then [MakeDurable] else [], s') && Reachable(c, s')
    ensures s'.disk == s.disk && s'.cache == s.cache && s'.pins == s.pins && s'.held == s.held
  {
    hide Goes, Reachable;
    ReachInv(c, s);
    s' := Do(c, s, HeadStep(s.phase));
    GoesStep(c, s, HeadStep(s.phase));
    ReachOn(c, s, if s.phase.WritingHead? then [MakeDurable] else [], s');
  }

  lemma HeadFacts(c: Config, s: State<Block>, buf: seq<Buf>, disk: BufferCache.Disk, users: seq<nat>)
    requires Backs(c, s, buf, disk, users)
    ensures c.start < c.nblocks && (DEV, c.start) in disk
    ensures HeaderFits(disk[(DEV, c.start)]) && DecodeHeader(disk[(DEV, c.start)]) == s.hdr
  {
    hide Reachable, HeaderFits, DecodeHeader, Tied, Counted;
    PendingFacts(c, s);
  }

  /** Steps that touch neither the disk nor a buffer. */
  predicate Quiet(step: Step<Block>) {
    step.Begin? || step.Wait? || step.Kill? || step.End? || step.Finish? || step.ReadHead?
  }

  lemma QuietGoes(c: Config, s: State<Block>, step: Step<Block>) returns (s': State<Block>)
    requires Reachable(c, s) && Quiet(step) && Enabled(c, s, step)
    ensures s' == Do(c, s, step) && Reachable(c, s')
    ensures s'.disk == s.disk && s'.hdr == s.hdr && s'.cache == s.cache && s'.pins == s.pins && s'.held == s.held
    ensures Goes(c, s, if EventOf(step).Stutter? then [] else [EventOf(step)], s')
  {
    hide Goes, Reachable;
    s' := Do(c, s, step);
    GoesStep(c, s, step);
    ReachOn(c, s, if EventOf(step).Stutter? then [] else [EventOf(step)], s');
  }

  lemma CrashGoes(c: Config, s: State<Block>)
    requires Reachable(c, s)
    ensures Goes(c, s, [Fail], Do(c, s, Crash)) && Reachable(c, Do(c, s, Crash))
  {
    hide Goes, Reachable;
    GoesStep(c, s, Crash);
    ReachOn(c, s, [Fail], Do(c, s, Crash));
  }

  class LogDevice {
    const c: Config
    var cache: Cache
    ghost var s: State<Block>       // the state of the log protocol
    ghost var users: seq<nat>       // for each buffer, the processes between bread and brelse or log_write

    ghost predicate Valid()
      reads this, cache
    {
      cache.Valid() && Backs(c, s, cache.buf, cache.disk, users)
    }

    /** binit, on any disk whose header is readable. */
    constructor (c: Config, d: BufferCache.Disk)
      requires Readable(c, d)
      ensures Valid() && this.c == c && cache.disk == d && s == AtPowerOn(c, d) && fresh(cache)
    {
      this.c := c;
      cache := new Cache(d);
      s := AtPowerOn(c, d);
      users := seq(NBUF, _ => 0);
      new;
      PowerOn(c, d);
      BacksInit(c, s, cache.buf, cache.disk, users);
    }

    /** A pending block has a buffer, with the block's contents, and the buffer has a reference. */
    lemma PendingKept(b: nat)
      requires Valid() && Pending(s, b)
      ensures exists i :: Copy(c, cache.buf, b, i) && cache.buf[i].refcnt > 0
      ensures forall i :: Copy(c, cache.buf, b, i) ==> cache.buf[i].refcnt >= Need(s, b) > 0
      ensures b in s.cache && forall i :: Copy(c, cache.buf, b, i) ==> cache.buf[i].data == s.cache[b]
    {
      hide Reachable, HeaderFits, DecodeHeader;
      PendingFacts(c, s);
      var i :| Copy(c, cache.buf, b, i);
    }

    /** bget: a buffer with one more user.  No referenced buffer of another block is touched. */
    method Bget(b: nat) returns (r: Option<nat>)
      requires Valid() && b < c.nblocks
      modifies this`s, this`users, cache`buf
      ensures Valid() && Goes(c, old(s), [], s) && s == old(s).(cache := s.cache)
      ensures r.None? ==> s == old(s) && users == old(users) && cache.buf == old(cache.buf)
      ensures r.None? <==> Exhausted(old(cache.buf), b)
      ensures r.Some? ==> r.value < NBUF == |cache.buf| == |old(users)| && cache.buf[r.value].Holds(DEV, b)
      ensures r.Some? ==> (cache.buf[r.value].locked <==> HeldUp(old(cache.buf), b))
      ensures r.Some? ==> forall x :: 0 <= x < NBUF && x != r.value ==> cache.buf[x] == old(cache.buf)[x]
      ensures r.Some? ==> users == old(users)[r.value := old(users)[r.value] + 1]
      ensures Stay(c, old(s), old(cache.buf), cache.buf)
      ensures forall x :: 0 <= x < NBUF && old(cache.buf)[x].refcnt > 0 && !old(cache.buf)[x].Holds(DEV, b) ==>
                cache.buf[x] == old(cache.buf)[x]
      ensures SameReads(old(s), s)
    {
      hide Goes, Reachable, Backs, SameReads, Stay, HeldUp;
      BlockFacts(c, s, cache.buf, cache.disk, users, b);
      r := cache.Bget(DEV, b);
      if r.Some? {
        s := BacksGet(c, s, old(cache.buf), cache.disk, users, r.value, b, cache.buf[r.value]);
        users := users[r.value := users[r.value] + 1];
      } else {
        GoesNowhere(c, s);
        Untouched(c, s, cache.buf);
      }
    }

    /** The rest of bread: false while another process has the buffer locked. */
    method Lock(b: nat, i: nat) returns (ok: bool)
      requires Valid() && b < c.nblocks && i < NBUF && cache.buf[i].Holds(DEV, b) && users[i] > 0
      modifies this`s, cache`buf
      ensures Valid() && Goes(c, old(s), [], s) && s == old(s).(cache := s.cache)
      ensures !ok ==> s == old(s) && cache.buf == old(cache.buf)
      ensures ok == !old(cache.buf)[i].locked
      ensures ok ==> var x := cache.buf[i]; x.valid && x.locked && x.Holds(DEV, b)
      ensures b in old(s).disk && (DEV, c.start) in cache.disk
      ensures ok ==> cache.buf[i].data == Shown(c, old(s), cache.disk, b)
      ensures SameReads(old(s), s)
      ensures Stay(c, old(s), old(cache.buf), cache.buf)
      ensures forall x :: 0 <= x < NBUF && x != i ==> cache.buf[x] == old(cache.buf)[x]
    {
      hide Goes, Reachable, Backs, Shown;
      BlockFacts(c, s, cache.buf, cache.disk, users, b);
      UserFacts(c, s, cache.buf, cache.disk, users, i);
      ok := cache.Lock(DEV, b, i);
      if ok {
        s := BacksLock(c, s, old(cache.buf), cache.disk, users, i, b, cache.buf[i]);
      } else {
        GoesNowhere(c, s);
      }
    }

    /** bread: to the log nothing happens but that blocks nobody needs may leave the cache and this one
        may enter it.  The data is what the protocol reads, and the buffer has one more user, who
        has it locked or waits for it. */
    method Bread(b: nat) returns (r: Fetch)
      requires Valid() && b < c.nblocks
      modifies this`s, this`users, cache`buf
      ensures Valid() && Goes(c, old(s), [], s) && s == old(s).(cache := s.cache)
      ensures b in old(s).disk && (DEV, c.start) in cache.disk
      ensures r.NoBuffers? ==> s == old(s) && users == old(users) && cache.buf == old(cache.buf)
      ensures (r.NoBuffers? <==> Exhausted(old(cache.buf), b)) && (r.Waits? <==> HeldUp(old(cache.buf), b))
      ensures !r.NoBuffers? ==> r.b < NBUF && forall x :: 0 <= x < NBUF && x != r.b ==>
                cache.buf[x] == old(cache.buf)[x]
      ensures !r.NoBuffers? ==> r.b < NBUF == |cache.buf| == |old(users)| && cache.buf[r.b].Holds(DEV, b)
      ensures !r.NoBuffers? ==> users == old(users)[r.b := old(users)[r.b] + 1]
      ensures SameReads(old(s), s)
      ensures r.Got? ==> cache.buf[r.b].locked && cache.buf[r.b].valid
                         && cache.buf[r.b].data == Shown(c, old(s), cache.disk, b)
      ensures Stay(c, old(s), old(cache.buf), cache.buf)
      ensures forall x :: 0 <= x < NBUF && old(cache.buf)[x].refcnt > 0 && !old(cache.buf)[x].Holds(DEV, b) ==>
                cache.buf[x] == old(cache.buf)[x]
    {
      hide Goes, Reachable, Backs, Stay, Exhausted, HeldUp;
      BlockFacts(c, s, cache.buf, cache.disk, users, b);
      var i := Bget(b);
      if i.None? {
        FewExhausted(old(cache.buf), b);
        return NoBuffers;
      }
      ghost var s1, buf1 := s, cache.buf;
      var ok := Lock(b, i.value);
      SilentThen(c, old(s), s1, [], s);
      StayTwice(c, old(s), s1, old(cache.buf), buf1, cache.buf);
      r := if ok then Got(i.value) else Waits(i.value);
    }

    /** brelse, by a user that did not change the buffer or has written it. */
    method Brelse(i: nat)
      requires Valid() && i < NBUF && cache.buf[i].locked && users[i] > 0
               && cache.buf[i].dev == DEV && cache.buf[i].blockno < c.nblocks
      modifies this`users, cache
      ensures Valid() && |old(users)| == NBUF && users == old(users)[i := old(users)[i] - 1]
      ensures cache.buf == old(cache.buf)[i := old(cache.buf)[i].(locked := false,
              refcnt := old(cache.buf)[i].refcnt - 1)]
      ensures cache.disk == old(cache.disk)
    {
      hide Goes, Reachable, Backs, Stay;
      UserFacts(c, s, cache.buf, cache.disk, users, i);
      LastIsClean(c, s, cache.buf, cache.disk, users, i);
      cache.Brelse(i);
      BacksFound(c, s, old(cache.buf), cache.disk, users, i, cache.buf[i].blockno, cache.buf[i], users[i] - 1);
      users := users[i := users[i] - 1];
    }

    /** A client changes b->data of a buffer it has locked. */
    method Modify(ghost p: Pid, ghost b: nat, i: nat, d: Block)
      requires Valid() && p in s.ops && c.Home(b) && i < NBUF && Copy(c, cache.buf, b, i) && cache.buf[i].locked
      requires if b in s.held then s.held[b] == p else users[i] > 0
      modifies this`s, this`users, cache`buf
      ensures Valid() && Enabled(c, old(s), LogProtocol.Modify(p, b, d))
              && s == Do(c, old(s), LogProtocol.Modify(p, b, d))
      ensures Goes(c, old(s), [Put(p, b, d)], s)
      ensures cache.buf == old(cache.buf)[i := old(cache.buf)[i].(data := d)]
      ensures |old(users)| == NBUF
              && users == if b in old(s).held then old(users) else old(users)[i := old(users)[i] - 1]
    {
      hide Goes, Reachable, Backs;
      UserFacts(c, s, cache.buf, cache.disk, users, i);
      cache.Change(i, d);
      ghost var n, s' := if b in s.held then users[i] else users[i] - 1,
          s.(cache := s.cache[b := d], held := s.held[b := p]);
      BacksModify(c, s, s', old(cache.buf), cache.disk, users, i, p, b, d, n);
      assert users[i := users[i]] == users;
      s, users := s', users[i := n];
    }

    /** log_write, with `listed` the outcome of its search, and the client's brelse; false is the panic "too big
        a transaction". */
    method LogWrite(ghost p: Pid, ghost b: nat, i: nat, listed: bool, len: nat) returns (ok: bool)
      requires Valid() && p in s.ops && b in s.held && s.held[b] == p && (b in s.lh || s.ops[p] < MAXOPBLOCKS)
      requires i < NBUF && Copy(c, cache.buf, b, i) && cache.buf[i].locked && listed == (b in s.lh) && len == |s.lh|
      modifies this`s, cache
      ensures Valid() && users == old(users) && ok == !LogWritePanics(c, old(s))
      ensures !ok ==> s == old(s) && cache.buf == old(cache.buf)
      ensures ok ==> Enabled(c, old(s), LogProtocol.LogWrite(p, b)) && s == Do(c, old(s), LogProtocol.LogWrite(p, b))
                     && Goes(c, old(s), [], s)
      ensures ok ==> Pending(s, b) && Copy(c, cache.buf, b, i) && cache.buf[i].data == old(cache.buf)[i].data
                     && cache.buf[i].refcnt > 0 && !cache.buf[i].locked
    {
      hide Goes, Reachable, Backs;
      if len >= LOGSIZE || len >= c.size - 1 {
        return false;
      }
      UserFacts(c, s, cache.buf, cache.disk, users, i);
      ListedIsPinned(c, s, p, b);
      PendingFacts(c, s);
      if !listed {
        cache.Bpin(i);
      }
      cache.Brelse(i);
      assert cache.buf == old(cache.buf)[i := cache.buf[i]];
      ghost var s' := Do(c, s, LogProtocol.LogWrite(p, b));
      BacksLogWrite(c, s, s', old(cache.buf), cache.disk, users, i, p, b, cache.buf[i]);
      s := s';
      ok := true;
    }

    /** What file-system code does to a block: bread, the change, log_write and brelse.  The block is then
        pending, shows the change, and its buffer has a reference of the log's. */
    method Update(ghost p: Pid, b: nat, d: Block, listed: bool, len: nat) returns (r: Fetch, ok: bool)
      requires Valid() && p in s.ops && c.Home(b) && b !in s.held && (b in s.lh || s.ops[p] < MAXOPBLOCKS)
      requires listed == (b in s.lh) && len == |s.lh|
      modifies this`s, this`users, cache
      ensures Valid() && (r.Got? && ok ==> users == old(users))
      ensures Goes(c, old(s), if r.Got? then [Put(p, b, d)] else [], s)
      ensures (r.NoBuffers? <==> Exhausted(old(cache.buf), b)) && (r.Waits? <==> HeldUp(old(cache.buf), b))
      ensures r.Got? ==> ok == !LogWritePanics(c, old(s))
      ensures r.Got? && ok ==> Pending(s, b) && b in s.disk && Read(s, b) == d && b in s.lh && s.held == old(s).held
    {
      hide Goes, Reachable, Backs, Stay, Exhausted, HeldUp, Do, Enabled, SameReads, Read;
      BlockFacts(c, s, cache.buf, cache.disk, users, b);
      ok := false;
      r := Bread(b);
      if r.Got? {
        ghost var s1 := s;
        Modify(p, b, r.b, d);
        SilentThen(c, old(s), s1, [Put(p, b, d)], s);
        ghost var s2 := s;
        ModifyDoes(c, s1, p, b, d);
        ok := LogWrite(p, b, r.b, listed, len);
        if ok {
          ThenSilent(c, old(s), [Put(p, b, d)], s2, s);
          LogWriteDoes(c, s2, p, b);
        }
      }
    }

    /** Two breads in a row; the first buffer stays. */
    method BreadBoth(a: nat, b: nat) returns (r: Fetch, i: nat)
      requires Valid() && a < c.nblocks && b < c.nblocks && a != b
      modifies this`s, this`users, cache`buf
      ensures Valid() && Goes(c, old(s), [], s) && s == old(s).(cache := s.cache)
      ensures a in old(s).disk && b in old(s).disk && (DEV, c.start) in cache.disk && SameReads(old(s), s)
      ensures r.Got? ==> i < NBUF == |cache.buf| == |old(users)| == |users| && r.b < NBUF && i != r.b
      ensures r.Got? ==> Locked(a, i) && cache.buf[i].data == Shown(c, old(s), cache.disk, a)
      ensures r.Got? ==> Locked(b, r.b) && cache.buf[r.b].data == Shown(c, old(s), cache.disk, b)
      ensures r.Got? ==> users == old(users)[i := old(users)[i] + 1][r.b := old(users)[r.b] + 1]
      ensures r.NoBuffers? ==> Few(old(cache.buf))
      ensures r.Waits? ==> HeldUp(old(cache.buf), a) || HeldUp(old(cache.buf), b)
    {
      hide Goes, Reachable, Backs, Stay, Exhausted, HeldUp, Few;
      i := 0;
      r := Bread(a);
      BlockFacts(c, s, cache.buf, cache.disk, users, b);
      if !r.Got? {
        FewExhausted(old(cache.buf), a);
        return;
      }
      i := r.b;
      ghost var s1 := s;
      UserFacts(c, s, cache.buf, cache.disk, users, i);
      SecondFails(old(cache.buf), cache.buf, i, b);
      r := Bread(b);
      SilentThen(c, old(s), s1, [], s);
    }

    ghost predicate Locked(b: nat, i: nat)
      reads this, cache
      requires i < |cache.buf|
    {
      cache.buf[i].valid && cache.buf[i].locked && cache.buf[i].Holds(DEV, b)
    }

    /** memmove and bwrite, and bunpin if the block is installed in a commit. */
    method PutThrough(i: nat, ghost b: nat, d: Block, unpin: bool, ghost s': State<Block>)
      requires Valid() && i < NBUF && Copy(c, cache.buf, b, i) && cache.buf[i].locked && b < c.nblocks && users[i] > 0
      requires Reachable(c, s') && Writes(s, s', b, d) && Need(s, b) - Need(s', b) == if unpin then 1 else 0
      modifies this`s, cache
      ensures Valid() && s == s' && cache.disk == old(cache.disk)[(DEV, b) := d]
      ensures cache.buf == old(cache.buf)[i := old(cache.buf)[i].(data := d,
          refcnt := old(cache.buf)[i].refcnt - if unpin then 1 else 0)]
    {
      hide Goes, Reachable, Backs, Writes, Need;
      UserFacts(c, s, cache.buf, cache.disk, users, i);
      cache.Change(i, d);
      cache.Bwrite(i);
      if unpin {
        cache.Bunpin(i);
      }
      assert cache.buf == old(cache.buf)[i := cache.buf[i]];
      BacksThrough(c, s, s', old(cache.buf), old(cache.disk), users, i, b, d, cache.buf[i]);
      s := s';
    }

    /** The copy of a round, between its breads and its brelses. */
    method CopyAcross(k: Round, ghost tail: nat, ghost home: nat, from: nat, to: nat)
      requires Valid() && Stands(s, k, tail) && home == s.lh[tail] && from < NBUF && to < NBUF && from != to
      requires Locked(Source(c, k, tail, home), from) && Locked(Target(c, k, tail, home), to) && users[to] > 0
      requires Source(c, k, tail, home) in s.disk && cache.buf[from].data == Read(s, Source(c, k, tail, home))
      modifies this`s, cache
      ensures Valid() && Enabled(c, old(s), StepOf(k)) && s == Do(c, old(s), StepOf(k)) && Goes(c, old(s), [], s)
      ensures cache.disk == old(cache.disk)[(DEV, Target(c, k, tail, home)) := old(cache.buf)[from].data]
      ensures Locked(Source(c, k, tail, home), from) && Locked(Target(c, k, tail, home), to)
    {
      hide Goes, Reachable, Backs, Do, Enabled;
      UserFacts(c, s, cache.buf, cache.disk, users, to);
      RoundFacts(c, s, k, tail);
      ghost var s' := RoundWrites(c, s, k, tail, cache.buf[from].data);
      PutThrough(to, Target(c, k, tail, home), cache.buf[from].data, k.Home?, s');
    }

    /** One iteration of write_log or install_trans.  Afterwards the buffers have the users they had. */
    method CopyRound(k: Round, tail: nat, home: nat) returns (r: Fetch)
      requires Valid() && Stands(s, k, tail) && home == s.lh[tail]
      modifies this`s, this`users, cache
      ensures Valid() && Goes(c, old(s), [], s) && Enabled(c, old(s), StepOf(k))
      ensures !r.Got? ==> s == old(s).(cache := s.cache) && cache.disk == old(cache.disk)
      ensures r.NoBuffers? ==> Few(old(cache.buf))
      ensures r.Waits? ==> HeldUp(old(cache.buf), c.start + 1 + tail) || HeldUp(old(cache.buf), home)
      ensures r.Got? ==> s == Do(c, old(s), StepOf(k)).(cache := s.cache) && users == old(users)
      ensures r.Got? ==> Source(c, k, tail, home) in old(s).disk && cache.disk ==
                         old(cache.disk)[(DEV, Target(c, k, tail, home)) := Read(old(s), Source(c, k, tail, home))]
    {
      hide Goes, Reachable, Backs, Do, Enabled, Read, StepOf, HeldUp, Few;
      UserFacts(c, s, cache.buf, cache.disk, users, 0);
      RoundFacts(c, s, k, tail);
      var i;
      r, i := BreadBoth(c.start + tail + 1, home);
      if !r.Got? {
        return;
      }
      ghost var s1, users1 := s, users;
      var from, to := if k.Copying? then r.b else i, if k.Copying? then i else r.b;
      CopyAcross(k, tail, home, from, to);
      SilentThen(c, old(s), s1, [], s);
      SameStep(c, old(s), s1, k, tail);
      BrelseBoth(from, to, old(users));
    }

    method BrelseBoth(i: nat, j: nat, ghost before: seq<nat>)
      requires Valid() && i < NBUF && j < NBUF && i != j && users[i] > 0 && users[j] > 0
      requires cache.buf[i].locked && cache.buf[i].dev == DEV && cache.buf[i].blockno < c.nblocks
      requires cache.buf[j].locked && cache.buf[j].dev == DEV && cache.buf[j].blockno < c.nblocks
      requires |before| == |users| && users == before[i := before[i] + 1][j := before[j] + 1]
      modifies this`users, cache
      ensures Valid() && users == before && cache.disk == old(cache.disk)
    {
      hide Backs;
      Brelse(i);
      Brelse(j);
      assert users == before;
    }
 
    /** write_head: the list in memory goes to the header block. */
    method WriteHead(list: seq<nat>) returns (r: Fetch)
      requires Valid() && HeadDue(s) && list == s.lh
      modifies this`s, this`users, cache
      ensures Valid() && Enabled(c, old(s), HeadStep(old(s).phase))
      ensures !r.Got? ==> s == old(s).(cache := s.cache) && cache.disk == old(cache.disk) && Goes(c, old(s), [], s)
      ensures (r.NoBuffers? <==> Exhausted(old(cache.buf), c.start)) && (r.Waits? <==> HeldUp(old(cache.buf), c.start))
      ensures r.Got? ==> s == Do(c, old(s), HeadStep(old(s).phase)).(cache := s.cache) && users == old(users)
      ensures r.Got? ==> Goes(c, old(s), if old(s).phase.WritingHead? then [MakeDurable] else [], s)
      ensures r.Got? ==> (DEV, c.start) in cache.disk && HeaderFits(cache.disk[(DEV, c.start)])
                         && DecodeHeader(cache.disk[(DEV, c.start)]) == list
    {
      hide Goes, Reachable, Backs, Stay, HeaderFits, DecodeHeader, Exhausted, HeldUp;
      HeadFacts(c, s, cache.buf, cache.disk, users);
      r := Bread(c.start);
      if r.Got? {
        ghost var s1 := s;
        PutHead(r.b, list);
        SilentThen(c, old(s), s1, if old(s).phase.WritingHead? then [MakeDurable] else [], s);
        Brelse(r.b);
        assert users == old(users);
        HeadFacts(c, s, cache.buf, cache.disk, users);
      }
    }

    /** The header's buffer filled and written. */
    method PutHead(i: nat, list: seq<nat>)
      requires Valid() && HeadDue(s) && list == s.lh && i < NBUF && Locked(c.start, i) && users[i] > 0
      modifies this`s, cache
      ensures Valid() && Enabled(c, old(s), HeadStep(old(s).phase)) && s == Do(c, old(s), HeadStep(old(s).phase))
      ensures s.hdr == list && Goes(c, old(s), if old(s).phase.WritingHead? then [MakeDurable] else [], s)
      ensures Locked(c.start, i)
    {
      hide Goes, Reachable, Backs, HeaderFits, DecodeHeader, Do, Enabled;
      UserFacts(c, s, cache.buf, cache.disk, users, i);
      ghost var s' := HeadWrites(c, s);
      var d := LogCode.PackHeader(cache.buf[i].data, list);
      cache.Change(i, d);
      cache.Bwrite(i);
      BacksHead(c, s, s', old(cache.buf), old(cache.disk), users, i, d);
      s := s';
    }

    /** read_head: the list comes from the header block. */
    method ReadHead() returns (r: Fetch, list: seq<nat>)
      requires Valid() && s.phase.Rebooted?
      modifies this`s, this`users, cache
      ensures Valid() && cache.disk == old(cache.disk) && Goes(c, old(s), [], s)
      ensures !r.Got? ==> s == old(s).(cache := s.cache)
      ensures (r.NoBuffers? <==> Exhausted(old(cache.buf), c.start)) && (r.Waits? <==> HeldUp(old(cache.buf), c.start))
      ensures r.Got? ==> list == s.lh == old(s).hdr && users == old(users)
                         && s == Do(c, old(s), LogProtocol.ReadHead).(cache := s.cache)
    {
      hide Goes, Reachable, Backs, Stay, HeaderFits, DecodeHeader, Exhausted, HeldUp;
      list := [];
      HeadFacts(c, s, cache.buf, cache.disk, users);
      r := Bread(c.start);
      if r.Got? {
        list := DecodeHeader(cache.buf[r.b].data);
        Brelse(r.b);
        assert users == old(users);
        ghost var s1 := s;
        Other(LogProtocol.ReadHead);
        SilentThen(c, old(s), s1, [], s);
      }
    }

    /** begin_op, end_op and kill, which do not touch the buffers. */
    ghost method Other(step: Step<Block>)
      requires Valid() && Quiet(step) && Enabled(c, s, step)
      modifies this`s
      ensures Valid() && s == Do(c, old(s), step)
      ensures Goes(c, old(s), if EventOf(step).Stutter? then [] else [EventOf(step)], s)
    {
      hide Goes, Reachable, Backs, Do, Enabled;
      UserFacts(c, s, cache.buf, cache.disk, users, 0);
      ghost var s' := QuietGoes(c, s, step);
      BacksQuiet(c, s, s', cache.buf, cache.disk, users);
      s := s';
    }

    /** A crash at any moment: the disk stays, binit sets up the buffers anew. */
    method Crash()
      requires Valid()
      modifies this
      ensures Valid() && fresh(cache) && cache.disk == old(cache.disk)
      ensures s == Do(c, old(s), LogProtocol.Crash) && Goes(c, old(s), [Fail], s)
    {
      hide Goes, Reachable, HeaderFits, DecodeHeader;
      CrashGoes(c, s);
      cache := new Cache(cache.disk);
      s := Do(c, s, LogProtocol.Crash);
      users := seq(NBUF, _ => 0);
      BacksInit(c, s, cache.buf, cache.disk, users);
    }
  }
}
