/** The redo log of kernel/log.c as a transition system.

    A step is one critical section under log.lock, one disk write of the committer
    or of recovery, one buffer-cache fill or recycling, or a crash, which keeps the
    disk and loses all memory.  The specification is an atomic store: operations
    change a current image, which becomes durable only as a whole and only when
    no operation is in progress; a crash goes back to the durable image. */
module LogProtocol {
  import opened Common
  import opened Blocks

  /** Where the log lives: header at `start`, log blocks at start+1 .. start+size-1. */
  datatype Config = Config(start: nat, size: nat, nblocks: nat) {
    predicate Wf() {
      1 <= size && start + size <= nblocks <= 0x1_0000_0000
    }
    predicate Home(b: int) {
      0 <= b < nblocks && !(start <= b < start + size)
    }
    /** The largest transaction log_write lets through. */
    function Capacity(): int {
      if size - 1 < LOGSIZE then size - 1 else LOGSIZE
    }
  }

  // ----- states and steps -----

  type Pid = nat

  /** Where the committing process, or recovery, has got to. */
  datatype Phase =
    | Running                 // no commit under way
    | WritingLog(tail: nat)   // in write_log
    | WritingHead             // about to write the non-empty header
    | Installing(tail: nat)   // in install_trans(0)
    | Clearing                // lh.n = 0, about to write the empty header
    | Committed               // commit() returned, end_op's last section pending
    | Rebooted                // recover_from_log not started
    | Reinstalling(rtail: nat)// in install_trans(1)
    | Reclearing              // lh.n = 0, about to write the empty header

  datatype State<D> = State(
    disk: map<nat, D>,
    hdr: seq<nat>,            // block list in the on-disk header
    cache: map<nat, D>,           // contents of the valid buffers, by block number
    lh: seq<nat>,             // log.lh.block[0 .. log.lh.n)
    ops: map<Pid, nat>,       // processes between begin_op and end_op, with the log slots each has added
    pins: set<nat>,           // blocks whose buffer carries log_write's extra reference
    held: map<nat, Pid>,      // buffers modified and still locked, not yet passed to log_write
    sleepers: set<Pid>,       // processes asleep on the log in begin_op
    committing: bool,
    phase: Phase)

  datatype Step<D> =
    | Begin(p: Pid)                        // begin_op admits p
    | Wait(p: Pid)                         // begin_op puts p to sleep
    | Kill(p: Pid)                         // kill makes a sleeper runnable
    | Modify(p: Pid, b: nat, data: D)  // p reads, locks and changes a buffer
    | LogWrite(p: Pid, b: nat)             // log_write, then brelse
    | End(p: Pid)                          // first section of end_op
    | CopyToLog                            // one iteration of write_log
    | CommitHead                           // write_head with n > 0
    | Install                              // one iteration of install_trans(0)
    | ClearHead                            // write_head with n = 0, in commit
    | Finish                               // last section of end_op
    | Load(b: nat)                         // a buffer is filled from disk
    | Evict(b: nat)                        // an unused buffer is recycled
    | Crash
    | ReadHead                             // read_head
    | Reinstall                            // one iteration of install_trans(1)
    | ReclearHead                          // write_head with n = 0, in recovery

  /** begin_op's test for lack of log space. */
  predicate Full<D>(s: State<D>) {
    |s.lh| + (|s.ops| + 1) * MAXOPBLOCKS > LOGSIZE
  }

  /** log_write's first test; when it holds the kernel panics. */
  predicate LogWritePanics<D>(c: Config, s: State<D>) {
    |s.lh| >= LOGSIZE || |s.lh| >= c.size - 1
  }

  predicate Recovering<D>(s: State<D>) {
    s.phase.Rebooted? || s.phase.Reinstalling? || s.phase.Reclearing?
  }

  ghost predicate Enabled<D>(c: Config, s: State<D>, step: Step<D>) {
    match step
    case Begin(p) => !Recovering(s) && p !in s.ops && p !in s.sleepers && !s.committing && !Full(s)
    case Wait(p) => !Recovering(s) && p !in s.ops && p !in s.sleepers && (s.committing || Full(s))
    case Kill(p) => p in s.sleepers
    case Modify(p, b, data) => p in s.ops && c.Home(b) && (b in s.held ==> s.held[b] == p)
    case LogWrite(p, b) =>
      && p in s.ops && b in s.held && s.held[b] == p && !LogWritePanics(c, s)
      && (b in s.lh || s.ops[p] < MAXOPBLOCKS)
    case End(p) => p in s.ops && forall b :: b in s.held ==> s.held[b] != p
    case CopyToLog =>
      s.phase.WritingLog? && s.phase.tail < |s.lh| && s.lh[s.phase.tail] in s.disk
          && c.start + 1 + s.phase.tail in s.disk
    case CommitHead => s.phase.WritingHead?
    case Install =>
      s.phase.Installing? && s.phase.tail < |s.lh| && s.lh[s.phase.tail] in s.disk
          && c.start + 1 + s.phase.tail in s.disk
    case ClearHead => s.phase.Clearing?
    case Finish => s.phase.Committed?
    case Load(b) => b in s.disk && b !in s.cache
    case Evict(b) => b in s.cache && b !in s.pins && b !in s.held
    case Crash => true
    case ReadHead => s.phase.Rebooted?
    case Reinstall =>
      s.phase.Reinstalling? && s.phase.rtail < |s.lh| && s.lh[s.phase.rtail] in s.disk
          && c.start + 1 + s.phase.rtail in s.disk
    case ReclearHead => s.phase.Reclearing?
  }

  /** What bread returns: the cached contents, else the disk's. */
  function Read<D>(s: State<D>, b: nat): (d: D)
    requires b in s.disk
  {
    if b in s.cache then s.cache[b] else s.disk[b]
  }

  /** A disk write goes through the buffer of the block, which stays cached. */
  function Write<D>(s: State<D>, b: nat, d: D): State<D> {
    s.(disk := s.disk[b := d], cache := s.cache[b := d])
  }

  ghost function Do<D>(c: Config, s: State<D>, step: Step<D>): (r: State<D>)
    requires Enabled(c, s, step)
  {
    match step
    case Begin(p) => s.(ops := s.ops[p := 0])
    case Wait(p) => s.(sleepers := s.sleepers + {p})
    case Kill(p) => s.(sleepers := s.sleepers - {p})
    case Modify(p, b, data) => s.(cache := s.cache[b := data], held := s.held[b := p])
    case LogWrite(p, b) =>
      if b in s.lh then s.(held := s.held - {b})
      else s.(held := s.held - {b}, lh := s.lh + [b], pins := s.pins + {b}, ops := s.ops[p := s.ops[p] + 1])
    case End(p) =>
      var rest := s.ops - {p};
      if rest == map[] then
        s.(ops := rest, committing := true, phase := if |s.lh| > 0 then WritingLog(0) else Committed)
      else s.(ops := rest, sleepers := {})
    case CopyToLog =>
      var t := s.phase.tail;
      Write(s, c.start + 1 + t, Read(s, s.lh[t])).(
        phase := if t + 1 < |s.lh| then WritingLog(t + 1) else WritingHead)
    case CommitHead =>
      s.(hdr := s.lh, phase := Installing(0))
    case Install =>
      var t := s.phase.tail;
      var r := Write(s, s.lh[t], Read(s, c.start + 1 + t)).(pins := s.pins - {s.lh[t]});
      if t + 1 < |s.lh| then r.(phase := Installing(t + 1)) else r.(lh := [], phase := Clearing)
    case ClearHead =>
      s.(hdr := [], phase := Committed)
    case Finish => s.(committing := false, sleepers := {}, phase := Running)
    case Load(b) => s.(cache := s.cache[b := s.disk[b]])
    case Evict(b) => s.(cache := s.cache - {b})
    case Crash => State(s.disk, s.hdr, map[], [], map[], {}, map[], {}, false, Rebooted)
    case ReadHead =>
      if s.hdr != [] then s.(lh := s.hdr, phase := Reinstalling(0)) else s.(lh := [], phase := Reclearing)
    case Reinstall =>
      var t := s.phase.rtail;
      var r := Write(s, s.lh[t], Read(s, c.start + 1 + t));
      if t + 1 < |s.lh| then r.(phase := Reinstalling(t + 1)) else r.(lh := [], phase := Reclearing)
    case ReclearHead =>
      s.(hdr := [], phase := Running)
  }

  // ----- the invariant -----

  ghost predicate GoodList(c: Config, bs: seq<nat>) {
    |bs| <= c.Capacity() && NoDup(bs) && forall i :: 0 <= i < |bs| ==> c.Home(bs[i])
  }

  ghost predicate GoodDisk<D>(c: Config, disk: map<nat, D>) {
    forall b: nat :: b in disk <==> b < c.nblocks
  }

  ghost function Unused(ops: map<Pid, nat>): int {
    if ops == map[] then 0 else
      var p :| p in ops;
      MAXOPBLOCKS - ops[p] + Unused(ops - {p})
  }

  /** A buffer that may be recycled agrees with the disk; one that differs stays cached. */
  ghost predicate Clean<D>(s: State<D>) {
    && (forall b :: b in s.cache ==> b in s.disk && (s.cache[b] == s.disk[b] || b in s.pins || b in s.held))
    && (forall b :: b in s.pins ==> b in s.cache)
    && (forall b :: b in s.held ==> b in s.cache)
  }

  /** Exactly the listed blocks from index t on are pinned. */
  ghost predicate PinnedFrom<D>(s: State<D>, t: nat) {
    && (forall b :: b in s.pins ==> b in s.lh)
    && (forall i :: 0 <= i < |s.lh| ==> (s.lh[i] in s.pins <==> t <= i))
  }

  /** Log blocks 0 .. n-1 hold the cached contents of bs[lo..n]. */
  ghost predicate Logged<D>(c: Config, disk: map<nat, D>, cache: map<nat, D>, bs: seq<nat>, lo: nat, n: nat)
    requires n <= |bs|
  {
    forall i {:trigger bs[i]} :: lo <= i < n ==>
      bs[i] in cache && c.start + 1 + i in disk && disk[c.start + 1 + i] == cache[bs[i]]
  }

  /** The first n listed blocks are home already. */
  ghost predicate Installed<D>(c: Config, disk: map<nat, D>, bs: seq<nat>, n: nat)
    requires n <= |bs|
  {
    forall i {:trigger bs[i]} :: 0 <= i < n ==>
          bs[i] in disk && c.start + 1 + i in disk && disk[bs[i]] == disk[c.start + 1 + i]
  }

  ghost predicate PhaseInv<D>(c: Config, s: State<D>) {
    match s.phase
    case Running => s.hdr == [] && PinnedFrom(s, 0)
    case WritingLog(t) =>
      s.hdr == [] && t < |s.lh| && PinnedFrom(s, 0) && Logged(c, s.disk, s.cache, s.lh, 0, t)
    case WritingHead =>
      s.hdr == [] && 0 < |s.lh| && PinnedFrom(s, 0) && Logged(c, s.disk, s.cache, s.lh, 0, |s.lh|)
    case Installing(t) =>
      && s.hdr == s.lh && t < |s.lh| && PinnedFrom(s, t)
      && Installed(c, s.disk, s.lh, t) && Logged(c, s.disk, s.cache, s.lh, t, |s.lh|)
    case Clearing => s.lh == [] && s.pins == {} && Installed(c, s.disk, s.hdr, |s.hdr|)
    case Committed => s.hdr == [] && s.lh == [] && s.pins == {}
    case Rebooted => s.lh == [] && s.pins == {}
    case Reinstalling(t) => s.hdr == s.lh && t < |s.lh| && s.pins == {} && Installed(c, s.disk, s.lh, t)
    case Reclearing => s.lh == [] && s.pins == {} && Installed(c, s.disk, s.hdr, |s.hdr|)
  }

  ghost predicate Admission<D>(s: State<D>) {
    && (s.committing <==> !Recovering(s) && !s.phase.Running?)
    && (!s.phase.Running? ==> s.ops == map[])
    && (s.ops == map[] && s.phase.Running? ==> s.lh == [])
    && (Recovering(s) ==> s.sleepers == {})
    && (s.sleepers != {} ==> s.committing || Full(s))
    && (forall p :: p in s.ops ==> s.ops[p] <= MAXOPBLOCKS)
    && |s.lh| + Unused(s.ops) <= LOGSIZE
    && (forall b :: b in s.held ==> s.held[b] in s.ops)
  }

  ghost predicate Inv<D>(c: Config, s: State<D>) {
    && c.Wf()
    && GoodDisk(c, s.disk)
    && GoodList(c, s.hdr) && GoodList(c, s.lh)
    && (forall b :: b in s.held ==> c.Home(b))
    && Clean(s)
    && PhaseInv(c, s)
    && Admission(s)
  }

  /** Power-on with any disk whose header is readable. */
  ghost predicate Init<D>(c: Config, s: State<D>) {
    c.Wf() && GoodDisk(c, s.disk) && GoodList(c, s.hdr)
        && s == State(s.disk, s.hdr, map[], [], map[], {}, map[], {}, false, Rebooted)
  }

  // ----- the log space reserved by running operations -----

  lemma {:induction false} UnusedOf(ops: map<Pid, nat>, p: Pid)
    requires p in ops
    ensures Unused(ops) == MAXOPBLOCKS - ops[p] + Unused(ops - {p})
  {
    var q :| q in ops && Unused(ops) == MAXOPBLOCKS - ops[q] + Unused(ops - {q});
    if q != p {
      UnusedOf(ops - {q}, p);
      UnusedOf(ops - {p}, q);
      assert ops - {q} - {p} == ops - {p} - {q};
    }
  }

  lemma UnusedSet(ops: map<Pid, nat>, p: Pid, n: nat)
    ensures Unused(ops[p := n]) == MAXOPBLOCKS - n + Unused(ops - {p})
  {
    UnusedOf(ops[p := n], p);
    assert ops[p := n] - {p} == ops - {p};
  }

  lemma {:induction false} UnusedBounds(ops: map<Pid, nat>)
    requires forall p :: p in ops ==> ops[p] <= MAXOPBLOCKS
    ensures 0 <= Unused(ops) <= MAXOPBLOCKS * |ops|
  {
    if ops != map[] {
      var p :| p in ops;
      UnusedOf(ops, p);
      UnusedBounds(ops - {p});
      assert |ops - {p}| == |ops| - 1 by { assert (ops - {p}).Keys == ops.Keys - {p}; }
    }
  }

  lemma SpaceForOne(ops: map<Pid, nat>, used: nat, p: Pid)
    requires p !in ops && used + (|ops| + 1) * MAXOPBLOCKS <= LOGSIZE && forall q :: q in ops ==> ops[q] <= MAXOPBLOCKS
    ensures used + Unused(ops[p := 0]) <= LOGSIZE
  {
    hide Unused;
    UnusedSet(ops, p, 0);
    assert ops - {p} == ops;
    UnusedBounds(ops);
  }

  lemma BeginKeepsAdmission<D>(s: State<D>, p: Pid)
    requires Admission(s) && s.phase.Running? && p !in s.ops && !Full(s)
    ensures Admission(s.(ops := s.ops[p := 0]))
  {
    hide Unused;
    SpaceForOne(s.ops, |s.lh|, p);
    assert s.sleepers == {};
  }

  lemma LogWriteKeepsAdmission<D>(s: State<D>, p: Pid, b: nat)
    requires Admission(s) && p in s.ops && s.ops[p] < MAXOPBLOCKS && b !in s.lh
    ensures Admission(s.(held := s.held - {b}, lh := s.lh + [b], pins := s.pins + {b}, ops := s.ops[p := s.ops[p] + 1]))
  {
    hide Unused;
    UnusedOf(s.ops, p);
    UnusedSet(s.ops, p, s.ops[p] + 1);
    assert s.ops[p := s.ops[p] + 1].Keys == s.ops.Keys;
  }

  lemma EndKeepsSpace<D>(s: State<D>, p: Pid)
    requires Admission(s) && p in s.ops
    ensures |s.lh| + Unused(s.ops - {p}) <= LOGSIZE
  {
    hide Unused;
    UnusedOf(s.ops, p);
  }

  // ----- every step keeps the invariant -----

  lemma LogOne<D>(c: Config, disk: map<nat, D>, cache: map<nat, D>, bs: seq<nat>, t: nat)
    requires c.Wf() && GoodList(c, bs) && t < |bs| && bs[t] in cache
    requires Logged(c, disk, cache, bs, 0, t)
    ensures var b, d := c.start + 1 + t, cache[bs[t]];
            Logged(c, disk[b := d], cache[b := d], bs, 0, t + 1)
  {
    var b, d := c.start + 1 + t, cache[bs[t]];
    assert forall i :: 0 <= i < |bs| ==> bs[i] != b;
  }

  lemma CleanWrite<D>(s: State<D>, b: nat, d: D)
    requires Clean(s) && b in s.disk
    ensures Clean(Write(s, b, d))
  {}

  lemma CleanInstall<D>(s: State<D>, b: nat, d: D)
    requires Clean(s) && b in s.disk
    ensures Clean(Write(s, b, d).(pins := s.pins - {b}))
  {}

  lemma EvictKeepsLogged<D>(c: Config, s: State<D>, b: nat, lo: nat, n: nat)
    requires n <= |s.lh| && Logged(c, s.disk, s.cache, s.lh, lo, n) && PinnedFrom(s, lo)
    requires b !in s.pins
    ensures Logged(c, s.disk, s.cache - {b}, s.lh, lo, n)
  {}

  lemma InstallKeepsLogged<D>(c: Config, s: State<D>, t: nat)
    requires c.Wf() && GoodDisk(c, s.disk) && GoodList(c, s.lh) && t < |s.lh|
             && Logged(c, s.disk, s.cache, s.lh, t, |s.lh|)
    ensures var d := s.disk[c.start + 1 + t];
            Logged(c, s.disk[s.lh[t] := d], s.cache[s.lh[t] := d], s.lh, t + 1, |s.lh|)
  {
    assert forall i :: 0 <= i < |s.lh| ==> c.Home(s.lh[i]);
  }

  lemma InstallOne<D>(c: Config, disk: map<nat, D>, bs: seq<nat>, t: nat)
    requires c.Wf() && GoodDisk(c, disk) && GoodList(c, bs) && t < |bs|
    requires Installed(c, disk, bs, t)
    ensures GoodDisk(c, disk[bs[t] := disk[c.start + 1 + t]])
    ensures Installed(c, disk[bs[t] := disk[c.start + 1 + t]], bs, t + 1)
  {}

  lemma BeginKeepsInv<D>(c: Config, s: State<D>, p: Pid)
    requires Inv(c, s) && Enabled(c, s, Begin(p))
    ensures Inv(c, Do(c, s, Begin(p)))
  {
    BeginKeepsAdmission(s, p);
  }

  lemma WaitKeepsInv<D>(c: Config, s: State<D>, p: Pid)
    requires Inv(c, s) && Enabled(c, s, Wait(p))
    ensures Inv(c, Do(c, s, Wait(p)))
  {}

  lemma KillKeepsInv<D>(c: Config, s: State<D>, p: Pid)
    requires Inv(c, s) && Enabled(c, s, Kill(p))
    ensures Inv(c, Do(c, s, Kill(p)))
  {}

  lemma ModifyKeepsInv<D>(c: Config, s: State<D>, p: Pid, b: nat, data: D)
    requires Inv(c, s) && Enabled(c, s, Modify(p, b, data))
    ensures Inv(c, Do(c, s, Modify(p, b, data)))
  {}

  lemma LogWriteKeepsInv<D>(c: Config, s: State<D>, p: Pid, b: nat)
    requires Inv(c, s) && Enabled(c, s, LogWrite(p, b))
    ensures Inv(c, Do(c, s, LogWrite(p, b)))
  {
    if b !in s.lh { LogWriteKeepsAdmission(s, p, b); }
  }

  lemma EndKeepsInv<D>(c: Config, s: State<D>, p: Pid)
    requires Inv(c, s) && Enabled(c, s, End(p))
    ensures Inv(c, Do(c, s, End(p)))
  {
    EndKeepsSpace(s, p);
  }

  lemma FinishKeepsInv<D>(c: Config, s: State<D>)
    requires Inv(c, s) && Enabled(c, s, Finish)
    ensures Inv(c, Do(c, s, Finish))
  {}

  lemma LoadKeepsLogged<D>(c: Config, s: State<D>, b: nat, lo: nat, n: nat)
    requires n <= |s.lh| && Logged(c, s.disk, s.cache, s.lh, lo, n) && b !in s.cache && b in s.disk
    ensures Logged(c, s.disk, s.cache[b := s.disk[b]], s.lh, lo, n)
  {
    var cache := s.cache[b := s.disk[b]];
    forall i | lo <= i < n
      ensures s.lh[i] in cache && c.start + 1 + i in s.disk && s.disk[c.start + 1 + i] == cache[s.lh[i]]
    {
      assert s.lh[i] in s.cache;
    }
  }

  lemma LoadKeepsPhase<D>(c: Config, s: State<D>, r: State<D>, b: nat)
    requires PhaseInv(c, s) && b !in s.cache
    requires b in s.disk && r == s.(cache := s.cache[b := s.disk[b]])
    ensures PhaseInv(c, r)
  {
    match s.phase
    case WritingLog(t) => LoadKeepsLogged(c, s, b, 0, t);
    case WritingHead => LoadKeepsLogged(c, s, b, 0, |s.lh|);
    case Installing(t) => LoadKeepsLogged(c, s, b, t, |s.lh|);
    case _ =>
  }

  lemma LoadKeepsInv<D>(c: Config, s: State<D>, b: nat)
    requires Inv(c, s) && Enabled(c, s, Load(b))
    ensures Inv(c, Do(c, s, Load(b)))
  {
    LoadKeepsPhase(c, s, Do(c, s, Load(b)), b);
  }

  lemma EvictKeepsInv<D>(c: Config, s: State<D>, b: nat)
    requires Inv(c, s) && Enabled(c, s, Evict(b))
    ensures Inv(c, Do(c, s, Evict(b)))
  {
    var r := Do(c, s, Evict(b));
    assert Clean(r);
    match s.phase
    case WritingLog(t) => EvictKeepsLogged(c, s, b, 0, t);
    case WritingHead => EvictKeepsLogged(c, s, b, 0, |s.lh|);
    case Installing(t) => EvictKeepsLogged(c, s, b, t, |s.lh|);
    case _ =>
  }

  lemma CopyToLogKeepsPhase<D>(c: Config, s: State<D>, r: State<D>)
    requires c.Wf() && GoodList(c, s.lh) && PhaseInv(c, s) && Enabled(c, s, CopyToLog)
    requires s.phase.tail < |s.lh| && s.lh[s.phase.tail] in s.cache
    requires r.lh == s.lh && r.hdr == s.hdr && r.pins == s.pins
    requires var b, d := c.start + 1 + s.phase.tail, s.cache[s.lh[s.phase.tail]];
             r.disk == s.disk[b := d] && r.cache == s.cache[b := d]
    requires r.phase == if s.phase.tail + 1 < |s.lh| then WritingLog(s.phase.tail + 1) else WritingHead
    ensures PhaseInv(c, r)
  {
    LogOne(c, s.disk, s.cache, s.lh, s.phase.tail);
    assert PinnedFrom(r, 0);
  }

  lemma CopyToLogKeepsInv<D>(c: Config, s: State<D>)
    requires Inv(c, s) && Enabled(c, s, CopyToLog)
    ensures Inv(c, Do(c, s, CopyToLog))
  {
    var r := Do(c, s, CopyToLog);
    assert s.lh[s.phase.tail] in s.pins && c.Home(s.lh[s.phase.tail]);
    CopyToLogKeepsPhase(c, s, r);
    CleanWrite(s, c.start + 1 + s.phase.tail, s.cache[s.lh[s.phase.tail]]);
    assert Clean(r);
  }

  lemma CommitHeadKeepsInv<D>(c: Config, s: State<D>)
    requires Inv(c, s) && Enabled(c, s, CommitHead)
    ensures Inv(c, Do(c, s, CommitHead))
  {}

  lemma InstallKeepsPhase<D>(c: Config, s: State<D>, r: State<D>)
    requires c.Wf() && GoodDisk(c, s.disk) && GoodList(c, s.lh) && PhaseInv(c, s) && Enabled(c, s, Install)
    requires r.hdr == s.hdr && r.pins == s.pins - {s.lh[s.phase.tail]}
    requires var b, d := s.lh[s.phase.tail], s.disk[c.start + 1 + s.phase.tail];
             r.disk == s.disk[b := d] && r.cache == s.cache[b := d]
    requires if s.phase.tail + 1 < |s.lh| then r.phase == Installing(s.phase.tail + 1) && r.lh == s.lh
             else r.phase == Clearing && r.lh == []
    ensures PhaseInv(c, r)
  {
    InstallOne(c, s.disk, s.lh, s.phase.tail);
    InstallKeepsLogged(c, s, s.phase.tail);
    if s.phase.tail + 1 < |s.lh| {
      assert PinnedFrom(r, s.phase.tail + 1);
    } else {
      assert forall b :: b in r.pins ==> b in s.lh;
    }
  }

  lemma InstallKeepsInv<D>(c: Config, s: State<D>)
    requires Inv(c, s) && Enabled(c, s, Install)
    ensures Inv(c, Do(c, s, Install))
  {
    var r := Do(c, s, Install);
    InstallKeepsPhase(c, s, r);
    CleanInstall(s, s.lh[s.phase.tail], s.disk[c.start + 1 + s.phase.tail]);
    assert Clean(r);
  }

  lemma ClearHeadKeepsInv<D>(c: Config, s: State<D>)
    requires Inv(c, s) && Enabled(c, s, ClearHead)
    ensures Inv(c, Do(c, s, ClearHead))
  {}

  lemma CrashKeepsInv<D>(c: Config, s: State<D>)
    requires Inv(c, s) && Enabled(c, s, Crash)
    ensures Inv(c, Do(c, s, Crash))
  {}

  lemma ReadHeadKeepsInv<D>(c: Config, s: State<D>)
    requires Inv(c, s) && Enabled(c, s, ReadHead)
    ensures Inv(c, Do(c, s, ReadHead))
  {}

  lemma ReinstallKeepsPhase<D>(c: Config, s: State<D>, r: State<D>)
    requires c.Wf() && GoodDisk(c, s.disk) && GoodList(c, s.lh) && PhaseInv(c, s) && s.phase.Reinstalling?
    requires r.hdr == s.hdr && r.pins == s.pins
    requires var b, d := s.lh[s.phase.rtail], s.disk[c.start + 1 + s.phase.rtail];
             r.disk == s.disk[b := d] && r.cache == s.cache[b := d]
    requires if s.phase.rtail + 1 < |s.lh| then r.phase == Reinstalling(s.phase.rtail + 1) && r.lh == s.lh
             else r.phase == Reclearing && r.lh == []
    ensures PhaseInv(c, r)
  {
    InstallOne(c, s.disk, s.lh, s.phase.rtail);
  }

  lemma ReinstallKeepsInv<D>(c: Config, s: State<D>)
    requires Inv(c, s) && Enabled(c, s, Reinstall)
    ensures Inv(c, Do(c, s, Reinstall))
  {
    var r := Do(c, s, Reinstall);
    ReinstallKeepsPhase(c, s, r);
    CleanWrite(s, s.lh[s.phase.rtail], s.disk[c.start + 1 + s.phase.rtail]);
    assert Clean(r);
  }

  lemma ReclearHeadKeepsInv<D>(c: Config, s: State<D>)
    requires Inv(c, s) && Enabled(c, s, ReclearHead)
    ensures Inv(c, Do(c, s, ReclearHead))
  {}

  lemma StepKeepsInv<D>(c: Config, s: State<D>, step: Step<D>)
    requires Inv(c, s) && Enabled(c, s, step)
    ensures Inv(c, Do(c, s, step))
  {
    hide Inv, Do, Enabled;
    match step
    case Begin(p) => BeginKeepsInv(c, s, p);
    case Wait(p) => WaitKeepsInv(c, s, p);
    case Kill(p) => KillKeepsInv(c, s, p);
    case Modify(p, b, data) => ModifyKeepsInv(c, s, p, b, data);
    case LogWrite(p, b) => LogWriteKeepsInv(c, s, p, b);
    case End(p) => EndKeepsInv(c, s, p);
    case Finish => FinishKeepsInv(c, s);
    case Load(b) => LoadKeepsInv(c, s, b);
    case Evict(b) => EvictKeepsInv(c, s, b);
    case CopyToLog => CopyToLogKeepsInv(c, s);
    case CommitHead => CommitHeadKeepsInv(c, s);
    case Install => InstallKeepsInv(c, s);
    case ClearHead => ClearHeadKeepsInv(c, s);
    case Crash => CrashKeepsInv(c, s);
    case ReadHead => ReadHeadKeepsInv(c, s);
    case Reinstall => ReinstallKeepsInv(c, s);
    case ReclearHead => ReclearHeadKeepsInv(c, s);
  }
}
