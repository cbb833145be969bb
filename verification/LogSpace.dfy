/** Admission control of the log: begin_op's reservations against log_write's limit. */
module LogSpace {
  import opened Common
  import opened Blocks
  import opened LogProtocol
  import opened CrashSafety
  import opened LogTrace

  /** What begin_op and end_op keep true in every state of every run. */
  lemma RunAdmission<D(!new)>(c: Config, r: Run<D>, n: nat)
    requires IsRun(c, r) && n < |r.states|
    ensures var s := r.states[n];
            && (s.committing ==> s.ops == map[])
            && (!s.committing && !Recovering(s) && s.ops == map[] ==> s.lh == [])
            && |s.lh| + Unused(s.ops) <= LOGSIZE
            && (forall p :: p in s.ops ==> s.ops[p] <= MAXOPBLOCKS)
            // nobody sleeps on the log while its admission test would pass
            && (s.sleepers != {} ==> s.committing || Full(s))
  {
    RunInv(c, r, n);
  }

  lemma ReachInit<D(!new)>(c: Config, s: State<D>)
    requires Init(c, s)
    ensures Reachable(c, s)
  {
    GoesNowhere(c, s);
  }

  /** An operation with an unused slot can log a block, if the region has LOGSIZE + 1 blocks. */
  lemma SpaceForUnusedSlot<D(!new)>(c: Config, s: State<D>, p: Pid)
    requires Inv(c, s) && p in s.ops && s.ops[p] < MAXOPBLOCKS && c.size >= LOGSIZE + 1
    ensures !LogWritePanics(c, s)
  {
    UnusedOf(s.ops, p);
    UnusedBounds(s.ops - {p});
  }

  // ----- a run that fills the log -----

  function Share(k: nat, p: nat): nat
    requires p < 3 && k <= 30
  {
    if k <= 10 * p then 0 else if k >= 10 * p + 10 then 10 else k - 10 * p
  }

  ghost predicate Filled<D(!new)>(c: Config, s: State<D>, k: nat)
    requires k <= 30
  {
    && s.phase == Running && !s.committing && s.held == map[]
    && |s.lh| == k && (forall i :: 0 <= i < k ==> s.lh[i] == c.start + c.size + i)
    && s.ops == map[0 := Share(k, 0), 1 := Share(k, 1), 2 := Share(k, 2)]
    && s.cache.Keys == Members(s.lh) == s.pins
  }

  lemma ReachBegin<D(!new)>(c: Config, s: State<D>, p: Pid) returns (r: State<D>)
    requires Reachable(c, s) && !Recovering(s) && p !in s.ops && p !in s.sleepers && !s.committing && !Full(s)
    ensures Reachable(c, r) && r == s.(ops := s.ops[p := 0])
  {
    BeginGoes(c, s, p);
    r := s.(ops := s.ops[p := 0]);
    ReachOn(c, s, [Start(p)], r);
  }

  lemma ReachBoot<D(!new)>(c: Config, s0: State<D>) returns (r: State<D>)
    requires Init(c, s0) && s0.hdr == []
    ensures Reachable(c, r) && r == s0.(phase := Running)
  {
    ReachInit(c, s0);
    ReadHeadGoes(c, s0);
    var s1 := s0.(phase := Reclearing);
    ReachOn(c, s0, [], s1);
    ClearGoes(c, s1);
    r := s0.(phase := Running);
    ReachOn(c, s1, [], r);
  }

  lemma FillStart<D(!new)>(c: Config, s0: State<D>) returns (s: State<D>)
    requires Init(c, s0) && s0.hdr == []
    ensures Reachable(c, s) && Filled(c, s, 0)
  {
    s := ReachBoot(c, s0);
    s := ReachBegin(c, s, 0);
    assert s.ops == map[0 := 0] && |s.ops.Keys| == 1;
    s := ReachBegin(c, s, 1);
    assert s.ops == map[0 := 0, 1 := 0] && s.ops.Keys == {0, 1};
    s := ReachBegin(c, s, 2);
    assert s.ops == map[0 := 0, 1 := 0, 2 := 0];
    assert Members(s.lh) == {};
  }

  lemma ReachLogged<D(!new)>(c: Config, s: State<D>, p: Pid, b: nat, d: D) returns (r: State<D>)
    requires Reachable(c, s) && s.held == map[] && p in s.ops && s.ops[p] < MAXOPBLOCKS
    requires c.Home(b) && b !in s.lh && !LogWritePanics(c, s)
    ensures Reachable(c, r)
    ensures r == s.(cache := s.cache[b := d], lh := s.lh + [b], pins := s.pins + {b}, ops := s.ops[p := s.ops[p] + 1])
  {
    ModifyGoes(c, s, p, b, d);
    var m := s.(cache := s.cache[b := d], held := map[b := p]);
    assert s.held[b := p] == map[b := p];
    ReachOn(c, s, [Put(p, b, d)], m);
    LogWriteGoes(c, m, p, b);
    r := s.(cache := s.cache[b := d], lh := s.lh + [b], pins := s.pins + {b}, ops := s.ops[p := s.ops[p] + 1]);
    assert m.held - {b} == map[];
    ReachOn(c, m, [], r);
  }

  lemma FillOne<D(!new)>(c: Config, s: State<D>, k: nat, d: D) returns (r: State<D>)
    requires k < 30 && k < c.size - 1 && c.start + c.size + 30 <= c.nblocks
    requires Reachable(c, s) && Filled(c, s, k)
    ensures Reachable(c, r) && Filled(c, r, k + 1)
  {
    var p, b := k / 10, c.start + c.size + k;
    assert b !in s.lh;
    r := ReachLogged(c, s, p, b, d);
    assert Members(s.lh + [b]) == Members(s.lh) + {b};
    assert r.ops == map[0 := Share(k + 1, 0), 1 := Share(k + 1, 1), 2 := Share(k + 1, 2)];
  }

  lemma {:induction false} FillLog<D(!new)>(c: Config, s0: State<D>, k: nat, d: D) returns (s: State<D>)
    requires Init(c, s0) && s0.hdr == [] && c.start + c.size + 30 <= c.nblocks
    requires k <= 30 && k <= c.size - 1
    ensures Reachable(c, s) && Filled(c, s, k)
  {
    if k == 0 {
      s := FillStart(c, s0);
    } else {
      var t := FillLog(c, s0, k - 1, d);
      s := FillOne(c, t, k - 1, d);
    }
  }

  /** No operation that still has an unused slot ever meets the panic. */
  ghost predicate PanicFree<D(!new)>(c: Config, d: D) {
    forall s: State<D>, p: Pid :: Reachable(c, s) && p in s.ops && s.ops[p] < MAXOPBLOCKS ==> !LogWritePanics(c, s)
  }

  /** Operations within their reservation are safe from "too big a transaction" exactly
      when the log region has LOGSIZE + 1 blocks; mkfs makes it LOGSIZE blocks. */
  lemma PanicFreeIff<D(!new)>(c: Config, s0: State<D>, d: D)
    requires Init(c, s0) && s0.hdr == [] && c.start + c.size + 30 <= c.nblocks
    ensures PanicFree(c, d) <==> c.size >= LOGSIZE + 1
  {
    if c.size >= LOGSIZE + 1 {
      forall s: State<D>, p: Pid | Reachable(c, s) && p in s.ops && s.ops[p] < MAXOPBLOCKS
        ensures !LogWritePanics(c, s)
      {
        ReachInv(c, s);
        SpaceForUnusedSlot(c, s, p);
      }
    } else {
      var k := c.size - 1;
      var s := FillLog(c, s0, k, d);
      var p: nat := k / 10;
      assert p in s.ops && s.ops[p] < MAXOPBLOCKS && LogWritePanics(c, s);
    }
  }

  /** Even with LOGSIZE + 1 blocks, re-logging a block already in a full log panics: the
      limit is tested before absorption.  All three reservations are used up here. */
  lemma AbsorptionCanPanic<D(!new)>(c: Config, s0: State<D>, d: D) returns (s: State<D>)
    requires Init(c, s0) && s0.hdr == [] && c.start + c.size + 30 <= c.nblocks && c.size >= LOGSIZE + 1
    ensures Reachable(c, s) && LogWritePanics(c, s)
    ensures exists b :: b in s.held && b in s.lh && s.held[b] == 0 && 0 in s.ops
  {
    var f := FillLog(c, s0, 30, d);
    var b := c.start + c.size;
    assert f.lh[0] == b;
    ModifyGoes(c, f, 0, b, d);
    s := f.(cache := f.cache[b := d], held := f.held[b := 0]);
    ReachOn(c, f, [Put(0, b, d)], s);
    assert b in s.held && b in s.lh;
  }

  /** Exactly when log_write panics, absorbing or not: the log is full.  In a region of LOGSIZE + 1 blocks
      every operation in progress has then used its whole reservation, so one that has slots
      left re-logs safely. */
  lemma RelogPanicsIff<D>(c: Config, s: State<D>, q: Pid)
    requires Inv(c, s) && q in s.ops
    ensures LogWritePanics(c, s) <==> |s.lh| == c.Capacity()
    ensures c.size >= LOGSIZE + 1 ==> (LogWritePanics(c, s) <==> |s.lh| == LOGSIZE)
    ensures c.size >= LOGSIZE + 1 && LogWritePanics(c, s) ==> s.ops[q] == MAXOPBLOCKS
  {
    UnusedOf(s.ops, q);
    UnusedBounds(s.ops - {q});
  }

  // ----- buffers -----

  /** commit finds a buffer for each log block as long as the pins leave one. */
  ghost predicate BuffersSuffice<D(!new)>(c: Config, d: D) {
    forall s: State<D> :: Reachable(c, s) ==> |s.lh| < NBUF
  }

  /** The transactions that get through log_write leave commit a buffer exactly when the log region has
      at most NBUF blocks.  In a larger one the log can fill up with NBUF blocks, all buffers pinned. */
  lemma BuffersSufficeIff<D(!new)>(c: Config, s0: State<D>, d: D)
    requires Init(c, s0) && s0.hdr == [] && c.start + c.size + 30 <= c.nblocks
    ensures BuffersSuffice(c, d) <==> c.size <= NBUF
  {
    if c.size <= NBUF {
      forall s: State<D> | Reachable(c, s)
        ensures |s.lh| < NBUF
      {
        ReachInv(c, s);
      }
    } else {
      var s := FillLog(c, s0, 30, d);
      assert Reachable(c, s) && |s.lh| == NBUF;
    }
  }

  /** No size of the log region is right for both: operations within their reservation need LOGSIZE + 1
      blocks, commit with NBUF buffers at most NBUF. */
  lemma NoSizeIsSafe<D(!new)>(c: Config, s0: State<D>, d: D)
    requires Init(c, s0) && s0.hdr == [] && c.start + c.size + 30 <= c.nblocks
    ensures !(PanicFree(c, d) && BuffersSuffice(c, d))
  {
    hide Reachable, Init, LogWritePanics;
    PanicFreeIff(c, s0, d);
    BuffersSufficeIff(c, s0, d);
  }
}
