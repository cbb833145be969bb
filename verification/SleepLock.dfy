/** Sleep locks (kernel/sleeplock.c) over sleep and wakeup (kernel/proc.c), step by step.

    Any number of processes share one sleep lock.  Each acquisition or release of a spinlock is
    a step of its own: the lock's inner spinlock, and the per-process lock that sleep, wakeup,
    kill and the scheduler take.  Steps of different processes interleave freely. */
module SleepLock {
  import opened Common

  /** Where a process is: in acquiresleep (A), in sleep (S) or in releasesleep (R). */
  datatype Pc =
    | Idle          // does not hold the sleep lock and is not asking for it
    | AHeld         // holds the inner spinlock, about to test `locked`
    | ATook         // has set `locked`, about to release the inner spinlock
    | Holding       // holds the sleep lock
    | SCalled       // saw `locked` set; in sleep, about to take its own lock
    | SLocked       // holds its own lock too, about to release the inner spinlock
    | SReleased     // about to record channel and state
    | SMarked       // SLEEPING, about to switch to the scheduler
    | SAway         // switched out; back when the scheduler runs it
    | SBack         // running again with its own lock held
    | SRetry        // about to take the inner spinlock again
    | RHeld         // holds the inner spinlock, about to clear `locked`
    | RScan(i: nat) // in wakeup, about to look at process i
    | RLook(i: nat) // holds process i's lock

  datatype Status = Sleeping | Runnable | Running | Other
  datatype Owner = Free | By(id: nat) | ByOther

  /** One entry of the process table: `chan` says whether it sleeps on this lock. */
  datatype Proc = Proc(pc: Pc, status: Status, chan: bool, lock: Owner)

  /** `inner` is the owner of lk->lk; `locked` and `pid` are the fields of the sleep lock. */
  datatype State = State(inner: Option<nat>, locked: bool, pid: Option<nat>, procs: seq<Proc>)

  datatype Step =
    | Acquire(p: nat)    // acquire(&lk->lk), on entry, after sleep, or in releasesleep
    | Test(p: nat)       // the loop test; takes the lock if it is free
    | LockSelf(p: nat)   // sleep: acquire(&p->lock)
    | Release(p: nat)    // release(&lk->lk), in all three procedures
    | Mark(p: nat)       // sleep: chan and SLEEPING
    | Switch(p: nat)     // sched: the scheduler releases p->lock
    | Run(p: nat)        // the scheduler picks p
    | Tidy(p: nat)       // sleep: chan = 0, release(&p->lock)
    | Clear(p: nat)      // releasesleep: locked = 0, pid = 0
    | Look(p: nat)       // wakeup: the next process; acquires its lock unless it is p itself
    | Wake(p: nat)       // wakeup: wakes it if it sleeps on the lock, releases its lock
    | Kill(p: nat)       // kill by anyone: wakes a sleeping process
    | TakeLock(p: nat)   // someone else acquires p->lock
    | DropLock(p: nat)   // and releases it
    | Elsewhere(p: nat, status: Status) // p does something else: runs, sleeps on another channel

  predicate Enabled(s: State, t: Step) {
    t.p < |s.procs| &&
    var me := s.procs[t.p];
    match t
    case Acquire(p) => s.inner.None? && (me.pc.Idle? || me.pc.SRetry? || me.pc.Holding?) && me.status.Running?
    case Test(p) => me.pc.AHeld?
    case LockSelf(p) => me.pc.SCalled? && me.lock.Free?
    case Release(p) => me.pc.ATook? || me.pc.SLocked? || me.pc == RScan(|s.procs|)
    case Mark(p) => me.pc.SReleased?
    case Switch(p) => me.pc.SMarked?
    case Run(p) => me.pc.SAway? && me.status.Runnable? && me.lock.Free?
    case Tidy(p) => me.pc.SBack?
    case Clear(p) => me.pc.RHeld?
    case Look(p) => me.pc.RScan? && me.pc.i < |s.procs| && (me.pc.i == p || s.procs[me.pc.i].lock.Free?)
    case Wake(p) => me.pc.RLook? && me.pc.i < |s.procs|
    case Kill(p) => me.lock.Free?
    case TakeLock(p) => me.lock.Free?
    case DropLock(p) => me.lock.ByOther?
    case Elsewhere(p, status) => (me.pc.Idle? || me.pc.Holding?) && me.lock.Free?
  }

  function Goto(s: State, p: nat, pc: Pc): State
    requires p < |s.procs|
  {
    State(s.inner, s.locked, s.pid, s.procs[p := Proc(pc, s.procs[p].status, s.procs[p].chan, s.procs[p].lock)])
  }

  function Set(s: State, p: nat, me: Proc): State
    requires p < |s.procs|
  {
    State(s.inner, s.locked, s.pid, s.procs[p := me])
  }

  function Do(s: State, t: Step): State
    requires Enabled(s, t)
  {
    var me := s.procs[t.p];
    match t
    case Acquire(p) =>
      var next := if me.pc.Holding? then RHeld else AHeld;
      State(Some(p), s.locked, s.pid, s.procs[p := Proc(next, me.status, me.chan, me.lock)])
    case Test(p) =>
      if s.locked then Goto(s, p, SCalled)
      else State(s.inner, true, Some(p), s.procs[p := Proc(ATook, me.status, me.chan, me.lock)])
    case LockSelf(p) => Set(s, p, Proc(SLocked, me.status, me.chan, By(p)))
    case Release(p) =>
      var next := if me.pc.ATook? then Holding else if me.pc.SLocked? then SReleased else Idle;
      State(None, s.locked, s.pid, s.procs[p := Proc(next, me.status, me.chan, me.lock)])
    case Mark(p) => Set(s, p, Proc(SMarked, Sleeping, true, me.lock))
    case Switch(p) => Set(s, p, Proc(SAway, me.status, me.chan, Free))
    case Run(p) => Set(s, p, Proc(SBack, Running, me.chan, By(p)))
    case Tidy(p) => Set(s, p, Proc(SRetry, me.status, false, Free))
    case Clear(p) => State(s.inner, false, None, s.procs[p := Proc(RScan(0), me.status, me.chan, me.lock)])
    case Look(p) =>
      var i := me.pc.i;
      if i == p then Goto(s, p, RScan(i + 1))
      else
        var it := s.procs[i];
        Goto(Set(s, i, Proc(it.pc, it.status, it.chan, By(p))), p, RLook(i))
    case Wake(p) =>
      var i := me.pc.i;
      var it := s.procs[i];
      var status := if it.status.Sleeping? && it.chan then Runnable else it.status;
      Goto(Set(s, i, Proc(it.pc, status, it.chan, Free)), p, RScan(i + 1))
    case Kill(p) => Set(s, p, Proc(me.pc, if me.status.Sleeping? then Runnable else me.status, me.chan, me.lock))
    case TakeLock(p) => Set(s, p, Proc(me.pc, me.status, me.chan, ByOther))
    case DropLock(p) => Set(s, p, Proc(me.pc, me.status, me.chan, Free))
    case Elsewhere(p, status) => Set(s, p, Proc(me.pc, status, me.chan, me.lock))
  }

  // ----- the invariant -----

  /** The process owns the inner spinlock at these points. */
  predicate Inside(pc: Pc) {
    pc.AHeld? || pc.ATook? || pc.SCalled? || pc.SLocked? || pc.RHeld? || pc.RScan? || pc.RLook?
  }

  /** The process owns the sleep lock at these points. */
  predicate Owns(pc: Pc) { pc.ATook? || pc.Holding? || pc.RHeld? }

  /** The process owns its own lock at these points. */
  predicate OwnLock(pc: Pc) { pc.SLocked? || pc.SReleased? || pc.SMarked? || pc.SBack? }

  /** Asleep on the lock, or bound to be: it has given up the inner spinlock and nothing it does
      by itself will take it back to the test. */
  predicate Committed(me: Proc) { me.pc.SReleased? || me.pc.SMarked? || (me.pc.SAway? && me.status.Sleeping?) }

  /** The releaser's scan has yet to deal with process j. */
  predicate Ahead(pc: Pc, j: nat) { (pc.RScan? || pc.RLook?) && pc.i <= j }

  ghost predicate ProcOk(s: State, p: nat)
    requires p < |s.procs|
  {
    var me := s.procs[p];
    && (Inside(me.pc) <==> s.inner == Some(p))
    && (Owns(me.pc) <==> s.pid == Some(p))
    && (OwnLock(me.pc) <==> me.lock == By(p))
    && (me.lock.By? && me.lock.id != p ==> me.lock.id < |s.procs| && s.procs[me.lock.id].pc == RLook(p))
    && (me.pc.RLook? ==> me.pc.i < |s.procs| && me.pc.i != p && s.procs[me.pc.i].lock == By(p))
    && (me.pc.RScan? ==> me.pc.i <= |s.procs|)
    && (me.chan <==> me.pc.SMarked? || me.pc.SAway? || me.pc.SBack?)
    && (me.pc.SMarked? ==> me.status.Sleeping?)
    && (me.pc.SAway? ==> me.status.Sleeping? || me.status.Runnable?)
    && (me.pc.Idle? || me.pc.Holding? || me.pc.SMarked? || me.pc.SAway? || me.status.Running?)
  }

  /** A process bound to sleep is owed a wakeup: the lock is taken, or its releaser is still on
      the way to it. */
  ghost predicate Owed(s: State, j: nat)
    requires j < |s.procs|
  {
    Committed(s.procs[j]) ==>
      s.locked || (s.inner.Some? && s.inner.value < |s.procs| && Ahead(s.procs[s.inner.value].pc, j))
  }

  ghost predicate Inv(s: State) {
    && (s.locked <==> s.pid.Some?)
    && (s.inner.Some? ==> s.inner.value < |s.procs|)
    && (s.pid.Some? ==> s.pid.value < |s.procs|)
    && (forall p :: 0 <= p < |s.procs| ==> ProcOk(s, p))
    && (forall j :: 0 <= j < |s.procs| ==> Owed(s, j))
    && (forall p :: 0 <= p < |s.procs| ==> (s.procs[p].pc.SCalled? || s.procs[p].pc.SLocked? ==> s.locked))
  }

  ghost predicate Init(s: State) {
    && s.inner.None? && !s.locked && s.pid.None?
    && forall p :: 0 <= p < |s.procs| ==> s.procs[p].pc.Idle? && !s.procs[p].chan && !s.procs[p].lock.By?
  }

  lemma InitInv(s: State)
    requires Init(s)
    ensures Inv(s)
  {}

  /** Steps on the inner spinlock. */
  lemma InnerStepKeepsProc(s: State, t: Step, p: nat)
    requires Enabled(s, t) && p < |s.procs| && (t.Acquire? || t.Release?)
    requires ProcOk(s, t.p) && ProcOk(s, p)
    ensures ProcOk(Do(s, t), p)
  {
    var me, s' := s.procs[p], Do(s, t);
    assert p != t.p ==> s'.procs[p] == me;
    assert me.lock.By? && me.lock.id < |s.procs| && me.lock.id != t.p ==> s'.procs[me.lock.id] == s.procs[me.lock.id];
  }

  /** Steps on the sleep lock itself. */
  lemma OuterStepKeepsProc(s: State, t: Step, p: nat)
    requires Enabled(s, t) && p < |s.procs| && (t.Test? || t.Clear?) && (s.locked <==> s.pid.Some?)
    requires ProcOk(s, t.p) && ProcOk(s, p)
    ensures ProcOk(Do(s, t), p)
  {
    var me, s' := s.procs[p], Do(s, t);
    assert p != t.p ==> s'.procs[p] == me;
    assert me.lock.By? && me.lock.id < |s.procs| && me.lock.id != t.p ==> s'.procs[me.lock.id] == s.procs[me.lock.id];
  }

  /** Steps of sleep. */
  lemma SleepStepKeepsProc(s: State, t: Step, p: nat)
    requires Enabled(s, t) && p < |s.procs| && (t.LockSelf? || t.Mark? || t.Switch? || t.Run? || t.Tidy?)
    requires ProcOk(s, t.p) && ProcOk(s, p)
    ensures ProcOk(Do(s, t), p)
  {
    var me, s' := s.procs[p], Do(s, t);
    assert p != t.p ==> s'.procs[p] == me;
    assert me.lock.By? && me.lock.id < |s.procs| && me.lock.id != t.p ==> s'.procs[me.lock.id] == s.procs[me.lock.id];
  }

  /** Steps of others. */
  lemma OtherStepKeepsProc(s: State, t: Step, p: nat)
    requires Enabled(s, t) && p < |s.procs| && (t.Kill? || t.TakeLock? || t.DropLock? || t.Elsewhere?)
    requires ProcOk(s, t.p) && ProcOk(s, p)
    ensures ProcOk(Do(s, t), p)
  {
    var me, s' := s.procs[p], Do(s, t);
    assert p != t.p ==> s'.procs[p] == me;
    assert me.lock.By? && me.lock.id < |s.procs| && me.lock.id != t.p ==> s'.procs[me.lock.id] == s.procs[me.lock.id];
  }

  /** wakeup takes a process's lock. */
  lemma LookKeepsProc(s: State, t: Step, p: nat)
    requires Enabled(s, t) && p < |s.procs| && (t.Look?) && ProcOk(s, s.procs[t.p].pc.i)
    requires ProcOk(s, t.p) && ProcOk(s, p)
    ensures ProcOk(Do(s, t), p)
  {
    var me, i, s' := s.procs[p], s.procs[t.p].pc.i, Do(s, t);
    assert p != t.p && p != i ==> s'.procs[p] == me;
    assert me.lock.By? && me.lock.id < |s.procs| && me.lock.id != t.p ==>
             s'.procs[me.lock.id].pc == s.procs[me.lock.id].pc;
  }

  /** wakeup wakes it and moves on. */
  lemma WakeKeepsProc(s: State, t: Step, p: nat)
    requires Enabled(s, t) && p < |s.procs| && (t.Wake?) && ProcOk(s, s.procs[t.p].pc.i)
    requires ProcOk(s, t.p) && ProcOk(s, p)
    ensures ProcOk(Do(s, t), p)
  {}

  /** What each process is sure of survives any step of any process. */
  lemma StepKeepsProc(s: State, t: Step, p: nat)
    requires Inv(s) && Enabled(s, t) && p < |s.procs|
    ensures ProcOk(Do(s, t), p)
  {
    assert ProcOk(s, t.p) && ProcOk(s, p);
    match t
    case Acquire(_) => InnerStepKeepsProc(s, t, p);
    case Release(_) => InnerStepKeepsProc(s, t, p);
    case Test(_) => OuterStepKeepsProc(s, t, p);
    case Clear(_) => OuterStepKeepsProc(s, t, p);
    case Look(_) => LookKeepsProc(s, t, p);
    case Wake(_) => WakeKeepsProc(s, t, p);
    case Kill(_) => OtherStepKeepsProc(s, t, p);
    case TakeLock(_) => OtherStepKeepsProc(s, t, p);
    case DropLock(_) => OtherStepKeepsProc(s, t, p);
    case Elsewhere(_, _) => OtherStepKeepsProc(s, t, p);
    case _ => SleepStepKeepsProc(s, t, p);
  }

  /** No step takes a process past the point of sleeping without a wakeup to come. */
  lemma StepKeepsOwed(s: State, t: Step, j: nat)
    requires Inv(s) && Enabled(s, t) && j < |s.procs|
    ensures Owed(Do(s, t), j)
  {
    assert ProcOk(s, t.p) && ProcOk(s, j) && Owed(s, j);
    if s.inner.Some? { assert ProcOk(s, s.inner.value); }
  }

  lemma StepKeepsInv(s: State, t: Step)
    requires Inv(s) && Enabled(s, t)
    ensures Inv(Do(s, t))
  {
    var s' := Do(s, t);
    assert ProcOk(s, t.p);
    forall p | 0 <= p < |s'.procs|
      ensures ProcOk(s', p)
    {
      StepKeepsProc(s, t, p);
    }
    forall j | 0 <= j < |s'.procs|
      ensures Owed(s', j)
    {
      StepKeepsOwed(s, t, j);
    }
    forall p | 0 <= p < |s'.procs| && (s'.procs[p].pc.SCalled? || s'.procs[p].pc.SLocked?)
      ensures s'.locked
    {
      assert ProcOk(s, p);
    }
  }

  // ----- whole runs -----

  ghost predicate StepAt(ss: seq<State>, ts: seq<Step>, k: nat)
    requires k < |ts| && |ss| == |ts| + 1
  {
    Enabled(ss[k], ts[k]) && ss[k + 1] == Do(ss[k], ts[k])
  }

  ghost predicate IsRun(ss: seq<State>, ts: seq<Step>) {
    |ss| == |ts| + 1 && Init(ss[0]) && forall k: nat :: k < |ts| ==> StepAt(ss, ts, k)
  }

  lemma {:induction false} RunInv(ss: seq<State>, ts: seq<Step>, k: nat)
    requires IsRun(ss, ts) && k < |ss|
    ensures Inv(ss[k])
  {
    if k == 0 {
      InitInv(ss[0]);
    } else {
      RunInv(ss, ts, k - 1);
      assert StepAt(ss, ts, k - 1);
      StepKeepsInv(ss[k - 1], ts[k - 1]);
    }
  }

  /** No lost wakeup: in every state of every run, if the inner spinlock is free and the sleep
      lock is not taken, no process sleeps on it or is on its way to sleep. */
  lemma NoLostWakeup(ss: seq<State>, ts: seq<Step>, k: nat)
    requires IsRun(ss, ts) && k < |ss| && ss[k].inner.None? && !ss[k].locked
    ensures forall j :: 0 <= j < |ss[k].procs| ==> !Committed(ss[k].procs[j])
  {
    RunInv(ss, ts, k);
    forall j | 0 <= j < |ss[k].procs|
      ensures !Committed(ss[k].procs[j])
    {
      assert Owed(ss[k], j);
    }
  }

  /** At most one process owns the sleep lock, and one does exactly when it is taken; at most one
      owns the inner spinlock. */
  lemma MutualExclusion(ss: seq<State>, ts: seq<Step>, k: nat, p: nat, q: nat)
    requires IsRun(ss, ts) && k < |ss| && p < |ss[k].procs| && q < |ss[k].procs|
    ensures Owns(ss[k].procs[p].pc) && Owns(ss[k].procs[q].pc) ==> p == q
    ensures Inside(ss[k].procs[p].pc) && Inside(ss[k].procs[q].pc) ==> p == q
    ensures ss[k].locked <==> exists j :: 0 <= j < |ss[k].procs| && Owns(ss[k].procs[j].pc)
  {
    RunInv(ss, ts, k);
    var s := ss[k];
    assert ProcOk(s, p) && ProcOk(s, q);
    if s.locked {
      assert ProcOk(s, s.pid.value) && Owns(s.procs[s.pid.value].pc);
    }
    if j :| 0 <= j < |s.procs| && Owns(s.procs[j].pc) {
      assert ProcOk(s, j);
    }
  }

  // ----- what the two procedures come to -----

  predicate Outside(pc: Pc) { pc.Idle? || pc.Holding? }
  predicate Releasing(pc: Pc) { pc.RHeld? || pc.RScan? || pc.RLook? }

  /** State j is the first after i in which process p is outside again. */
  ghost predicate Call(ss: seq<State>, i: nat, j: nat, p: nat) {
    && i < j < |ss| && (forall k :: i < k <= j ==> p < |ss[k].procs|) && Outside(ss[j].procs[p].pc)
    && forall k :: i < k < j ==> !Outside(ss[k].procs[p].pc)
  }

  /** In acquiresleep no step leads out but to the lock; in releasesleep none but away from it, and the lock is
      cleared first. */
  lemma StaysInside(s: State, t: Step, p: nat)
    requires Enabled(s, t) && p < |s.procs| && !Outside(s.procs[p].pc)
    ensures var pc, pc' := s.procs[p].pc, Do(s, t).procs[p].pc;
            && |Do(s, t).procs| == |s.procs|
            && (!Releasing(pc) ==> !Releasing(pc') && !pc'.Idle?)
            && (Releasing(pc) ==> Releasing(pc') || pc'.Idle?)
            && (pc.RHeld? && !pc'.RHeld? ==> t == Clear(p))
            && (Releasing(pc) && !pc.RHeld? ==> !pc'.RHeld?)
  {}

  lemma Entered(s: State, p: nat)
    requires Enabled(s, Acquire(p))
    ensures var pc' := Do(s, Acquire(p)).procs[p].pc;
            (Releasing(pc') <==> s.procs[p].pc.Holding?) && (Releasing(pc') ==> pc'.RHeld?) && !pc'.Idle?
  {}

  /** Up to state k of a call. */
  lemma {:induction false} Within(ss: seq<State>, ts: seq<Step>, i: nat, j: nat, p: nat, k: nat)
    requires IsRun(ss, ts) && Call(ss, i, j, p) && ts[i] == Acquire(p) && i < k <= j
    ensures p < |ss[i].procs|
    ensures var pc := ss[k].procs[p].pc;
            && (ss[i].procs[p].pc.Holding? ==>
                  && (Releasing(pc) || (k == j && pc.Idle?))
                  && (pc.RHeld? || exists c :: i < c < k && ts[c] == Clear(p)))
            && (!ss[i].procs[p].pc.Holding? ==> !Releasing(pc) && !pc.Idle?)
  {
    hide Do, Enabled;
    if k == i + 1 {
      assert StepAt(ss, ts, i);
      Acquirer(ss[i], p);
      Entered(ss[i], p);
    } else {
      Within(ss, ts, i, j, p, k - 1);
      assert StepAt(ss, ts, k - 1);
      StaysInside(ss[k - 1], ts[k - 1], p);
      if ss[k - 1].procs[p].pc.RHeld? && !ss[k].procs[p].pc.RHeld? { assert ts[k - 1] == Clear(p); }
    }
  }

  lemma Acquirer(s: State, p: nat)
    requires Enabled(s, Acquire(p))
    ensures p < |s.procs|
  {}

  /** acquiresleep returns with the lock: in every run, a process that enters it is, when it is next outside,
      the holder, and the lock's fields say so. */
  lemma AcquireTakes(ss: seq<State>, ts: seq<Step>, i: nat, j: nat, p: nat)
    requires IsRun(ss, ts) && Call(ss, i, j, p) && ts[i] == Acquire(p) && p < |ss[i].procs|
             && !ss[i].procs[p].pc.Holding?
    ensures ss[j].procs[p].pc.Holding? && ss[j].locked && ss[j].pid == Some(p)
  {
    hide Do, Enabled;
    Within(ss, ts, i, j, p, j);
    RunInv(ss, ts, j);
    assert ProcOk(ss[j], p);
  }

  /** releasesleep returns without it: the lock has been cleared in between, and is not this process's. */
  lemma ReleaseGives(ss: seq<State>, ts: seq<Step>, i: nat, j: nat, p: nat)
    requires IsRun(ss, ts) && Call(ss, i, j, p) && ts[i] == Acquire(p) && p < |ss[i].procs|
             && ss[i].procs[p].pc.Holding?
    ensures ss[j].procs[p].pc.Idle? && ss[j].pid != Some(p)
    ensures exists c :: i < c < j && ts[c] == Clear(p) && !ss[c + 1].locked && ss[c + 1].pid.None?
  {
    hide Do, Enabled;
    Within(ss, ts, i, j, p, j);
    RunInv(ss, ts, j);
    assert ProcOk(ss[j], p);
    var c :| i < c < j && ts[c] == Clear(p);
    assert StepAt(ss, ts, c);
    Cleared(ss[c], p);
  }

  lemma Cleared(s: State, p: nat)
    requires Enabled(s, Clear(p))
    ensures !Do(s, Clear(p)).locked && Do(s, Clear(p)).pid.None?
  {}

  /** How many steps of its own a process has before it at most, until it is outside or asleep, among n processes. */
  function Left(pc: Pc, n: nat): int {
    match pc
    case Idle => 0
    case Holding => 0
    case AHeld => 6
    case ATook => 1
    case SCalled => 5
    case SLocked => 4
    case SReleased => 3
    case SMarked => 2
    case SAway => 1
    case SBack => 2
    case SRetry => 1
    case RHeld => 2 * n + 2
    case RScan(i) => 2 * (n - i) + 1
    case RLook(i) => 2 * (n - i)
  }

  /** Every own step brings a process nearer to the end of its call, but for the two with which one that was woken
      tries again. */
  lemma StepsEnd(s: State, t: Step)
    requires Inv(s) && Enabled(s, t) && Progress(t) && !t.DropLock? && !t.Acquire? && !t.Run?
    ensures t.p < |Do(s, t).procs| == |s.procs|
    ensures 0 <= Left(Do(s, t).procs[t.p].pc, |s.procs|) < Left(s.procs[t.p].pc, |s.procs|)
  {
    assert ProcOk(s, t.p);
  }

  /** A process in the middle of acquiresleep or releasesleep and not asleep. */
  predicate Busy(me: Proc) { !me.pc.Idle? && !me.pc.Holding? && !(me.pc.SAway? && me.status.Sleeping?) }

  /** A step of the protocol itself, or a release of a process lock held by another. */
  predicate Progress(t: Step) { !t.Kill? && !t.TakeLock? && !t.Elsewhere? }

  /** The holder of process i's lock can move. */
  lemma LockMoves(s: State, i: nat) returns (t: Step)
    requires Inv(s) && i < |s.procs| && !s.procs[i].lock.Free?
    ensures Enabled(s, t) && Progress(t)
  {
    assert ProcOk(s, i);
    var me := s.procs[i];
    if me.lock.ByOther? {
      t := DropLock(i);
    } else if me.lock.id == i {
      t := if me.pc.SLocked? then Release(i) else if me.pc.SReleased? then Mark(i)
          else if me.pc.SMarked? then Switch(i) else Tidy(i);
    } else {
      t := Wake(me.lock.id);
    }
  }

  /** The owner of the inner spinlock can move, or the lock it waits for can be released. */
  lemma InnerMoves(s: State) returns (t: Step)
    requires Inv(s) && s.inner.Some?
    ensures Enabled(s, t) && Progress(t)
  {
    var q := s.inner.value;
    assert ProcOk(s, q);
    var me := s.procs[q];
    match me.pc
    case AHeld => t := Test(q);
    case ATook => t := Release(q);
    case SCalled => if me.lock.Free? { t := LockSelf(q); } else { t := LockMoves(s, q); }
    case SLocked => t := Release(q);
    case RHeld => t := Clear(q);
    case RScan(i) =>
      if i == |s.procs| { t := Release(q); }
      else if i == q || s.procs[i].lock.Free? { t := Look(q); }
      else { t := LockMoves(s, i); }
    case RLook(i) => t := Wake(q);
  }

  /** No deadlock: in every state of every run, if a process is in the middle of acquiring or
      releasing and not asleep, some protocol step is possible. */
  lemma NotStuck(ss: seq<State>, ts: seq<Step>, k: nat, p: nat) returns (t: Step)
    requires IsRun(ss, ts) && k < |ss| && p < |ss[k].procs| && Busy(ss[k].procs[p])
    ensures Enabled(ss[k], t) && Progress(t)
  {
    RunInv(ss, ts, k);
    var s := ss[k];
    assert ProcOk(s, p);
    if s.inner.Some? {
      t := InnerMoves(s);
    } else {
      match s.procs[p].pc
      case SReleased => t := Mark(p);
      case SMarked => t := Switch(p);
      case SAway => if s.procs[p].lock.Free? { t := Run(p); } else { t := LockMoves(s, p); }
      case SBack => t := Tidy(p);
      case SRetry => t := Acquire(p);
    }
  }
}
