/** Process life cycle (kernel/proc.c: allocproc, fork, reparent, exit, wait, kill) step by step.

    Processes are the slots of the process table.  A step is one action between two points where
    another process can intervene: taking or releasing wait_lock, taking a process lock that is
    kept across actions, looking at one slot in a table scan.  Steps interleave freely. */
module ProcLife {
  import opened Common

  /** Where the process of a slot is in the kernel. */
  datatype Pc =
    | Out                          // none of the points below
    | FNew(np: nat)                // fork: holds np's lock, copying memory
    | FMade(np: nat)               // fork: np's lock released, about to record the parent
    | FLinked(np: nat)             // fork: parent recorded, about to make np runnable
    | XReparent(i: nat)            // exit: holds wait_lock; reparent is at slot i
    | XWakeInit(i: nat, j: nat)    // exit: reparent gave slot i to init; wakeup(init) is at slot j
    | XWake(j: nat)                // exit: wakeup(parent) is at slot j
    | XMark                        // exit: holds its own lock too, about to become a zombie
    | XRelease                     // exit: a zombie, about to release wait_lock
    | XSwitch                      // exit: about to switch to the scheduler
    | XGone                        // exit: never runs again
    | WScan(i: nat, kids: bool)    // wait: holds wait_lock; the scan is at slot i
    | WCall                        // wait: in sleep, about to take its own lock
    | WLocked                      // wait: holds its own lock, about to release wait_lock
    | WReleased                    // wait: about to record channel and state
    | WMarked                      // wait: SLEEPING, about to switch to the scheduler
    | WAway                        // wait: switched out
    | WBack                        // wait: running again with its own lock held
    | WRetry                       // wait: about to take wait_lock again

  datatype Status = Unused | Used | Sleeping | Runnable | Running | Zombie
  datatype Owner = Free | By(id: nat)

  /** A slot of the table.  `chan` is the slot whose address it sleeps on in wait; `maker` is the
      process that allocated it. */
  datatype Slot = Slot(pc: Pc, status: Status, pid: nat, parent: Option<nat>, chan: Option<nat>,
                       killed: bool, xstate: int, lock: Owner, maker: nat)

  /** `exited` and `reaped` record history: statuses by exited pid, and what wait has returned. */
  datatype State = State(waitLock: Option<nat>, nextpid: nat, slots: seq<Slot>, exited: map<nat, int>,
      reaped: seq<(nat, int)>)

  datatype Step =
    | Alloc(p: nat, np: nat)       // fork: allocproc finds slot np
    | Fail(p: nat)                 // fork: out of memory, freeproc(np)
    | Copied(p: nat)               // fork: memory copied, release(&np->lock)
    | Link(p: nat)                 // fork: np->parent = p under wait_lock
    | Start(p: nat)                // fork: np becomes RUNNABLE
    | Exit(p: nat)                 // exit: acquire(&wait_lock)
    | Reparent(p: nat)             // exit: one slot of reparent
    | WakeInit(p: nat)             // exit: one slot of wakeup(initproc)
    | WakeParent(p: nat)           // exit: one slot of wakeup(p->parent)
    | LockSelf(p: nat)             // exit: acquire(&p->lock)
    | Die(p: nat, code: int)       // exit: xstate, ZOMBIE
    | ExitRelease(p: nat)          // exit: release(&wait_lock)
    | Vanish(p: nat)               // exit: sched; the scheduler releases p->lock
    | Wait(p: nat)                 // wait: acquire(&wait_lock), on entry or after sleep
    | Scan(p: nat, copied: bool)   // wait: one slot of the scan; `copied` is copyout's outcome
    | Decide(p: nat)               // wait: after the scan
    | SleepLock(p: nat)            // sleep: acquire(&p->lock)
    | SleepRelease(p: nat)         // sleep: release(&wait_lock)
    | Mark(p: nat)                 // sleep: chan and SLEEPING
    | Switch(p: nat)               // sleep: sched
    | Run(p: nat)                  // the scheduler picks p
    | Tidy(p: nat)                 // sleep: chan = 0, release(&p->lock)
    | Kill(p: nat)                 // kill by anyone
    | Elsewhere(p: nat, status: Status) // p is scheduled, preempted, or sleeps on something else

  predicate Active(status: Status) { status.Sleeping? || status.Runnable? || status.Running? }
  /** Neither UNUSED nor ZOMBIE. */
  predicate Live(status: Status) { status.Used? || Active(status) }

  function Put(s: State, p: nat, me: Slot): State
    requires p < |s.slots|
  {
    State(s.waitLock, s.nextpid, s.slots[p := me], s.exited, s.reaped)
  }

  function At(me: Slot, pc: Pc): Slot {
    Slot(pc, me.status, me.pid, me.parent, me.chan, me.killed, me.xstate, me.lock, me.maker)
  }

  function WithLock(me: Slot, pc: Pc, lock: Owner): Slot {
    Slot(pc, me.status, me.pid, me.parent, me.chan, me.killed, me.xstate, lock, me.maker)
  }

  function WithStatus(me: Slot, status: Status): Slot {
    Slot(me.pc, status, me.pid, me.parent, me.chan, me.killed, me.xstate, me.lock, me.maker)
  }

  function WithParent(me: Slot, parent: nat): Slot {
    Slot(me.pc, me.status, me.pid, Some(parent), me.chan, me.killed, me.xstate, me.lock, me.maker)
  }

  /** freeproc and the release of the slot's lock. */
  function Freed(me: Slot): Slot { Slot(Out, Unused, 0, None, None, false, 0, Free, me.maker) }

  /** p moves on with wait_lock as given. */
  function Move(s: State, p: nat, pc: Pc, waitLock: Option<nat>): State
    requires p < |s.slots|
  {
    State(waitLock, s.nextpid, s.slots[p := At(s.slots[p], pc)], s.exited, s.reaped)
  }

  /** What wakeup(chan) does to one slot. */
  function Woken(me: Slot, chan: Option<nat>): Slot {
    if me.status.Sleeping? && me.chan == chan then WithStatus(me, Runnable) else me
  }

  /** Slot i, then slot p, get new values. */
  function Put2(s: State, i: nat, it: Slot, p: nat, me: Slot): State
    requires i < |s.slots| && p < |s.slots|
  {
    State(s.waitLock, s.nextpid, s.slots[i := it][p := me], s.exited, s.reaped)
  }

  // ----- steps -----

  /** fork: allocproc takes slot np.  Parent, channel, killed flag and status stay as they are. */
  predicate CanAlloc(s: State, p: nat, np: nat) {
    p < |s.slots| && np < |s.slots| && s.slots[p].pc.Out? && s.slots[p].status.Running?
        && s.slots[np].status.Unused? && s.slots[np].lock.Free?
  }

  function DoAlloc(s: State, p: nat, np: nat): State
    requires CanAlloc(s, p, np)
  {
    var was := s.slots[np];
    var it := Slot(Out, Used, s.nextpid, was.parent, was.chan, was.killed, was.xstate, By(p), p);
    State(s.waitLock, s.nextpid + 1, s.slots[np := it][p := At(s.slots[p], FNew(np))], s.exited, s.reaped)
  }

  /** fork: out of memory; freeproc(np) and release(&np->lock). */
  predicate CanFail(s: State, p: nat) {
    p < |s.slots| && s.slots[p].pc.FNew? && s.slots[p].pc.np < |s.slots|
  }

  function DoFail(s: State, p: nat): State
    requires CanFail(s, p)
  {
    var np := s.slots[p].pc.np;
    Put2(s, np, Freed(s.slots[np]), p, At(s.slots[p], Out))
  }

  /** fork: memory copied; release(&np->lock). */
  predicate CanCopied(s: State, p: nat) {
    p < |s.slots| && s.slots[p].pc.FNew? && s.slots[p].pc.np < |s.slots|
  }

  function DoCopied(s: State, p: nat): State
    requires CanCopied(s, p)
  {
    var np := s.slots[p].pc.np;
    Put2(s, np, WithLock(s.slots[np], s.slots[np].pc, Free), p, At(s.slots[p], FMade(np)))
  }

  /** fork: np->parent = p, under wait_lock. */
  predicate CanLink(s: State, p: nat) {
    p < |s.slots| && s.slots[p].pc.FMade? && s.slots[p].pc.np < |s.slots| && s.waitLock.None?
  }

  function DoLink(s: State, p: nat): State
    requires CanLink(s, p)
  {
    var np := s.slots[p].pc.np;
    Put2(s, np, WithParent(s.slots[np], p), p, At(s.slots[p], FLinked(np)))
  }

  /** fork: np becomes RUNNABLE, under its lock. */
  predicate CanStart(s: State, p: nat) {
    p < |s.slots| && s.slots[p].pc.FLinked? && s.slots[p].pc.np < |s.slots| && s.slots[s.slots[p].pc.np].lock.Free?
  }

  function DoStart(s: State, p: nat): State
    requires CanStart(s, p)
  {
    var np := s.slots[p].pc.np;
    Put2(s, np, WithStatus(s.slots[np], Runnable), p, At(s.slots[p], Out))
  }

  /** exit: acquire(&wait_lock).  init never exits. */
  predicate CanExit(s: State, p: nat, init: nat) {
    p < |s.slots| && p != init && s.slots[p].pc.Out? && s.slots[p].status.Running? && s.waitLock.None?
  }

  function DoExit(s: State, p: nat, init: nat): State
    requires CanExit(s, p, init)
  {
    Move(s, p, XReparent(0), Some(p))
  }

  /** exit: one slot of reparent; a child goes to init. */
  predicate CanReparent(s: State, p: nat, init: nat) {
    p < |s.slots| && s.slots[p].pc.XReparent?
  }

  function DoReparent(s: State, p: nat, init: nat): State
    requires CanReparent(s, p, init)
  {
    var i := s.slots[p].pc.i;
    if i >= |s.slots| then Move(s, p, XWake(0), s.waitLock)
    else if s.slots[i].parent == Some(p) then Put2(s, i, WithParent(s.slots[i], init), p,
        At(s.slots[p], XWakeInit(i, 0)))
    else Move(s, p, XReparent(i + 1), s.waitLock)
  }

  /** exit: one slot of wakeup(initproc). */
  predicate CanWakeInit(s: State, p: nat, init: nat) {
    p < |s.slots| && s.slots[p].pc.XWakeInit? && (s.slots[p].pc.j < |s.slots| && s.slots[p].pc.j != p ==>
        s.slots[s.slots[p].pc.j].lock.Free?)
  }

  function DoWakeInit(s: State, p: nat, init: nat): State
    requires CanWakeInit(s, p, init)
  {
    var i, j := s.slots[p].pc.i, s.slots[p].pc.j;
    if j >= |s.slots| then Move(s, p, XReparent(i + 1), s.waitLock)
    else if j == p then Move(s, p, XWakeInit(i, j + 1), s.waitLock)
    else Put2(s, j, Woken(s.slots[j], Some(init)), p, At(s.slots[p], XWakeInit(i, j + 1)))
  }

  /** exit: one slot of wakeup(p->parent). */
  predicate CanWakeParent(s: State, p: nat) {
    p < |s.slots| && s.slots[p].pc.XWake? && s.slots[p].pc.j < |s.slots|
        && (s.slots[p].pc.j != p ==> s.slots[s.slots[p].pc.j].lock.Free?)
  }

  function DoWakeParent(s: State, p: nat): State
    requires CanWakeParent(s, p)
  {
    var j := s.slots[p].pc.j;
    if j == p then Move(s, p, XWake(j + 1), s.waitLock)
    else Put2(s, j, Woken(s.slots[j], s.slots[p].parent), p, At(s.slots[p], XWake(j + 1)))
  }

  /** exit: acquire(&p->lock). */
  predicate CanLockSelf(s: State, p: nat) {
    p < |s.slots| && s.slots[p].pc == XWake(|s.slots|) && s.slots[p].lock.Free?
  }

  function DoLockSelf(s: State, p: nat): State
    requires CanLockSelf(s, p)
  {
    Put(s, p, WithLock(s.slots[p], XMark, By(p)))
  }

  /** exit: xstate = code, state = ZOMBIE. */
  predicate CanDie(s: State, p: nat, code: int) {
    p < |s.slots| && s.slots[p].pc.XMark?
  }

  function DoDie(s: State, p: nat, code: int): State
    requires CanDie(s, p, code)
  {
    var me := s.slots[p];
    var it := Slot(XRelease, Zombie, me.pid, me.parent, me.chan, me.killed, code, me.lock, me.maker);
    State(s.waitLock, s.nextpid, s.slots[p := it], s.exited[me.pid := code], s.reaped)
  }

  /** exit: release(&wait_lock). */
  predicate CanExitRelease(s: State, p: nat) {
    p < |s.slots| && s.slots[p].pc.XRelease?
  }

  function DoExitRelease(s: State, p: nat): State
    requires CanExitRelease(s, p)
  {
    Move(s, p, XSwitch, None)
  }

  /** exit: sched; the scheduler releases p->lock and never runs p again. */
  predicate CanVanish(s: State, p: nat) {
    p < |s.slots| && s.slots[p].pc.XSwitch?
  }

  function DoVanish(s: State, p: nat): State
    requires CanVanish(s, p)
  {
    Put(s, p, WithLock(s.slots[p], XGone, Free))
  }

  /** wait: acquire(&wait_lock), on entry or after sleep. */
  predicate CanWait(s: State, p: nat) {
    p < |s.slots| && s.waitLock.None? && s.slots[p].status.Running? && (s.slots[p].pc.Out? || s.slots[p].pc.WRetry?)
  }

  function DoWait(s: State, p: nat): State
    requires CanWait(s, p)
  {
    Move(s, p, WScan(0, false), Some(p))
  }

  /** wait: one slot of the scan; `copied` is copyout's outcome.  A zombie child is freed and returned. */
  predicate CanScan(s: State, p: nat, copied: bool) {
    p < |s.slots| && s.slots[p].pc.WScan? && s.slots[p].pc.i < |s.slots|
        && (s.slots[s.slots[p].pc.i].parent == Some(p) ==> s.slots[s.slots[p].pc.i].lock.Free?)
  }

  function DoScan(s: State, p: nat, copied: bool): State
    requires CanScan(s, p, copied)
  {
    var i := s.slots[p].pc.i;
    var it := s.slots[i];
    if it.parent != Some(p) then Move(s, p, WScan(i + 1, s.slots[p].pc.kids), s.waitLock)
    else if !it.status.Zombie? then Move(s, p, WScan(i + 1, true), s.waitLock)
    else if !copied then Move(s, p, Out, None)
    else State(None, s.nextpid, s.slots[i := Freed(it)][p := At(s.slots[p], Out)], s.exited,
        s.reaped + [(it.pid, it.xstate)])
  }

  /** wait: after the scan, returns -1 or goes to sleep. */
  predicate CanDecide(s: State, p: nat) {
    p < |s.slots| && s.slots[p].pc.WScan? && s.slots[p].pc.i == |s.slots| && s.slots[p].lock.Free?
  }

  function DoDecide(s: State, p: nat): State
    requires CanDecide(s, p)
  {
    if !s.slots[p].pc.kids || s.slots[p].killed then Move(s, p, Out, None) else Move(s, p, WCall, s.waitLock)
  }

  /** sleep: acquire(&p->lock). */
  predicate CanSleepLock(s: State, p: nat) {
    p < |s.slots| && s.slots[p].pc.WCall? && s.slots[p].lock.Free?
  }

  function DoSleepLock(s: State, p: nat): State
    requires CanSleepLock(s, p)
  {
    Put(s, p, WithLock(s.slots[p], WLocked, By(p)))
  }

  /** sleep: release(&wait_lock). */
  predicate CanSleepRelease(s: State, p: nat) {
    p < |s.slots| && s.slots[p].pc.WLocked?
  }

  function DoSleepRelease(s: State, p: nat): State
    requires CanSleepRelease(s, p)
  {
    Move(s, p, WReleased, None)
  }

  /** sleep: p->chan = p, p->state = SLEEPING. */
  predicate CanMark(s: State, p: nat) {
    p < |s.slots| && s.slots[p].pc.WReleased?
  }

  function DoMark(s: State, p: nat): State
    requires CanMark(s, p)
  {
    var me := s.slots[p];
    Put(s, p, Slot(WMarked, Sleeping, me.pid, me.parent, Some(p), me.killed, me.xstate, me.lock, me.maker))
  }

  /** sleep: sched; the scheduler releases p->lock. */
  predicate CanSwitch(s: State, p: nat) {
    p < |s.slots| && s.slots[p].pc.WMarked?
  }

  function DoSwitch(s: State, p: nat): State
    requires CanSwitch(s, p)
  {
    Put(s, p, WithLock(s.slots[p], WAway, Free))
  }

  /** The scheduler picks p. */
  predicate CanRun(s: State, p: nat) {
    p < |s.slots| && s.slots[p].pc.WAway? && s.slots[p].status.Runnable? && s.slots[p].lock.Free?
  }

  function DoRun(s: State, p: nat): State
    requires CanRun(s, p)
  {
    var me := s.slots[p];
    Put(s, p, Slot(WBack, Running, me.pid, me.parent, me.chan, me.killed, me.xstate, By(p), me.maker))
  }

  /** sleep: p->chan = 0, release(&p->lock). */
  predicate CanTidy(s: State, p: nat) {
    p < |s.slots| && s.slots[p].pc.WBack?
  }

  function DoTidy(s: State, p: nat): State
    requires CanTidy(s, p)
  {
    var me := s.slots[p];
    Put(s, p, Slot(WRetry, me.status, me.pid, me.parent, None, me.killed, me.xstate, Free, me.maker))
  }

  /** kill by anyone. */
  predicate CanKill(s: State, p: nat) {
    p < |s.slots| && s.slots[p].lock.Free?
  }

  function DoKill(s: State, p: nat): State
    requires CanKill(s, p)
  {
    var me := s.slots[p];
    Put(s, p, Slot(me.pc, if me.status.Sleeping? then Runnable else me.status, me.pid, me.parent, me.chan, true,
        me.xstate, me.lock, me.maker))
  }

  /** p is scheduled, preempted, or sleeps on something else. */
  predicate CanElsewhere(s: State, p: nat, status: Status) {
    p < |s.slots| && s.slots[p].pc.Out? && s.slots[p].lock.Free? && Active(s.slots[p].status) && Active(status)
  }

  function DoElsewhere(s: State, p: nat, status: Status): State
    requires CanElsewhere(s, p, status)
  {
    Put(s, p, WithStatus(s.slots[p], status))
  }

  predicate Enabled(s: State, t: Step, init: nat) {
    match t
    case Alloc(p, np) => CanAlloc(s, p, np)
    case Fail(p) => CanFail(s, p)
    case Copied(p) => CanCopied(s, p)
    case Link(p) => CanLink(s, p)
    case Start(p) => CanStart(s, p)
    case Exit(p) => CanExit(s, p, init)
    case Reparent(p) => CanReparent(s, p, init)
    case WakeInit(p) => CanWakeInit(s, p, init)
    case WakeParent(p) => CanWakeParent(s, p)
    case LockSelf(p) => CanLockSelf(s, p)
    case Die(p, code) => CanDie(s, p, code)
    case ExitRelease(p) => CanExitRelease(s, p)
    case Vanish(p) => CanVanish(s, p)
    case Wait(p) => CanWait(s, p)
    case Scan(p, copied) => CanScan(s, p, copied)
    case Decide(p) => CanDecide(s, p)
    case SleepLock(p) => CanSleepLock(s, p)
    case SleepRelease(p) => CanSleepRelease(s, p)
    case Mark(p) => CanMark(s, p)
    case Switch(p) => CanSwitch(s, p)
    case Run(p) => CanRun(s, p)
    case Tidy(p) => CanTidy(s, p)
    case Kill(p) => CanKill(s, p)
    case Elsewhere(p, status) => CanElsewhere(s, p, status)
  }

  function Do(s: State, t: Step, init: nat): State
    requires Enabled(s, t, init)
  {
    match t
    case Alloc(p, np) => DoAlloc(s, p, np)
    case Fail(p) => DoFail(s, p)
    case Copied(p) => DoCopied(s, p)
    case Link(p) => DoLink(s, p)
    case Start(p) => DoStart(s, p)
    case Exit(p) => DoExit(s, p, init)
    case Reparent(p) => DoReparent(s, p, init)
    case WakeInit(p) => DoWakeInit(s, p, init)
    case WakeParent(p) => DoWakeParent(s, p)
    case LockSelf(p) => DoLockSelf(s, p)
    case Die(p, code) => DoDie(s, p, code)
    case ExitRelease(p) => DoExitRelease(s, p)
    case Vanish(p) => DoVanish(s, p)
    case Wait(p) => DoWait(s, p)
    case Scan(p, copied) => DoScan(s, p, copied)
    case Decide(p) => DoDecide(s, p)
    case SleepLock(p) => DoSleepLock(s, p)
    case SleepRelease(p) => DoSleepRelease(s, p)
    case Mark(p) => DoMark(s, p)
    case Switch(p) => DoSwitch(s, p)
    case Run(p) => DoRun(s, p)
    case Tidy(p) => DoTidy(s, p)
    case Kill(p) => DoKill(s, p)
    case Elsewhere(p, status) => DoElsewhere(s, p, status)
  }

  // ----- the invariant -----

  predicate Inside(pc: Pc) {
    pc.XReparent? || pc.XWakeInit? || pc.XWake? || pc.XMark? || pc.XRelease? || pc.WScan? || pc.WCall? || pc.WLocked?
  }

  predicate OwnLock(pc: Pc) {
    pc.XMark? || pc.XRelease? || pc.XSwitch? || pc.WLocked? || pc.WReleased? || pc.WMarked? || pc.WBack?
  }

  predicate Forking(pc: Pc) { pc.FNew? || pc.FMade? || pc.FLinked? }
  predicate Dead(pc: Pc) { pc.XRelease? || pc.XSwitch? || pc.XGone? }
  predicate Exiting(pc: Pc) { pc.XReparent? || pc.XWakeInit? || pc.XWake? || pc.XMark? || Dead(pc) }

  /** Asleep in wait or bound to be. */
  predicate Committed(me: Slot) { me.pc.WReleased? || me.pc.WMarked? || (me.pc.WAway? && me.status.Sleeping?) }

  ghost predicate StatusOk(me: Slot) {
    && (me.status.Unused? || me.status.Used? ==> me.pc.Out?)
    && (me.status.Zombie? <==> Dead(me.pc))
    && (me.pc.WMarked? ==> me.status.Sleeping?)
    && (me.pc.WAway? ==> me.status.Sleeping? || me.status.Runnable?)
    && (!me.pc.Out? && !Dead(me.pc) && !me.pc.WMarked? && !me.pc.WAway? ==> me.status.Running?)
  }

  ghost predicate LockOk(s: State, p: nat)
    requires p < |s.slots|
  {
    var n, me := |s.slots|, s.slots[p];
    && (Inside(me.pc) <==> s.waitLock == Some(p))
    && (OwnLock(me.pc) <==> me.lock == By(p))
    && (me.lock.By? && me.lock.id != p ==> me.lock.id < n && s.slots[me.lock.id].pc == FNew(p))
    && (Forking(me.pc) ==>
          && me.pc.np < n && me.pc.np != p && s.slots[me.pc.np].maker == p && s.slots[me.pc.np].status.Used?
          && (me.pc.FNew? <==> s.slots[me.pc.np].lock == By(p))
          && s.slots[me.pc.np].parent == if me.pc.FLinked? then Some(p) else None)
    && (me.chan == if me.pc.WMarked? || me.pc.WAway? || me.pc.WBack? then Some(p) else None)
  }

  ghost predicate SlotOk(s: State, p: nat, init: nat)
    requires p < |s.slots|
  {
    var n, me := |s.slots|, s.slots[p];
    && StatusOk(me)
    && (p == init ==> Active(me.status) && !Exiting(me.pc) && me.parent.None?)
    && (me.parent.Some? ==> me.parent.value < n && Active(s.slots[me.parent.value].status))
    && (me.status.Unused? ==> me.parent.None?)
    && (p != init && (Active(me.status) || me.status.Zombie?) ==> me.parent.Some?)
    && (me.pc.XReparent? ==> me.pc.i <= n) && (me.pc.XWakeInit? ==> me.pc.i < n && me.pc.j <= n)
    && (me.pc.XWake? ==> me.pc.j <= n)
    && (me.pc.WScan? ==> me.pc.i <= n)
    && (!me.status.Unused? ==> me.pid < s.nextpid)
    && (me.status.Zombie? ==> me.pid in s.exited && s.exited[me.pid] == me.xstate && !WasReaped(s, me.pid))
    && (Live(me.status) ==> me.pid !in s.exited)
  }

  ghost predicate WasReaped(s: State, pid: nat) { exists k :: 0 <= k < |s.reaped| && s.reaped[k].0 == pid }

  /** A wakeup for p is still to come: reparent's wakeup(init) has not reached it. */
  ghost predicate Coming(s: State, p: nat, init: nat) {
    && p == init && s.waitLock.Some? && s.waitLock.value < |s.slots|
    && s.slots[s.waitLock.value].pc.XWakeInit? && s.slots[s.waitLock.value].pc.j <= p
  }

  /** Slots below this one are no children of a process in exit. */
  function Cleared(pc: Pc, n: nat): nat {
    if pc.XReparent? then pc.i else if pc.XWakeInit? then pc.i + 1 else if pc.XWake? || pc.XMark? then n else 0
  }

  /** Children below this slot have been seen by a process in wait. */
  function Checked(pc: Pc, n: nat): nat {
    if pc.WScan? then pc.i else if pc.WCall? || pc.WLocked? then n else 0
  }

  /** Slots below this one have been through wakeup(parent) by a process in exit. */
  function Called(pc: Pc, n: nat): nat {
    if pc.XWake? then pc.j else if pc.XMark? then n else 0
  }

  /** What q's being a child of p means. */
  ghost predicate ChildOk(s: State, p: nat, q: nat, init: nat)
    requires p < |s.slots| && q < |s.slots|
  {
    var n, me, kid := |s.slots|, s.slots[p], s.slots[q];
    kid.parent == Some(p) ==>
      && q != p
      && Cleared(me.pc, n) <= q
      && (q < Checked(me.pc, n) ==> !kid.status.Zombie? && (me.pc.WScan? ==> me.pc.kids))
      && (kid.status.Zombie? && Committed(me) ==> Coming(s, p, init))
      && (p < Called(kid.pc, n) ==> !Committed(me))
  }

  ghost predicate PidsDiffer(s: State, p: nat, q: nat)
    requires p < |s.slots| && q < |s.slots|
  {
    p != q && !s.slots[p].status.Unused? && !s.slots[q].status.Unused? ==> s.slots[p].pid != s.slots[q].pid
  }

  /** An exited pid has been returned by wait, or is a zombie in the table. */
  ghost predicate Accounted(s: State, pid: nat) {
    WasReaped(s, pid) || exists q :: 0 <= q < |s.slots| && s.slots[q].status.Zombie? && s.slots[q].pid == pid
  }

  ghost predicate HistoryOk(s: State) {
    && (forall k :: 0 <= k < |s.reaped| ==> s.reaped[k].0 in s.exited && s.exited[s.reaped[k].0] == s.reaped[k].1)
    && (forall k, l :: 0 <= k < l < |s.reaped| ==> s.reaped[k].0 != s.reaped[l].0)
    && (forall pid :: pid in s.exited ==> pid < s.nextpid && Accounted(s, pid))
  }

  ghost predicate Inv(s: State, init: nat) {
    && init < |s.slots| && (s.waitLock.Some? ==> s.waitLock.value < |s.slots|)
    && (forall p :: 0 <= p < |s.slots| ==> LockOk(s, p))
    && (forall p :: 0 <= p < |s.slots| ==> SlotOk(s, p, init))
    && (forall p, q :: 0 <= p < |s.slots| && 0 <= q < |s.slots| ==> ChildOk(s, p, q, init))
    && (forall p, q :: 0 <= p < |s.slots| && 0 <= q < |s.slots| ==> PidsDiffer(s, p, q))
    && HistoryOk(s)
  }
}
