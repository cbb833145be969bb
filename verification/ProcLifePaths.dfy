/** What fork, exit and wait come to, over whole runs of ProcLife: each call ends with the effect the
    source promises, each of its own steps brings it nearer to the end, and it is never stuck. */
module ProcLifePaths {
  import opened Common
  import opened ProcLife
  import opened ProcLifeRuns

  predicate ForkStep(t: Step) { t.Alloc? || t.Fail? || t.Copied? || t.Link? || t.Start? }
  predicate ExitStep(t: Step) { t.Exit? || t.Reparent? || t.WakeInit? || t.WakeParent? || t.LockSelf? || t.Die? }
  predicate LeaveStep(t: Step) { t.ExitRelease? || t.Vanish? || t.Wait? || t.Scan? || t.Decide? }
  predicate ByAnyone(t: Step) { t.Kill? || t.Elsewhere? }

  // ----- own steps come to an end -----

  predicate InWait(pc: Pc) {
    pc.WScan? || pc.WCall? || pc.WLocked? || pc.WReleased? || pc.WMarked? || pc.WAway? || pc.WBack? || pc.WRetry?
  }

  /** How many steps of its own a process has before it at most, until it has left fork, is gone, or is asleep in
      wait or back at its start, in a table of n slots. */
  function Left(pc: Pc, n: nat): int {
    match pc
    case Out => 0
    case FNew(_) => 3
    case FMade(_) => 2
    case FLinked(_) => 1
    case XReparent(i) => n + 6 + (n - i) * (n + 3)
    case XWakeInit(i, j) => n + 6 + (n - i - 1) * (n + 3) + (n - j) + 1
    case XWake(j) => 4 + (n - j)
    case XMark => 3
    case XRelease => 2
    case XSwitch => 1
    case XGone => 0
    case WScan(i, _) => 5 + (n - i)
    case WCall => 4
    case WLocked => 3
    case WReleased => 2
    case WMarked => 1
    case WAway => 0
    case WBack => 2
    case WRetry => 1
  }

  lemma NextRow(n: int, i: int)
    ensures (n - i) * (n + 3) == (n - i - 1) * (n + 3) + (n + 3)
  {}

  lemma ForkNearer(s: State, t: Step, init: nat)
    requires Enabled(s, t, init) && ForkStep(t) && !t.Alloc?
    ensures t.p < |s.slots| == |Do(s, t, init).slots|
    ensures 0 <= Left(Do(s, t, init).slots[t.p].pc, |s.slots|) < Left(s.slots[t.p].pc, |s.slots|)
  {}

  lemma ExitNearer(s: State, t: Step, init: nat)
    requires Enabled(s, t, init) && ExitStep(t) && !t.Exit? && Inv(s, init)
    ensures t.p < |s.slots| == |Do(s, t, init).slots|
    ensures Left(Do(s, t, init).slots[t.p].pc, |s.slots|) < Left(s.slots[t.p].pc, |s.slots|)
  {
    assert SlotOk(s, t.p, init);
    var pc := s.slots[t.p].pc;
    if pc.XReparent? { NextRow(|s.slots|, pc.i); }
  }

  lemma ScanNearer(s: State, t: Step, init: nat)
    requires Enabled(s, t, init) && (t.ExitRelease? || t.Vanish? || t.Scan? || t.Decide?)
    ensures t.p < |s.slots| == |Do(s, t, init).slots|
    ensures Left(Do(s, t, init).slots[t.p].pc, |s.slots|) < Left(s.slots[t.p].pc, |s.slots|)
  {}

  lemma SleepNearer(s: State, t: Step, init: nat)
    requires Enabled(s, t, init) && (t.SleepLock? || t.SleepRelease? || t.Mark? || t.Switch? || t.Tidy?)
    ensures t.p < |s.slots| == |Do(s, t, init).slots|
    ensures Left(Do(s, t, init).slots[t.p].pc, |s.slots|) < Left(s.slots[t.p].pc, |s.slots|)
  {}

  lemma LeftNatural(s: State, p: nat, init: nat)
    requires Inv(s, init) && p < |s.slots|
    ensures Left(s.slots[p].pc, |s.slots|) >= 0
  {
    assert SlotOk(s, p, init);
    var n, pc := |s.slots|, s.slots[p].pc;
    if pc.XReparent? { Times(n - pc.i, n + 3); }
    if pc.XWakeInit? { Times(n - pc.i - 1, n + 3); }
  }

  lemma Times(a: nat, b: nat)
    ensures a * b >= 0
  {}

  /** Every step of a process in fork, exit or wait brings it nearer to the end, but for the two with which a
      woken process starts wait's scan again. */
  lemma StepsEnd(s: State, t: Step, init: nat)
    requires Inv(s, init) && Enabled(s, t, init) && !ByAnyone(t) && !t.Alloc? && !t.Exit? && !t.Wait? && !t.Run?
    ensures t.p < |s.slots| == |Do(s, t, init).slots|
    ensures 0 <= Left(Do(s, t, init).slots[t.p].pc, |s.slots|) < Left(s.slots[t.p].pc, |s.slots|)
  {
    hide Do, Enabled, Inv, Left;
    if ForkStep(t) {
      ForkNearer(s, t, init);
    } else if ExitStep(t) {
      ExitNearer(s, t, init);
    } else if LeaveStep(t) {
      ScanNearer(s, t, init);
    } else {
      SleepNearer(s, t, init);
    }
    StepKeepsInv(s, t, init);
    LeftNatural(Do(s, t, init), t.p, init);
  }

  // ----- nobody is stuck -----

  /** In the middle of fork, exit or wait, and neither gone nor asleep. */
  predicate Busy(me: Slot) { !me.pc.Out? && !me.pc.XGone? && !(me.pc.WAway? && me.status.Sleeping?) }

  /** A step of a process in the middle of a call. */
  predicate Goes(s: State, t: Step) { t.p < |s.slots| && !s.slots[t.p].pc.Out? && !ByAnyone(t) }

  /** The holder of the lock of slot i can move. */
  lemma LockMoves(s: State, init: nat, i: nat) returns (t: Step)
    requires Inv(s, init) && i < |s.slots| && !s.slots[i].lock.Free?
    ensures Enabled(s, t, init) && Goes(s, t)
  {
    assert LockOk(s, i);
    var me := s.slots[i];
    if me.lock.id != i {
      t := Copied(me.lock.id);
    } else {
      match me.pc
      case XMark => t := Die(i, 0);
      case XRelease => t := ExitRelease(i);
      case XSwitch => t := Vanish(i);
      case WLocked => t := SleepRelease(i);
      case WReleased => t := Mark(i);
      case WMarked => t := Switch(i);
      case WBack => t := Tidy(i);
    }
  }

  /** A lock that a step needs is free, or its holder can move. */
  lemma OrLockMoves(s: State, init: nat, i: nat, step: Step) returns (t: Step)
    requires Inv(s, init) && i < |s.slots| && Goes(s, step) && (s.slots[i].lock.Free? ==> Enabled(s, step, init))
    ensures Enabled(s, t, init) && Goes(s, t)
  {
    hide Inv, Enabled;
    if s.slots[i].lock.Free? { t := step; } else { t := LockMoves(s, init, i); }
  }

  /** The holder of wait_lock in exit can move, or the lock it waits for can be released. */
  lemma ExitMoves(s: State, init: nat, q: nat) returns (t: Step)
    requires Inv(s, init) && q < |s.slots| && Exiting(s.slots[q].pc) && Inside(s.slots[q].pc) && SlotOk(s, q, init)
    ensures Enabled(s, t, init) && Goes(s, t)
  {
    hide Inv;
    match s.slots[q].pc
    case XReparent(_) => t := Reparent(q);
    case XWakeInit(_, j) => t := OrLockMoves(s, init, if j < |s.slots| then j else q, WakeInit(q));
    case XWake(j) =>
      if j < |s.slots| { t := OrLockMoves(s, init, j, WakeParent(q)); }
          else { t := OrLockMoves(s, init, q, LockSelf(q)); }
    case XMark => t := Die(q, 0);
    case XRelease => t := ExitRelease(q);
  }

  /** The same for one in wait. */
  lemma WaitMoves(s: State, init: nat, q: nat) returns (t: Step)
    requires Inv(s, init) && q < |s.slots| && InWait(s.slots[q].pc) && Inside(s.slots[q].pc) && SlotOk(s, q, init)
    ensures Enabled(s, t, init) && Goes(s, t)
  {
    hide Inv;
    match s.slots[q].pc
    case WScan(i, _) =>
      t := OrLockMoves(s, init, if i < |s.slots| then i else q, if i < |s.slots| then Scan(q, true) else Decide(q));
    case WCall => t := OrLockMoves(s, init, q, SleepLock(q));
    case WLocked => t := SleepRelease(q);
  }

  /** A process in the middle of a call can move when wait_lock is free, or the lock it waits for can be released. */
  lemma FreeMoves(s: State, init: nat, p: nat) returns (t: Step)
    requires Inv(s, init) && p < |s.slots| && Busy(s.slots[p]) && s.waitLock.None? && LockOk(s, p) && SlotOk(s, p, init)
    ensures Enabled(s, t, init) && Goes(s, t)
  {
    hide Inv;
    match s.slots[p].pc
    case FNew(_) => t := Copied(p);
    case FMade(_) => t := Link(p);
    case FLinked(np) => t := OrLockMoves(s, init, np, Start(p));
    case XSwitch => t := Vanish(p);
    case WReleased => t := Mark(p);
    case WMarked => t := Switch(p);
    case WAway => t := OrLockMoves(s, init, p, Run(p));
    case WBack => t := Tidy(p);
    case WRetry => t := Wait(p);
  }

  /** No deadlock: in every state of every run in which a process is in the middle of fork, exit or wait, and not
      asleep,
      some process can take the next step of such a call. */
  lemma NotStuck(ss: seq<State>, ts: seq<Step>, init: nat, k: nat, p: nat) returns (t: Step)
    requires IsRun(ss, ts, init) && k < |ss| && p < |ss[k].slots| && Busy(ss[k].slots[p])
    ensures Enabled(ss[k], t, init) && Goes(ss[k], t)
  {
    RunInv(ss, ts, init, k);
    var s := ss[k];
    hide Do, Init, Enabled;
    assert LockOk(s, p) && SlotOk(s, p, init);
    if s.waitLock.None? {
      t := FreeMoves(s, init, p);
    } else {
      var q := s.waitLock.value;
      assert LockOk(s, q) && SlotOk(s, q, init);
      if InWait(s.slots[q].pc) { t := WaitMoves(s, init, q); } else { t := ExitMoves(s, init, q); }
    }
  }

  // ----- fork -----

  /** p is in fork with slot np, which has the pid x. */
  ghost predicate Making(s: State, p: nat, np: nat, x: nat) {
    p < |s.slots| && np < |s.slots| && Forking(s.slots[p].pc) && s.slots[p].pc.np == np && s.slots[np].pid == x
  }

  /** A child with the pid x, runnable, p its parent; or the slot unused again. */
  ghost predicate Made(s: State, p: nat, np: nat, x: nat, ok: bool) {
    && p < |s.slots| && np < |s.slots| && s.slots[p].pc.Out?
    && (ok ==> s.slots[np].status.Runnable? && s.slots[np].parent == Some(p) && s.slots[np].pid == x)
    && (!ok ==> s.slots[np].status.Unused? && s.slots[np].lock.Free?)
  }

  ghost predicate ForkOutcome(s: State, t: Step, s': State, p: nat, np: nat, x: nat) {
    Making(s', p, np, x) || (t == Start(p) && Made(s', p, np, x, true)) || (t == Fail(p) && Made(s', p, np, x, false))
  }

  /** The child's slot is in no call of its own. */
  ghost predicate Apart(s: State, p: nat, np: nat) {
    && p < |s.slots| && np < |s.slots| && p != np
    && s.slots[p].status.Running? && s.slots[np].status.Used? && s.slots[np].pc.Out?
  }

  lemma ForkStays(s: State, t: Step, init: nat, p: nat, np: nat, x: nat)
    requires Making(s, p, np, x) && Enabled(s, t, init) && Apart(s, p, np) && LockOk(s, p)
    requires t.p < |s.slots| ==> LockOk(s, t.p)
    requires ForkStep(t)
    ensures ForkOutcome(s, t, Do(s, t, init), p, np, x)
  {}

  lemma OthersStay1(s: State, t: Step, init: nat, p: nat, np: nat, x: nat)
    requires Making(s, p, np, x) && Enabled(s, t, init) && Apart(s, p, np)
    requires ExitStep(t)
    ensures Making(Do(s, t, init), p, np, x)
  {}

  lemma OthersStay2(s: State, t: Step, init: nat, p: nat, np: nat, x: nat)
    requires Making(s, p, np, x) && Enabled(s, t, init) && Apart(s, p, np)
    requires LeaveStep(t) || ByAnyone(t)
    ensures Making(Do(s, t, init), p, np, x)
  {}

  lemma OthersStay3(s: State, t: Step, init: nat, p: nat, np: nat, x: nat)
    requires Making(s, p, np, x) && Enabled(s, t, init) && Apart(s, p, np)
    requires !ForkStep(t) && !ExitStep(t) && !LeaveStep(t) && !ByAnyone(t)
    ensures Making(Do(s, t, init), p, np, x)
  {}

  lemma MakingOn(s: State, t: Step, init: nat, p: nat, np: nat, x: nat)
    requires Inv(s, init) && Making(s, p, np, x) && Enabled(s, t, init)
    ensures ForkOutcome(s, t, Do(s, t, init), p, np, x)
  {
    assert LockOk(s, p) && SlotOk(s, p, init) && SlotOk(s, np, init) && (t.p < |s.slots| ==> LockOk(s, t.p));
    assert Apart(s, p, np);
    hide Do, Enabled, LockOk, SlotOk, Inv, Made;
    if ForkStep(t) {
      ForkStays(s, t, init, p, np, x);
    } else if ExitStep(t) {
      OthersStay1(s, t, init, p, np, x);
    } else if LeaveStep(t) || ByAnyone(t) {
      OthersStay2(s, t, init, p, np, x);
    } else {
      OthersStay3(s, t, init, p, np, x);
    }
  }

  /** State j is the first after i in which p is outside again. */
  ghost predicate Call(ss: seq<State>, i: nat, j: nat, p: nat) {
    && i < j < |ss| && (forall k :: i < k <= j ==> p < |ss[k].slots|) && ss[j].slots[p].pc.Out?
    && forall k :: i < k < j ==> !ss[k].slots[p].pc.Out?
  }

  lemma AllocMakes(s: State, init: nat, p: nat, np: nat)
    requires Enabled(s, Alloc(p, np), init)
    ensures Making(Do(s, Alloc(p, np), init), p, np, s.nextpid)
  {}

  lemma {:induction false} ForkRuns(ss: seq<State>, ts: seq<Step>, init: nat, i: nat, j: nat, p: nat, np: nat, k: nat)
    requires IsRun(ss, ts, init) && Call(ss, i, j, p) && ts[i] == Alloc(p, np) && i < k <= j
    ensures Making(ss[k], p, np, ss[i].nextpid)
            || (k == j && ts[j - 1] == Start(p) && Made(ss[j], p, np, ss[i].nextpid, true))
            || (k == j && ts[j - 1] == Fail(p) && Made(ss[j], p, np, ss[i].nextpid, false))
  {
    hide Do, Enabled, Init, Inv, Made;
    if k == i + 1 {
      assert StepAt(ss, ts, init, i);
      AllocMakes(ss[i], init, p, np);
    } else {
      ForkRuns(ss, ts, init, i, j, p, np, k - 1);
      assert StepAt(ss, ts, init, k - 1);
      RunInv(ss, ts, init, k - 1);
      MakingOn(ss[k - 1], ts[k - 1], init, p, np, ss[i].nextpid);
      if !Making(ss[k], p, np, ss[i].nextpid) { MadeOut(ss[k], p, np, ss[i].nextpid, ts[k - 1] == Start(p)); }
    }
  }

  lemma MadeOut(s: State, p: nat, np: nat, x: nat, ok: bool)
    requires Made(s, p, np, x, ok)
    ensures s.slots[p].pc.Out?
  {}

  /** fork, in every run: when the process that has found a slot is next outside, the slot holds a runnable child of its
      with the fresh pid, or, if memory ran out, is unused again. */
  lemma ForkGives(ss: seq<State>, ts: seq<Step>, init: nat, i: nat, j: nat, p: nat, np: nat)
    requires IsRun(ss, ts, init) && Call(ss, i, j, p) && ts[i] == Alloc(p, np)
    ensures ts[j - 1] == Start(p) || ts[j - 1] == Fail(p)
    ensures Made(ss[j], p, np, ss[i].nextpid, ts[j - 1] == Start(p))
  {
    hide Do, Enabled, Init, Inv;
    ForkRuns(ss, ts, init, i, j, p, np, j);
  }

  // ----- wait -----

  ghost predicate Waiting(s: State, p: nat) {
    p < |s.slots| && InWait(s.slots[p].pc) && Active(s.slots[p].status)
  }

  /** wait has found a zombie child: unless the copy of the status failed, the slot is free and the child's pid and
      status are the answer. */
  ghost predicate Collects(s: State, t: Step, s': State, p: nat) {
    && t.Scan? && t.p == p && p < |s.slots| == |s'.slots| && s.slots[p].pc.WScan? && s.slots[p].pc.i < |s.slots|
    && var i := s.slots[p].pc.i;
       && s.slots[i].parent == Some(p) && s.slots[i].status.Zombie?
       && (t.copied ==> s'.slots[i].status.Unused? && s'.reaped == s.reaped + [(s.slots[i].pid, s.slots[i].xstate)])
       && (!t.copied ==> s'.slots[i] == s.slots[i] && s'.reaped == s.reaped)
  }

  /** wait gives up: the process has no child, or has been killed. */
  ghost predicate GivesUp(s: State, t: Step, p: nat) {
    && t == Decide(p) && p < |s.slots|
    && (s.slots[p].killed || forall q :: 0 <= q < |s.slots| ==> s.slots[q].parent != Some(p))
  }

  ghost predicate WaitOutcome(s: State, t: Step, s': State, p: nat) {
    StillWaits(s', p)
    || (p < |s'.slots| && s'.slots[p].pc.Out? && (Collects(s, t, s', p) || GivesUp(s, t, p)))
  }

  ghost predicate StillWaits(s': State, p: nat) { p < |s'.slots| && InWait(s'.slots[p].pc) }

  lemma WaitKept1(s: State, t: Step, init: nat, p: nat)
    requires Waiting(s, p) && Enabled(s, t, init) && ForkStep(t) && (t.p < |s.slots| ==> LockOk(s, t.p))
    ensures StillWaits(Do(s, t, init), p)
  {}

  lemma WaitKept2(s: State, t: Step, init: nat, p: nat)
    requires Waiting(s, p) && Enabled(s, t, init) && (ExitStep(t) || ByAnyone(t))
    ensures StillWaits(Do(s, t, init), p)
  {}

  lemma WaitScans(s: State, p: nat, copied: bool)
    requires Waiting(s, p) && CanScan(s, p, copied) && s.slots[p].parent != Some(p)
    ensures WaitOutcome(s, Scan(p, copied), DoScan(s, p, copied), p)
  {
    var s', i := DoScan(s, p, copied), s.slots[p].pc.i;
    if s.slots[i].parent == Some(p) && s.slots[i].status.Zombie? {
      assert i != p && s'.slots[p].pc.Out?;
      assert Collects(s, Scan(p, copied), s', p);
    }
  }

  lemma OthersScan(s: State, t: Step, init: nat, p: nat)
    requires Waiting(s, p) && Enabled(s, t, init) && t.Scan? && t.p != p
    ensures StillWaits(Do(s, t, init), p)
  {}

  lemma IsScan(s: State, p: nat, copied: bool, init: nat)
    requires Enabled(s, Scan(p, copied), init)
    ensures CanScan(s, p, copied) && Do(s, Scan(p, copied), init) == DoScan(s, p, copied)
  {}

  lemma WaitDecides(s: State, t: Step, init: nat, p: nat)
    requires Waiting(s, p) && Enabled(s, t, init) && t.Decide?
    requires forall q :: 0 <= q < |s.slots| ==> ChildOk(s, p, q, init)
    ensures WaitOutcome(s, t, Do(s, t, init), p)
  {
    if t.p == p && !s.slots[p].pc.kids {
      forall q | 0 <= q < |s.slots|
        ensures s.slots[q].parent != Some(p)
      {
        assert ChildOk(s, p, q, init);
      }
    }
  }

  lemma WaitGoesOn(s: State, t: Step, init: nat, p: nat)
    requires Waiting(s, p) && Enabled(s, t, init) && !ForkStep(t) && !ExitStep(t) && !ByAnyone(t) && !t.Scan?
             && !t.Decide?
    ensures StillWaits(Do(s, t, init), p)
  {}

  lemma WaitOn(s: State, t: Step, init: nat, p: nat)
    requires Inv(s, init) && p < |s.slots| && InWait(s.slots[p].pc) && Enabled(s, t, init)
    ensures WaitOutcome(s, t, Do(s, t, init), p)
  {
    assert LockOk(s, p) && SlotOk(s, p, init) && (t.p < |s.slots| ==> LockOk(s, t.p)) && ChildOk(s, p, p, init);
    assert Waiting(s, p) && s.slots[p].parent != Some(p);
    assert forall q :: 0 <= q < |s.slots| ==> ChildOk(s, p, q, init);
    hide Do, Enabled, LockOk, SlotOk, Inv, ChildOk, StillWaits, Collects, GivesUp;
    if t.Scan? && t.p == p {
      IsScan(s, p, t.copied, init);
      WaitScans(s, p, t.copied);
    } else if t.Scan? {
      OthersScan(s, t, init, p);
    } else if t.Decide? {
      WaitDecides(s, t, init, p);
    } else if ForkStep(t) {
      WaitKept1(s, t, init, p);
    } else if ExitStep(t) || ByAnyone(t) {
      WaitKept2(s, t, init, p);
    } else {
      WaitGoesOn(s, t, init, p);
    }
  }

  lemma WaitStarts(s: State, init: nat, p: nat)
    requires Enabled(s, Wait(p), init)
    ensures StillWaits(Do(s, Wait(p), init), p)
  {}

  lemma {:induction false} WaitRuns(ss: seq<State>, ts: seq<Step>, init: nat, i: nat, j: nat, p: nat, k: nat)
    requires IsRun(ss, ts, init) && Call(ss, i, j, p) && ts[i] == Wait(p) && i < k < j
    ensures InWait(ss[k].slots[p].pc)
  {
    hide Do, Enabled, Init, Inv, Collects, GivesUp;
    assert StepAt(ss, ts, init, k - 1);
    if k == i + 1 {
      WaitStarts(ss[i], init, p);
    } else {
      WaitRuns(ss, ts, init, i, j, p, k - 1);
      RunInv(ss, ts, init, k - 1);
      WaitOn(ss[k - 1], ts[k - 1], init, p);
    }
  }

  /** wait, in every run: when the process is next outside, its last step has collected a zombie child of its, or it has
      no children, or it was killed. */
  lemma WaitReturns(ss: seq<State>, ts: seq<Step>, init: nat, i: nat, j: nat, p: nat)
    requires IsRun(ss, ts, init) && Call(ss, i, j, p) && ts[i] == Wait(p)
    ensures Collects(ss[j - 1], ts[j - 1], ss[j], p) || GivesUp(ss[j - 1], ts[j - 1], p)
  {
    hide Do, Enabled, Init, Inv, Collects, GivesUp;
    assert StepAt(ss, ts, init, j - 1);
    if j == i + 1 {
      WaitStarts(ss[i], init, p);
      assert false;
    }
    WaitRuns(ss, ts, init, i, j, p, j - 1);
    RunInv(ss, ts, init, j - 1);
    WaitOn(ss[j - 1], ts[j - 1], init, p);
  }

  // ----- exit -----

  /** p is in exit with pid x. */
  ghost predicate Leaving(s: State, p: nat, x: nat) { p < |s.slots| && Exiting(s.slots[p].pc) && s.slots[p].pid == x }

  ghost predicate LeavingOutcome(s: State, t: Step, s': State, p: nat, x: nat) {
    && p < |s.slots| && p < |s'.slots| && (s'.slots[p].status.Unused? || Leaving(s', p, x))
    && (!Dead(s.slots[p].pc) && Dead(s'.slots[p].pc) ==> t.Die? && t.p == p && s'.slots[p].xstate == t.code)
    && (Dead(s.slots[p].pc) && !s'.slots[p].status.Unused? ==>
          Dead(s'.slots[p].pc) && s'.slots[p].xstate == s.slots[p].xstate)
  }

  lemma LeavingKept1(s: State, t: Step, init: nat, p: nat, x: nat)
    requires Leaving(s, p, x) && Enabled(s, t, init) && ForkStep(t) && StatusOk(s.slots[p])
    requires t.p < |s.slots| ==> LockOk(s, t.p)
    ensures LeavingOutcome(s, t, Do(s, t, init), p, x)
  {}

  lemma LeavingKept2(s: State, t: Step, init: nat, p: nat, x: nat)
    requires Leaving(s, p, x) && Enabled(s, t, init) && ExitStep(t) && StatusOk(s.slots[p])
    ensures LeavingOutcome(s, t, Do(s, t, init), p, x)
  {}

  lemma LeavingKept3(s: State, t: Step, init: nat, p: nat, x: nat)
    requires Leaving(s, p, x) && Enabled(s, t, init) && !ForkStep(t) && !ExitStep(t) && StatusOk(s.slots[p])
    ensures LeavingOutcome(s, t, Do(s, t, init), p, x)
  {}

  lemma LeavingOn(s: State, t: Step, init: nat, p: nat, x: nat)
    requires Inv(s, init) && Leaving(s, p, x) && Enabled(s, t, init)
    ensures LeavingOutcome(s, t, Do(s, t, init), p, x)
  {
    assert SlotOk(s, p, init) && (t.p < |s.slots| ==> LockOk(s, t.p));
    hide Do, Enabled, LockOk, Inv, LeavingOutcome;
    if ForkStep(t) {
      LeavingKept1(s, t, init, p, x);
    } else if ExitStep(t) {
      LeavingKept2(s, t, init, p, x);
    } else {
      LeavingKept3(s, t, init, p, x);
    }
  }

  lemma ExitStarts(s: State, init: nat, p: nat)
    requires Enabled(s, Exit(p), init)
    ensures p < |s.slots| && Leaving(Do(s, Exit(p), init), p, s.slots[p].pid)
    ensures !Dead(Do(s, Exit(p), init).slots[p].pc)
  {}

  /** exit, in every run: it does not return.  As long as its slot has not been collected the process is in exit,
      under its
      pid; and once it is a zombie, its status is the one it gave to exit. */
  lemma {:induction false} ExitDies(ss: seq<State>, ts: seq<Step>, init: nat, i: nat, j: nat, p: nat)
    requires IsRun(ss, ts, init) && i < j < |ss| && ts[i] == Exit(p)
    requires forall k :: i < k <= j ==> p < |ss[k].slots| && !ss[k].slots[p].status.Unused?
    ensures p < |ss[i].slots| && Leaving(ss[j], p, ss[i].slots[p].pid)
    ensures Dead(ss[j].slots[p].pc) ==>
              exists c :: i < c < j && ts[c].Die? && ts[c].p == p && ss[j].slots[p].xstate == ts[c].code
  {
    hide Do, Enabled, Init, Inv;
    assert StepAt(ss, ts, init, j - 1);
    if j == i + 1 {
      ExitStarts(ss[i], init, p);
    } else {
      ExitDies(ss, ts, init, i, j - 1, p);
      RunInv(ss, ts, init, j - 1);
      LeavingOn(ss[j - 1], ts[j - 1], init, p, ss[i].slots[p].pid);
    }
  }

  /** Slot q is given another parent. */
  ghost predicate Adopted(s: State, s': State, q: nat) {
    && q < |s.slots| && q < |s'.slots| && s.slots[q].parent.Some? && s'.slots[q].parent.Some?
    && s'.slots[q].parent != s.slots[q].parent
  }

  lemma NotAdopted1(s: State, t: Step, init: nat, q: nat)
    requires Enabled(s, t, init) && ForkStep(t) && (t.p < |s.slots| ==> LockOk(s, t.p))
    ensures !Adopted(s, Do(s, t, init), q)
  {}

  lemma NotAdopted2(s: State, t: Step, init: nat, q: nat)
    requires Enabled(s, t, init) && !ForkStep(t) && !ExitStep(t)
    ensures !Adopted(s, Do(s, t, init), q)
  {}

  lemma AdoptedByInit(s: State, t: Step, init: nat, q: nat)
    requires Enabled(s, t, init) && ExitStep(t)
    ensures Adopted(s, Do(s, t, init), q) ==>
              t == Reparent(s.slots[q].parent.value) && Do(s, t, init).slots[q].parent == Some(init)
  {}

  /** Only exit changes a parent, for a child of the process that exits, and then to init. */
  lemma Orphans(s: State, t: Step, init: nat, q: nat)
    requires Inv(s, init) && Enabled(s, t, init)
    ensures Adopted(s, Do(s, t, init), q) ==>
              t == Reparent(s.slots[q].parent.value) && Do(s, t, init).slots[q].parent == Some(init)
  {
    assert t.p < |s.slots| ==> LockOk(s, t.p);
    hide Do, Enabled, Inv, LockOk, Adopted;
    if ForkStep(t) {
      NotAdopted1(s, t, init, q);
    } else if ExitStep(t) {
      AdoptedByInit(s, t, init, q);
    } else {
      NotAdopted2(s, t, init, q);
    }
  }

  // ----- kill -----

  /** kill marks the process, whatever it is doing, and one that sleeps, on any channel, will run. */
  lemma KillWakes(s: State, init: nat, p: nat)
    requires Enabled(s, Kill(p), init)
    ensures p < |s.slots| && Do(s, Kill(p), init).slots == s.slots[p := Do(s, Kill(p), init).slots[p]]
    ensures var me, me' := s.slots[p], Do(s, Kill(p), init).slots[p];
            me'.killed && !me'.status.Sleeping? && me'.pc == me.pc && me'.pid == me.pid && me'.parent == me.parent
  {}
}
