/** Whole runs of the process life cycle: nobody's parent is gone, no zombie is lost, no status is
    returned twice, and no parent sleeps through the death of a child. */
module ProcLifeRuns {
  import opened Common
  import opened ProcLife
  import opened ProcLifeSteps

  lemma ForkStepKeeps(s: State, t: Step, init: nat)
    requires Inv(s, init) && Enabled(s, t, init) && (t.Fail? || t.Copied? || t.Link? || t.Start?)
    ensures Inv(Do(s, t, init), init)
  {
    hide Inv, LockOk, SlotOk;
    var p := t.p;
    var np := s.slots[p].pc.np;
    var was := s.slots[np];
    match t
    case Fail(_) => ForkKeeps(s, p, np, Freed(was), Out, init);
    case Copied(_) => ForkKeeps(s, p, np, WithLock(was, was.pc, Free), FMade(np), init);
    case Link(_) => ForkKeeps(s, p, np, WithParent(was, p), FLinked(np), init);
    case Start(_) => ForkKeeps(s, p, np, WithStatus(was, Runnable), Out, init);
  }

  lemma StepKeepsInv(s: State, t: Step, init: nat)
    requires Inv(s, init) && Enabled(s, t, init)
    ensures Inv(Do(s, t, init), init)
  {
    hide Inv;
    match t
    case Alloc(p, np) => AllocKeeps(s, p, np, init);
    case Fail(_) => ForkStepKeeps(s, t, init);
    case Copied(_) => ForkStepKeeps(s, t, init);
    case Link(_) => ForkStepKeeps(s, t, init);
    case Start(_) => ForkStepKeeps(s, t, init);
    case Exit(p) => ExitKeeps(s, p, init);
    case Reparent(p) => ReparentKeeps(s, p, init);
    case WakeInit(p) => WakeInitKeeps(s, p, init);
    case WakeParent(p) => WakeParentKeeps(s, p, init);
    case LockSelf(p) => LockSelfKeeps(s, p, init);
    case Die(p, code) => DieKeeps(s, p, code, init);
    case ExitRelease(p) => ExitReleaseKeeps(s, p, init);
    case Vanish(p) => VanishKeeps(s, p, init);
    case Wait(p) => WaitKeeps(s, p, init);
    case Scan(p, copied) => ScanKeeps(s, p, copied, init);
    case Decide(p) => DecideKeeps(s, p, init);
    case SleepLock(p) => SleepLockKeeps(s, p, init);
    case SleepRelease(p) => SleepReleaseKeeps(s, p, init);
    case Mark(p) => MarkKeeps(s, p, init);
    case Switch(p) => SwitchKeeps(s, p, init);
    case Run(p) => RunKeeps(s, p, init);
    case Tidy(p) => TidyKeeps(s, p, init);
    case Kill(p) => KillKeeps(s, p, init);
    case Elsewhere(p, status) => ElsewhereKeeps(s, p, status, init);
  }

  // ----- runs -----

  /** Only init exists. */
  ghost predicate Init(s: State, init: nat) {
    && init < |s.slots| && s.waitLock.None? && s.exited == map[] && s.reaped == []
    && (forall p :: 0 <= p < |s.slots| ==>
          s.slots[p].pc.Out? && s.slots[p].parent.None? && s.slots[p].chan.None? && s.slots[p].lock.Free?)
    && (forall p :: 0 <= p < |s.slots| && p != init ==> s.slots[p].status.Unused?)
    && Active(s.slots[init].status) && s.slots[init].pid < s.nextpid
  }

  lemma InitInv(s: State, init: nat)
    requires Init(s, init)
    ensures Inv(s, init)
  {}

  ghost predicate StepAt(ss: seq<State>, ts: seq<Step>, init: nat, k: nat)
    requires k < |ts| && |ss| == |ts| + 1
  {
    Enabled(ss[k], ts[k], init) && ss[k + 1] == Do(ss[k], ts[k], init)
  }

  ghost predicate IsRun(ss: seq<State>, ts: seq<Step>, init: nat) {
    |ss| == |ts| + 1 && Init(ss[0], init) && forall k: nat :: k < |ts| ==> StepAt(ss, ts, init, k)
  }

  lemma {:induction false} RunInv(ss: seq<State>, ts: seq<Step>, init: nat, k: nat)
    requires IsRun(ss, ts, init) && k < |ss|
    ensures Inv(ss[k], init)
  {
    hide Inv, Init, Do, Enabled;
    if k == 0 {
      InitInv(ss[0], init);
    } else {
      RunInv(ss, ts, init, k - 1);
      assert StepAt(ss, ts, init, k - 1);
      StepKeepsInv(ss[k - 1], ts[k - 1], init);
    }
  }

  /** No orphans: in every state of every run a process's parent is neither UNUSED nor ZOMBIE,
      and every process and zombie except init has one. */
  lemma NoOrphans(ss: seq<State>, ts: seq<Step>, init: nat, k: nat, p: nat)
    requires IsRun(ss, ts, init) && k < |ss| && p < |ss[k].slots|
    ensures var s := ss[k];
            && (s.slots[p].parent.Some? ==>
                  s.slots[p].parent.value < |s.slots| && Active(s.slots[s.slots[p].parent.value].status))
            && (p != init && (Active(s.slots[p].status) || s.slots[p].status.Zombie?) ==> s.slots[p].parent.Some?)
            && (s.slots[p].status.Unused? ==> s.slots[p].parent.None?)
  {
    RunInv(ss, ts, init, k);
    assert SlotOk(ss[k], p, init);
  }

  /** No lost wakeup in wait: when wait_lock is free, a process asleep in wait or bound to sleep
      has no zombie child. */
  lemma NoSleepingThroughDeath(ss: seq<State>, ts: seq<Step>, init: nat, k: nat, p: nat, q: nat)
    requires IsRun(ss, ts, init) && k < |ss| && p < |ss[k].slots| && q < |ss[k].slots|
    requires ss[k].waitLock.None? && Committed(ss[k].slots[p]) && ss[k].slots[q].parent == Some(p)
    ensures !ss[k].slots[q].status.Zombie?
  {
    RunInv(ss, ts, init, k);
    assert ChildOk(ss[k], p, q, init);
  }

  /** wait gives up for lack of children only when there are none. */
  lemma NoChildrenMissed(ss: seq<State>, ts: seq<Step>, init: nat, k: nat, p: nat, q: nat)
    requires IsRun(ss, ts, init) && k < |ss| && p < |ss[k].slots| && q < |ss[k].slots|
    requires ss[k].slots[p].pc == WScan(|ss[k].slots|, false)
    ensures ss[k].slots[q].parent != Some(p)
  {
    RunInv(ss, ts, init, k);
    assert ChildOk(ss[k], p, q, init);
  }

  /** A child that wait frees has left its kernel stack for good. */
  lemma FreedIsGone(ss: seq<State>, ts: seq<Step>, init: nat, k: nat, p: nat)
    requires IsRun(ss, ts, init) && k < |ts| && ts[k] == Scan(p, true) && p < |ss[k].slots| && ss[k].slots[p].pc.WScan?
    requires ss[k].slots[p].pc.i < |ss[k].slots|
    requires var it := ss[k].slots[ss[k].slots[p].pc.i]; it.parent == Some(p) && it.status.Zombie?
    ensures ss[k].slots[ss[k].slots[p].pc.i].pc.XGone?
    ensures var it := ss[k].slots[ss[k].slots[p].pc.i]; ss[k + 1].reaped == ss[k].reaped + [(it.pid, it.xstate)]
  {
    RunInv(ss, ts, init, k);
    assert StepAt(ss, ts, init, k);
    var i := ss[k].slots[p].pc.i;
    assert LockOk(ss[k], i) && SlotOk(ss[k], i, init);
  }

  /** Each exited pid is returned by at most one wait, with the status it exited with; one not
      yet returned is a zombie whose parent is alive, so it can still be collected. */
  lemma StatusOnce(ss: seq<State>, ts: seq<Step>, init: nat, k: nat)
    requires IsRun(ss, ts, init) && k < |ss|
    ensures var s := ss[k];
            && (forall i, j :: 0 <= i < j < |s.reaped| ==> s.reaped[i].0 != s.reaped[j].0)
            && (forall i :: 0 <= i < |s.reaped| ==>
                  s.reaped[i].0 in s.exited && s.exited[s.reaped[i].0] == s.reaped[i].1)
            && (forall pid :: pid in s.exited && !WasReaped(s, pid) ==> exists q :: Collectable(s, q, pid))
  {
    RunInv(ss, ts, init, k);
    var s := ss[k];
    forall pid | pid in s.exited && !WasReaped(s, pid)
      ensures exists q :: Collectable(s, q, pid)
    {
      assert Accounted(s, pid);
      var q :| 0 <= q < |s.slots| && s.slots[q].status.Zombie? && s.slots[q].pid == pid;
      assert SlotOk(s, q, init);
      assert Collectable(s, q, pid);
    }
  }

  ghost predicate Collectable(s: State, q: nat, pid: nat) {
    && q < |s.slots| && s.slots[q].status.Zombie? && s.slots[q].pid == pid && pid in s.exited
        && s.slots[q].xstate == s.exited[pid]
    && s.slots[q].parent.Some? && s.slots[q].parent.value < |s.slots| && Active(s.slots[s.slots[q].parent.value].status)
  }

  ghost predicate LaterHistory(s: State, s': State) {
    && s.reaped <= s'.reaped && (forall pid :: pid in s.exited ==> pid in s'.exited && s'.exited[pid] == s.exited[pid])
  }

  lemma DieLater(s: State, t: Step, init: nat)
    requires Inv(s, init) && Enabled(s, t, init) && t.Die?
    ensures LaterHistory(s, Do(s, t, init))
  {
    assert SlotOk(s, t.p, init);
  }

  lemma ScanLater(s: State, t: Step, init: nat)
    requires Enabled(s, t, init) && t.Scan?
    ensures LaterHistory(s, Do(s, t, init))
  {}

  lemma ForkExitLater(s: State, t: Step, init: nat)
    requires Enabled(s, t, init)
    requires t.Alloc? || t.Fail? || t.Copied? || t.Link? || t.Start? || t.Exit? || t.Reparent? || t.WakeInit?
             || t.WakeParent? || t.LockSelf? || t.ExitRelease? || t.Vanish?
    ensures LaterHistory(s, Do(s, t, init))
  {}

  lemma OtherLater(s: State, t: Step, init: nat)
    requires Enabled(s, t, init)
    requires t.Wait? || t.Decide? || t.SleepLock? || t.SleepRelease? || t.Mark? || t.Switch? || t.Run? || t.Tidy?
             || t.Kill? || t.Elsewhere?
    ensures LaterHistory(s, Do(s, t, init))
  {}

  lemma StepHistory(s: State, t: Step, init: nat)
    requires Inv(s, init) && Enabled(s, t, init)
    ensures LaterHistory(s, Do(s, t, init))
  {
    hide Do, Enabled, Inv, LaterHistory;
    if t.Die? {
      DieLater(s, t, init);
    } else if t.Scan? {
      ScanLater(s, t, init);
    } else if t.Alloc? || t.Fail? || t.Copied? || t.Link? || t.Start? || t.Exit? || t.Reparent? || t.WakeInit?
      || t.WakeParent? || t.LockSelf? || t.ExitRelease? || t.Vanish? {
      ForkExitLater(s, t, init);
    } else {
      OtherLater(s, t, init);
    }
  }

  /** Statuses once recorded never change: a pid exits at most once. */
  lemma {:induction false} RunHistory(ss: seq<State>, ts: seq<Step>, init: nat, j: nat, k: nat)
    requires IsRun(ss, ts, init) && j <= k < |ss|
    ensures LaterHistory(ss[j], ss[k])
    decreases k
  {
    hide Do, Enabled, Init, Inv;
    if j < k {
      RunHistory(ss, ts, init, j, k - 1);
      RunInv(ss, ts, init, k - 1);
      assert StepAt(ss, ts, init, k - 1);
      StepHistory(ss[k - 1], ts[k - 1], init);
    }
  }

  lemma DieRecords(s: State, p: nat, code: int, init: nat)
    requires Enabled(s, Die(p, code), init)
    ensures var s' := Do(s, Die(p, code), init);
            p < |s.slots| && s.slots[p].pid in s'.exited && s'.exited[s.slots[p].pid] == code
  {}

  /** What a process gives to exit is what wait returns for it, in every run and however much later. */
  lemma StatusIsCode(ss: seq<State>, ts: seq<Step>, init: nat, k: nat, p: nat, code: int, j: nat, i: nat)
    requires IsRun(ss, ts, init) && k < |ts| && ts[k] == Die(p, code) && k < j < |ss|
    requires p < |ss[k].slots| && i < |ss[j].reaped| && ss[j].reaped[i].0 == ss[k].slots[p].pid
    ensures ss[j].reaped[i].1 == code
  {
    hide Do, Enabled, Init, Inv;
    assert StepAt(ss, ts, init, k);
    DieRecords(ss[k], p, code, init);
    RunHistory(ss, ts, init, k + 1, j);
    StatusOnce(ss, ts, init, j);
  }

  // ----- kill and wait -----

  /** Killed, awake, and not past the point in wait where a process decides to sleep. */
  predicate Alert(me: Slot) {
    && me.killed && !me.pc.WCall? && !me.pc.WLocked? && !me.pc.WReleased? && !me.pc.WMarked?
    && (me.pc.WAway? ==> me.status.Runnable?)
  }

  lemma ForkStepAlert(s: State, t: Step, init: nat, p: nat)
    requires Enabled(s, t, init) && p < |s.slots| && Alert(s.slots[p])
    requires t.Alloc? || t.Fail? || t.Copied? || t.Link? || t.Start?
    ensures |Do(s, t, init).slots| == |s.slots|
    ensures Do(s, t, init).slots[p].killed ==> Alert(Do(s, t, init).slots[p])
  {}

  lemma ExitStepAlert(s: State, t: Step, init: nat, p: nat)
    requires Enabled(s, t, init) && p < |s.slots| && Alert(s.slots[p])
    requires t.Exit? || t.Reparent? || t.WakeInit? || t.WakeParent? || t.LockSelf? || t.Die?
    ensures |Do(s, t, init).slots| == |s.slots|
    ensures Do(s, t, init).slots[p].killed ==> Alert(Do(s, t, init).slots[p])
  {}

  lemma LeaveStepAlert(s: State, t: Step, init: nat, p: nat)
    requires Enabled(s, t, init) && p < |s.slots| && Alert(s.slots[p])
    requires t.ExitRelease? || t.Vanish? || t.Wait? || t.Scan? || t.Decide? || t.Kill? || t.Elsewhere?
    ensures |Do(s, t, init).slots| == |s.slots|
    ensures Do(s, t, init).slots[p].killed ==> Alert(Do(s, t, init).slots[p])
  {}

  lemma SleepStepAlert(s: State, t: Step, init: nat, p: nat)
    requires Enabled(s, t, init) && p < |s.slots| && Alert(s.slots[p])
    requires t.SleepLock? || t.SleepRelease? || t.Mark? || t.Switch? || t.Run? || t.Tidy?
    ensures |Do(s, t, init).slots| == |s.slots|
    ensures Do(s, t, init).slots[p].killed ==> Alert(Do(s, t, init).slots[p])
  {}

  /** Nothing but freeproc, which clears the flag, ends the alert. */
  lemma StepKeepsAlert(s: State, t: Step, init: nat, p: nat)
    requires Enabled(s, t, init) && p < |s.slots| && Alert(s.slots[p])
    ensures |Do(s, t, init).slots| == |s.slots|
    ensures Do(s, t, init).slots[p].killed ==> Alert(Do(s, t, init).slots[p])
  {
    hide Do, Enabled, Alert;
    if t.Alloc? || t.Fail? || t.Copied? || t.Link? || t.Start? {
      ForkStepAlert(s, t, init, p);
    } else if t.Exit? || t.Reparent? || t.WakeInit? || t.WakeParent? || t.LockSelf? || t.Die? {
      ExitStepAlert(s, t, init, p);
    } else if t.ExitRelease? || t.Vanish? || t.Wait? || t.Scan? || t.Decide? || t.Kill? || t.Elsewhere? {
      LeaveStepAlert(s, t, init, p);
    } else {
      SleepStepAlert(s, t, init, p);
    }
  }

  /** A kill alerts its victim unless that has decided to sleep and not yet taken its own lock. */
  lemma KillAlerts(s: State, init: nat, p: nat)
    requires Inv(s, init) && CanKill(s, p) && !s.slots[p].pc.WCall?
    ensures Alert(DoKill(s, p).slots[p])
  {
    assert LockOk(s, p) && SlotOk(s, p, init);
  }

  ghost predicate KilledFrom(ss: seq<State>, p: nat, j: nat, k: nat) {
    j <= k < |ss| && forall i :: j <= i <= k ==> p < |ss[i].slots| && ss[i].slots[p].killed
  }

  /** A process that was killed at any other point is in no later state asleep in wait, or bound to
      be, as long as its slot is not freed. */
  lemma {:induction false} KilledStaysAwake(ss: seq<State>, ts: seq<Step>, init: nat, p: nat, j: nat, k: nat)
    requires IsRun(ss, ts, init) && j < |ts| && ts[j] == Kill(p) && KilledFrom(ss, p, j + 1, k)
    requires p < |ss[j].slots| && !ss[j].slots[p].pc.WCall?
    ensures Alert(ss[k].slots[p]) && !Committed(ss[k].slots[p])
    decreases k
  {
    hide Do, Enabled, Init, Inv;
    if j + 1 < k {
      KilledStaysAwake(ss, ts, init, p, j, k - 1);
      assert StepAt(ss, ts, init, k - 1);
      StepKeepsAlert(ss[k - 1], ts[k - 1], init, p);
    } else {
      RunInv(ss, ts, init, j);
      assert StepAt(ss, ts, init, j);
      IsKill(ss[j], init, p);
      KillAlerts(ss[j], init, p);
    }
  }

  lemma IsKill(s: State, init: nat, p: nat)
    requires Enabled(s, Kill(p), init)
    ensures CanKill(s, p) && Do(s, Kill(p), init) == DoKill(s, p)
  {}

  /** The run goes on with `more` and p, killed in its last state so far, ends up asleep in wait. */
  ghost predicate MissedIn(ss: seq<State>, ts: seq<Step>, init: nat, p: nat, more: seq<State>, steps: seq<Step>) {
    && IsRun(ss + more, ts + steps, init) && more != [] && KilledFrom(ss + more, p, |ts|, |ss + more| - 1)
    && var last := (ss + more)[|ss + more| - 1]; last.slots[p].pc.WAway? && last.slots[p].status.Sleeping?
  }

  ghost predicate CanBeMissed(ss: seq<State>, ts: seq<Step>, init: nat, p: nat) {
    exists more, steps :: MissedIn(ss, ts, init, p, more, steps)
  }

  /** The four steps from wait's decision to its sleep, with the flag set before the first. */
  function Nap(s: State, p: nat): (r: seq<State>)
    requires CanSleepLock(s, p)
    ensures |r| == 4
  {
    var a := DoSleepLock(s, p);
    var b := DoSleepRelease(a, p);
    var c := DoMark(b, p);
    [a, b, c, DoSwitch(c, p)]
  }

  function NapSteps(p: nat): seq<Step> { [SleepLock(p), SleepRelease(p), Mark(p), Switch(p)] }

  lemma NapStep(s: State, init: nat, p: nat, i: nat)
    requires CanSleepLock(s, p) && i < 4
    ensures Enabled(([s] + Nap(s, p))[i], NapSteps(p)[i], init)
    ensures ([s] + Nap(s, p))[i + 1] == Do(([s] + Nap(s, p))[i], NapSteps(p)[i], init)
  {}

  lemma NapKilled(s: State, p: nat, i: nat)
    requires CanSleepLock(s, p) && s.slots[p].killed && i < 4
    ensures p < |Nap(s, p)[i].slots| && Nap(s, p)[i].slots[p].killed
    ensures Nap(s, p)[3].slots[p].pc.WAway? && Nap(s, p)[3].slots[p].status.Sleeping?
  {}

  /** From any state of any run a victim at that point goes to sleep by its own next steps. */
  lemma NapMisses(ss: seq<State>, ts: seq<Step>, init: nat, p: nat)
    requires IsRun(ss, ts, init) && CanSleepLock(ss[|ts|], p) && ss[|ts|].slots[p].killed
    ensures MissedIn(ss, ts, init, p, Nap(ss[|ts|], p), NapSteps(p))
  {
    hide Do, Enabled, Init, Nap;
    var s, more := ss[|ts|], Nap(ss[|ts|], p);
    var all, steps := ss + more, ts + NapSteps(p);
    NapKilled(s, p, 3);
    forall k: nat | k < |steps|
      ensures StepAt(all, steps, init, k)
    {
      if k < |ts| {
        assert StepAt(ss, ts, init, k);
      } else {
        NapStep(s, init, p, k - |ts|);
        assert all[k] == ([s] + more)[k - |ts|] && all[k + 1] == ([s] + more)[k + 1 - |ts|];
      }
    }
    forall i | |ts| <= i <= |all| - 1
      ensures p < |all[i].slots| && all[i].slots[p].killed
    {
      if i > |ts| { NapKilled(s, p, i - |ts| - 1); } else { assert all[i] == s; }
    }
  }

  /** When a kill can be missed, exactly: some continuation of the run leaves the victim killed and
      asleep in wait if and only if it was between wait's test and sleep's lock when it was killed. */
  lemma KillMissedIff(ss: seq<State>, ts: seq<Step>, init: nat, p: nat)
    requires IsRun(ss, ts, init) && |ts| > 0 && ts[|ts| - 1] == Kill(p)
    ensures p < |ss[|ts| - 1].slots|
    ensures CanBeMissed(ss, ts, init, p) <==> ss[|ts| - 1].slots[p].pc.WCall?
  {
    hide Do, Enabled, Init, Inv, IsRun, MissedIn;
    var j := |ts| - 1;
    LastKill(ss, ts, init, p);
    if ss[j].slots[p].pc.WCall? {
      NapMisses(ss, ts, init, p);
    } else if CanBeMissed(ss, ts, init, p) {
      var more, steps :| MissedIn(ss, ts, init, p, more, steps);
      NotMissed(ss, ts, init, p, more, steps);
      assert false;
    }
  }

  lemma LastKill(ss: seq<State>, ts: seq<Step>, init: nat, p: nat)
    requires IsRun(ss, ts, init) && |ts| > 0 && ts[|ts| - 1] == Kill(p)
    ensures |ss| == |ts| + 1 && CanKill(ss[|ts| - 1], p) && p < |ss[|ts|].slots| && ss[|ts|].slots[p].killed
    ensures ss[|ts| - 1].slots[p].pc.WCall? ==> CanSleepLock(ss[|ts|], p)
  {
    assert StepAt(ss, ts, init, |ts| - 1);
  }

  lemma NotMissed(ss: seq<State>, ts: seq<Step>, init: nat, p: nat, more: seq<State>, steps: seq<Step>)
    requires IsRun(ss, ts, init) && |ts| > 0 && ts[|ts| - 1] == Kill(p) && MissedIn(ss, ts, init, p, more, steps)
    requires p < |ss[|ts| - 1].slots|
    ensures ss[|ts| - 1].slots[p].pc.WCall?
  {
    hide Do, Enabled, Init;
    var all, k := ss + more, |ss + more| - 1;
    assert (ts + steps)[|ts| - 1] == ts[|ts| - 1] && all[|ts| - 1] == ss[|ts| - 1];
    if !ss[|ts| - 1].slots[p].pc.WCall? {
      KilledStaysAwake(all, ts + steps, init, p, |ts| - 1, k);
    }
  }

  // A run in which a kill comes too late: init forks, waits, finds no zombie, is killed, sleeps.

  function LateInit(pc: Pc, status: Status, chan: Option<nat>, killed: bool, lock: Owner): Slot {
    Slot(pc, status, 1, None, chan, killed, 0, lock, 0)
  }

  function LateChild(status: Status, parent: Option<nat>, lock: Owner): Slot {
    Slot(Out, status, 2, parent, None, false, 0, lock, 0)
  }

  function LateStates(): seq<State> {
    var kid := LateChild(Runnable, Some(0), Free);
    [ State(None, 2, [LateInit(Out, Running, None, false, Free),
        Slot(Out, Unused, 0, None, None, false, 0, Free, 0)], map[], []),
      State(None, 3, [LateInit(FNew(1), Running, None, false, Free), LateChild(Used, None, By(0))], map[], []),
      State(None, 3, [LateInit(FMade(1), Running, None, false, Free), LateChild(Used, None, Free)], map[], []),
      State(None, 3, [LateInit(FLinked(1), Running, None, false, Free), LateChild(Used, Some(0), Free)], map[], []),
      State(None, 3, [LateInit(Out, Running, None, false, Free), kid], map[], []),
      State(Some(0), 3, [LateInit(WScan(0, false), Running, None, false, Free), kid], map[], []),
      State(Some(0), 3, [LateInit(WScan(1, false), Running, None, false, Free), kid], map[], []),
      State(Some(0), 3, [LateInit(WScan(2, true), Running, None, false, Free), kid], map[], []),
      State(Some(0), 3, [LateInit(WCall, Running, None, false, Free), kid], map[], []),
      State(Some(0), 3, [LateInit(WCall, Running, None, true, Free), kid], map[], []),
      State(Some(0), 3, [LateInit(WLocked, Running, None, true, By(0)), kid], map[], []),
      State(None, 3, [LateInit(WReleased, Running, None, true, By(0)), kid], map[], []),
      State(None, 3, [LateInit(WMarked, Sleeping, Some(0), true, By(0)), kid], map[], []),
      State(None, 3, [LateInit(WAway, Sleeping, Some(0), true, Free), kid], map[], []) ]
  }

  function LateSteps(): seq<Step> {
    [ Alloc(0, 1), Copied(0), Link(0), Start(0), Wait(0), Scan(0, true), Scan(0, true), Decide(0), Kill(0),
      SleepLock(0), SleepRelease(0), Mark(0), Switch(0) ]
  }

  lemma LateForks(k: nat)
    requires k < 4
    ensures |LateStates()| == |LateSteps()| + 1 && StepAt(LateStates(), LateSteps(), 0, k)
  {}

  lemma LateWaits(k: nat)
    requires 4 <= k < 9
    ensures |LateStates()| == |LateSteps()| + 1 && StepAt(LateStates(), LateSteps(), 0, k)
  {}

  lemma LateSleeps(k: nat)
    requires 9 <= k < 13
    ensures |LateStates()| == |LateSteps()| + 1 && StepAt(LateStates(), LateSteps(), 0, k)
  {}

  /** kill does not take wait_lock, so a kill between wait's test and its sleep is not noticed: a
      killed process can be asleep in wait. */
  lemma KillCanBeLate()
    ensures IsRun(LateStates(), LateSteps(), 0)
    ensures var s := LateStates()[13]; s.slots[0].killed && s.slots[0].pc.WAway? && s.slots[0].status.Sleeping?
  {
    forall k: nat | k < |LateSteps()|
      ensures StepAt(LateStates(), LateSteps(), 0, k)
    {
      if k < 4 { LateForks(k); } else if k < 9 { LateWaits(k); } else { LateSleeps(k); }
    }
  }
}
