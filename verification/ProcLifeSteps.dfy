/** Every step of the process life cycle keeps the invariant. */
module ProcLifeSteps {
  import opened Common
  import opened ProcLife

  // ----- steps that change one slot and neither births, deaths nor families -----

  /** Same parent, pid, exit status and maker; UNUSED, USED and ZOMBIE neither come nor go. */
  ghost predicate SameLife(x: Slot, y: Slot) {
    && x.parent == y.parent && x.pid == y.pid && x.xstate == y.xstate && x.maker == y.maker
    && x.status.Unused? == y.status.Unused? && x.status.Used? == y.status.Used? && x.status.Zombie? == y.status.Zombie?
  }

  /** What slot p says of itself. */
  ghost predicate MeOk(s: State, p: nat, init: nat)
    requires p < |s.slots|
  {
    var n, me := |s.slots|, s.slots[p];
    && StatusOk(me) && (p == init ==> !Exiting(me.pc))
    && (Inside(me.pc) <==> s.waitLock == Some(p)) && (OwnLock(me.pc) <==> me.lock == By(p))
    && (me.chan == if me.pc.WMarked? || me.pc.WAway? || me.pc.WBack? then Some(p) else None)
    && (me.pc.XReparent? ==> me.pc.i <= n) && (me.pc.XWakeInit? ==> me.pc.i < n && me.pc.j <= n)
        && (me.pc.XWake? ==> me.pc.j <= n)
    && (me.pc.WScan? ==> me.pc.i <= n)
  }

  ghost predicate OwnOrFree(me: Slot, p: nat) { me.lock == Free || me.lock == By(p) }

  /** Only slot p changes, from a state with Inv, in a way that keeps it. */
  ghost predicate Quiet(s: State, s': State, p: nat, init: nat) {
    && p < |s.slots| && |s'.slots| == |s.slots| && s'.slots == s.slots[p := s'.slots[p]]
    && s'.nextpid == s.nextpid && s'.exited == s.exited && s'.reaped == s.reaped
    && SameLife(s.slots[p], s'.slots[p]) && MeOk(s', p, init)
    && (s'.slots[p].pc == s.slots[p].pc || (!Forking(s.slots[p].pc) && !Forking(s'.slots[p].pc)))
    && (s'.slots[p].lock == s.slots[p].lock || (OwnOrFree(s.slots[p], p) && OwnOrFree(s'.slots[p], p)))
    && (s'.waitLock == s.waitLock || ((s.waitLock == None || s.waitLock == Some(p))
        && (s'.waitLock == None || s'.waitLock == Some(p))))
  }

  /** The families of p after its move. */
  ghost predicate Families(s: State, s': State, p: nat, init: nat)
    requires |s'.slots| == |s.slots| && p < |s.slots|
  {
    && (forall q :: 0 <= q < |s.slots| ==> ChildOk(s', p, q, init))
    && (forall x ::
          0 <= x < |s.slots| && x != p && s.slots[p].parent == Some(x) && x < Called(s'.slots[p].pc, |s.slots|) ==>
          !Committed(s.slots[x]))
    && (forall x :: 0 <= x < |s.slots| && Committed(s.slots[x]) && Coming(s, x, init) ==> Coming(s', x, init))
  }

  lemma QuietLock(s: State, s': State, p: nat, init: nat, a: nat)
    requires Quiet(s, s', p, init) && LockOk(s, p) && a < |s.slots| && LockOk(s, a)
    ensures LockOk(s', a)
  {}

  lemma QuietSlot(s: State, s': State, p: nat, init: nat, a: nat)
    requires Quiet(s, s', p, init) && SlotOk(s, p, init) && a < |s.slots| && SlotOk(s, a, init)
    ensures SlotOk(s', a, init)
  {
    assert WasReaped(s', s.slots[a].pid) == WasReaped(s, s.slots[a].pid);
  }

  lemma QuietChild(s: State, s': State, p: nat, init: nat, a: nat, b: nat)
    requires Quiet(s, s', p, init) && Families(s, s', p, init) && a < |s.slots| && b < |s.slots|
             && ChildOk(s, a, b, init)
    ensures ChildOk(s', a, b, init)
  {}

  lemma QuietHistory(s: State, s': State, p: nat, init: nat)
    requires Quiet(s, s', p, init) && HistoryOk(s)
    ensures HistoryOk(s')
  {
    forall pid | pid in s'.exited
      ensures Accounted(s', pid)
    {
      assert Accounted(s, pid);
      if q :| 0 <= q < |s.slots| && s.slots[q].status.Zombie? && s.slots[q].pid == pid {
        assert s'.slots[q].status.Zombie? && s'.slots[q].pid == pid;
      }
    }
  }

  lemma QuietKeeps(s: State, s': State, p: nat, init: nat)
    requires Inv(s, init) && Quiet(s, s', p, init) && Families(s, s', p, init)
    ensures Inv(s', init)
  {
    hide LockOk, SlotOk, ChildOk, HistoryOk, MeOk, Families;
    assert LockOk(s, p) && SlotOk(s, p, init);
    forall a | 0 <= a < |s'.slots|
      ensures LockOk(s', a) && SlotOk(s', a, init)
    {
      assert LockOk(s, a) && SlotOk(s, a, init);
      QuietLock(s, s', p, init, a);
      QuietSlot(s, s', p, init, a);
    }
    forall a, b | 0 <= a < |s'.slots| && 0 <= b < |s'.slots|
      ensures ChildOk(s', a, b, init) && PidsDiffer(s', a, b)
    {
      assert ChildOk(s, a, b, init) && PidsDiffer(s, a, b);
      QuietChild(s, s', p, init, a, b);
    }
    QuietHistory(s, s', p, init);
  }

  lemma ExitKeeps(s: State, p: nat, init: nat)
    requires Inv(s, init) && CanExit(s, p, init)
    ensures Inv(DoExit(s, p, init), init)
  {
    var s' := DoExit(s, p, init);
    assert LockOk(s, p) && SlotOk(s, p, init);
    forall q | 0 <= q < |s.slots|
      ensures ChildOk(s', p, q, init)
    {
      assert ChildOk(s, p, q, init) && LockOk(s, q);
    }
    QuietKeeps(s, s', p, init);
  }

  lemma LockSelfKeeps(s: State, p: nat, init: nat)
    requires Inv(s, init) && CanLockSelf(s, p)
    ensures Inv(DoLockSelf(s, p), init)
  {
    var s' := DoLockSelf(s, p);
    assert LockOk(s, p) && SlotOk(s, p, init);
    forall q | 0 <= q < |s.slots|
      ensures ChildOk(s', p, q, init)
    {
      assert ChildOk(s, p, q, init) && LockOk(s, q);
    }
    if s.slots[p].parent.Some? { assert ChildOk(s, s.slots[p].parent.value, p, init); }
    QuietKeeps(s, s', p, init);
  }

  lemma ExitReleaseKeeps(s: State, p: nat, init: nat)
    requires Inv(s, init) && CanExitRelease(s, p)
    ensures Inv(DoExitRelease(s, p), init)
  {
    var s' := DoExitRelease(s, p);
    assert LockOk(s, p) && SlotOk(s, p, init);
    forall q | 0 <= q < |s.slots|
      ensures ChildOk(s', p, q, init)
    {
      assert ChildOk(s, p, q, init) && LockOk(s, q);
    }
    QuietKeeps(s, s', p, init);
  }

  lemma VanishKeeps(s: State, p: nat, init: nat)
    requires Inv(s, init) && CanVanish(s, p)
    ensures Inv(DoVanish(s, p), init)
  {
    var s' := DoVanish(s, p);
    assert LockOk(s, p) && SlotOk(s, p, init);
    forall q | 0 <= q < |s.slots|
      ensures ChildOk(s', p, q, init)
    {
      assert ChildOk(s, p, q, init) && LockOk(s, q);
    }
    QuietKeeps(s, s', p, init);
  }

  lemma WaitKeeps(s: State, p: nat, init: nat)
    requires Inv(s, init) && CanWait(s, p)
    ensures Inv(DoWait(s, p), init)
  {
    var s' := DoWait(s, p);
    assert LockOk(s, p) && SlotOk(s, p, init);
    forall q | 0 <= q < |s.slots|
      ensures ChildOk(s', p, q, init)
    {
      assert ChildOk(s, p, q, init) && LockOk(s, q);
    }
    QuietKeeps(s, s', p, init);
  }

  lemma DecideKeeps(s: State, p: nat, init: nat)
    requires Inv(s, init) && CanDecide(s, p)
    ensures Inv(DoDecide(s, p), init)
  {
    var s' := DoDecide(s, p);
    assert LockOk(s, p) && SlotOk(s, p, init);
    forall q | 0 <= q < |s.slots|
      ensures ChildOk(s', p, q, init)
    {
      assert ChildOk(s, p, q, init) && LockOk(s, q);
    }
    QuietKeeps(s, s', p, init);
  }

  lemma SleepLockKeeps(s: State, p: nat, init: nat)
    requires Inv(s, init) && CanSleepLock(s, p)
    ensures Inv(DoSleepLock(s, p), init)
  {
    var s' := DoSleepLock(s, p);
    assert LockOk(s, p) && SlotOk(s, p, init);
    forall q | 0 <= q < |s.slots|
      ensures ChildOk(s', p, q, init)
    {
      assert ChildOk(s, p, q, init) && LockOk(s, q);
    }
    QuietKeeps(s, s', p, init);
  }

  lemma SleepReleaseKeeps(s: State, p: nat, init: nat)
    requires Inv(s, init) && CanSleepRelease(s, p)
    ensures Inv(DoSleepRelease(s, p), init)
  {
    var s' := DoSleepRelease(s, p);
    assert LockOk(s, p) && SlotOk(s, p, init);
    forall q | 0 <= q < |s.slots|
      ensures ChildOk(s', p, q, init)
    {
      assert ChildOk(s, p, q, init) && LockOk(s, q);
    }
    QuietKeeps(s, s', p, init);
  }

  lemma MarkKeeps(s: State, p: nat, init: nat)
    requires Inv(s, init) && CanMark(s, p)
    ensures Inv(DoMark(s, p), init)
  {
    var s' := DoMark(s, p);
    assert LockOk(s, p) && SlotOk(s, p, init);
    forall q | 0 <= q < |s.slots|
      ensures ChildOk(s', p, q, init)
    {
      assert ChildOk(s, p, q, init) && LockOk(s, q);
    }
    QuietKeeps(s, s', p, init);
  }

  lemma SwitchKeeps(s: State, p: nat, init: nat)
    requires Inv(s, init) && CanSwitch(s, p)
    ensures Inv(DoSwitch(s, p), init)
  {
    var s' := DoSwitch(s, p);
    assert LockOk(s, p) && SlotOk(s, p, init);
    forall q | 0 <= q < |s.slots|
      ensures ChildOk(s', p, q, init)
    {
      assert ChildOk(s, p, q, init) && LockOk(s, q);
    }
    QuietKeeps(s, s', p, init);
  }

  lemma RunKeeps(s: State, p: nat, init: nat)
    requires Inv(s, init) && CanRun(s, p)
    ensures Inv(DoRun(s, p), init)
  {
    var s' := DoRun(s, p);
    assert LockOk(s, p) && SlotOk(s, p, init);
    forall q | 0 <= q < |s.slots|
      ensures ChildOk(s', p, q, init)
    {
      assert ChildOk(s, p, q, init) && LockOk(s, q);
    }
    QuietKeeps(s, s', p, init);
  }

  lemma TidyKeeps(s: State, p: nat, init: nat)
    requires Inv(s, init) && CanTidy(s, p)
    ensures Inv(DoTidy(s, p), init)
  {
    var s' := DoTidy(s, p);
    assert LockOk(s, p) && SlotOk(s, p, init);
    forall q | 0 <= q < |s.slots|
      ensures ChildOk(s', p, q, init)
    {
      assert ChildOk(s, p, q, init) && LockOk(s, q);
    }
    QuietKeeps(s, s', p, init);
  }

  lemma KillKeeps(s: State, p: nat, init: nat)
    requires Inv(s, init) && CanKill(s, p)
    ensures Inv(DoKill(s, p), init)
  {
    var s' := DoKill(s, p);
    assert LockOk(s, p) && SlotOk(s, p, init);
    forall q | 0 <= q < |s.slots|
      ensures ChildOk(s', p, q, init)
    {
      assert ChildOk(s, p, q, init) && LockOk(s, q);
    }
    if s.slots[p].parent.Some? { assert ChildOk(s, s.slots[p].parent.value, p, init); }
    QuietKeeps(s, s', p, init);
  }

  lemma ElsewhereKeeps(s: State, p: nat, status: Status, init: nat)
    requires Inv(s, init) && CanElsewhere(s, p, status)
    ensures Inv(DoElsewhere(s, p, status), init)
  {
    var s' := DoElsewhere(s, p, status);
    assert LockOk(s, p) && SlotOk(s, p, init);
    forall q | 0 <= q < |s.slots|
      ensures ChildOk(s', p, q, init)
    {
      assert ChildOk(s, p, q, init) && LockOk(s, q);
    }
    QuietKeeps(s, s', p, init);
  }

  // ----- wakeup -----

  /** wakeup at one slot: a quiet change after which that slot is not asleep on the channel. */
  lemma WokenKeeps(s: State, j: nat, chan: nat, init: nat)
    requires Inv(s, init) && j < |s.slots| && s.slots[j].lock.Free?
    ensures Inv(Put(s, j, Woken(s.slots[j], Some(chan))), init)
    ensures j == chan ==> !Committed(Woken(s.slots[j], Some(chan)))
  {
    var s' := Put(s, j, Woken(s.slots[j], Some(chan)));
    assert LockOk(s, j) && SlotOk(s, j, init);
    forall q | 0 <= q < |s.slots|
      ensures ChildOk(s', j, q, init)
    {
      assert ChildOk(s, j, q, init) && LockOk(s, q);
    }
    if s.slots[j].parent.Some? { assert ChildOk(s, s.slots[j].parent.value, j, init); }
    QuietKeeps(s, s', j, init);
  }

  ghost predicate NoChildBelow(s: State, p: nat, c: nat) {
    forall q :: 0 <= q < |s.slots| && s.slots[q].parent == Some(p) ==> c <= q
  }

  lemma ChildrenCleared(s: State, p: nat, init: nat)
    requires Inv(s, init) && p < |s.slots|
    ensures NoChildBelow(s, p, Cleared(s.slots[p].pc, |s.slots|))
  {
    forall q | 0 <= q < |s.slots| && s.slots[q].parent == Some(p)
      ensures Cleared(s.slots[p].pc, |s.slots|) <= q
    {
      assert ChildOk(s, p, q, init);
    }
  }

  /** The part of wakeup(init) or wakeup(parent) in which the caller moves on. */
  lemma MoveOn(s: State, p: nat, pc: Pc, init: nat)
    requires Inv(s, init) && p < |s.slots|
    requires s.slots[p].pc.XWakeInit? || s.slots[p].pc.XWake? || s.slots[p].pc.XReparent?
    requires pc.XWakeInit? || pc.XWake? || pc.XReparent?
    requires (pc.XReparent? ==> pc.i <= |s.slots|) && (pc.XWakeInit? ==> pc.i < |s.slots| && pc.j <= |s.slots|)
             && (pc.XWake? ==> pc.j <= |s.slots|)
    requires NoChildBelow(s, p, Cleared(pc, |s.slots|))
    requires s.slots[p].parent.Some? && s.slots[p].parent.value < Called(pc, |s.slots|) ==>
               !Committed(s.slots[s.slots[p].parent.value])
    requires Committed(s.slots[init]) && Coming(s, init, init) ==> pc.XWakeInit? && pc.j <= init
    ensures Inv(Move(s, p, pc, s.waitLock), init)
  {
    var s' := Move(s, p, pc, s.waitLock);
    assert LockOk(s, p) && SlotOk(s, p, init);
    forall q | 0 <= q < |s.slots|
      ensures ChildOk(s', p, q, init)
    {
      assert ChildOk(s, p, q, init);
    }
    QuietKeeps(s, s', p, init);
  }

  lemma WakeInitKeeps(s: State, p: nat, init: nat)
    requires Inv(s, init) && CanWakeInit(s, p, init)
    ensures Inv(DoWakeInit(s, p, init), init)
  {
    var n, i, j := |s.slots|, s.slots[p].pc.i, s.slots[p].pc.j;
    assert LockOk(s, p) && SlotOk(s, p, init);
    ChildrenCleared(s, p, init);
    if j >= n {
      MoveOn(s, p, XReparent(i + 1), init);
    } else if j == p {
      MoveOn(s, p, XWakeInit(i, j + 1), init);
    } else {
      var s1 := Put(s, j, Woken(s.slots[j], Some(init)));
      WokenKeeps(s, j, init, init);
      ChildrenCleared(s1, p, init);
      MoveOn(s1, p, XWakeInit(i, j + 1), init);
      assert DoWakeInit(s, p, init) == Move(s1, p, XWakeInit(i, j + 1), s.waitLock);
    }
  }

  lemma WakeParentKeeps(s: State, p: nat, init: nat)
    requires Inv(s, init) && CanWakeParent(s, p)
    ensures Inv(DoWakeParent(s, p), init)
  {
    var n, j := |s.slots|, s.slots[p].pc.j;
    assert LockOk(s, p) && SlotOk(s, p, init);
    ChildrenCleared(s, p, init);
    var x := s.slots[p].parent.value;
    assert ChildOk(s, x, p, init);
    if j == p {
      MoveOn(s, p, XWake(j + 1), init);
    } else {
      var s1 := Put(s, j, Woken(s.slots[j], Some(x)));
      WokenKeeps(s, j, x, init);
      ChildrenCleared(s1, p, init);
      MoveOn(s1, p, XWake(j + 1), init);
      assert DoWakeParent(s, p) == Move(s1, p, XWake(j + 1), s.waitLock);
    }
  }

  // ----- reparent -----

  /** A child of p at slot i given to init, the wakeup of init about to start. */
  ghost function Given(s: State, p: nat, i: nat, init: nat): State
    requires p < |s.slots| && i < |s.slots|
  {
    Put2(s, i, WithParent(s.slots[i], init), p, At(s.slots[p], XWakeInit(i, 0)))
  }

  ghost predicate CanGive(s: State, p: nat, i: nat, init: nat) {
    && Inv(s, init) && p < |s.slots| && i < |s.slots| && s.slots[p].pc == XReparent(i) && s.slots[i].parent == Some(p)
    && LockOk(s, p) && SlotOk(s, p, init) && LockOk(s, i) && SlotOk(s, i, init) && ChildOk(s, p, i, init)
        && SlotOk(s, init, init)
  }

  lemma GivenLock(s: State, p: nat, i: nat, init: nat, a: nat)
    requires CanGive(s, p, i, init) && a < |s.slots| && LockOk(s, a)
    ensures LockOk(Given(s, p, i, init), a)
  {}

  lemma GivenSlot(s: State, p: nat, i: nat, init: nat, a: nat)
    requires CanGive(s, p, i, init) && a < |s.slots| && SlotOk(s, a, init)
    ensures SlotOk(Given(s, p, i, init), a, init)
  {
    assert WasReaped(Given(s, p, i, init), s.slots[a].pid) == WasReaped(s, s.slots[a].pid);
  }

  lemma GivenChild(s: State, p: nat, i: nat, init: nat, a: nat, b: nat)
    requires CanGive(s, p, i, init) && a < |s.slots| && b < |s.slots| && ChildOk(s, a, b, init)
    requires LockOk(s, a) && LockOk(s, b)
    ensures ChildOk(Given(s, p, i, init), a, b, init)
  {}

  /** Zombies stay in the table and history does not change. */
  lemma SameHistory(s: State, s': State)
    requires HistoryOk(s) && s'.exited == s.exited && s'.reaped == s.reaped && s'.nextpid >= s.nextpid
             && |s'.slots| == |s.slots|
    requires forall q :: 0 <= q < |s.slots| && s.slots[q].status.Zombie? ==>
               s'.slots[q].status.Zombie? && s'.slots[q].pid == s.slots[q].pid
    ensures HistoryOk(s')
  {
    forall pid | pid in s'.exited
      ensures Accounted(s', pid)
    {
      assert Accounted(s, pid);
      if q :| 0 <= q < |s.slots| && s.slots[q].status.Zombie? && s.slots[q].pid == pid {
        assert s'.slots[q].status.Zombie? && s'.slots[q].pid == pid;
      }
    }
  }

  lemma ReparentKeeps(s: State, p: nat, init: nat)
    requires Inv(s, init) && CanReparent(s, p, init)
    ensures Inv(DoReparent(s, p, init), init)
  {
    var n, i := |s.slots|, s.slots[p].pc.i;
    assert LockOk(s, p) && SlotOk(s, p, init);
    ChildrenCleared(s, p, init);
    if i >= n {
      MoveOn(s, p, XWake(0), init);
    } else if s.slots[i].parent != Some(p) {
      MoveOn(s, p, XReparent(i + 1), init);
    } else {
      GiveKeeps(s, p, i, init);
    }
  }

  lemma GiveKeeps(s: State, p: nat, i: nat, init: nat)
    requires Inv(s, init) && p < |s.slots| && i < |s.slots| && s.slots[p].pc == XReparent(i)
             && s.slots[i].parent == Some(p)
    ensures Inv(Given(s, p, i, init), init)
  {
    hide LockOk, SlotOk, ChildOk, HistoryOk;
    var s' := Given(s, p, i, init);
    assert LockOk(s, p) && SlotOk(s, p, init) && LockOk(s, i) && SlotOk(s, i, init) && ChildOk(s, p, i, init)
           && SlotOk(s, init, init);
    forall a | 0 <= a < |s'.slots|
      ensures LockOk(s', a) && SlotOk(s', a, init)
    {
      assert LockOk(s, a) && SlotOk(s, a, init);
      GivenLock(s, p, i, init, a);
      GivenSlot(s, p, i, init, a);
    }
    forall a, b | 0 <= a < |s'.slots| && 0 <= b < |s'.slots|
      ensures ChildOk(s', a, b, init) && PidsDiffer(s', a, b)
    {
      assert LockOk(s, a) && LockOk(s, b) && ChildOk(s, a, b, init) && PidsDiffer(s, a, b);
      GivenChild(s, p, i, init, a, b);
    }
    SameHistory(s, s');
  }

  // ----- becoming a zombie -----

  ghost predicate AtDeath(s: State, p: nat, init: nat) {
    && Inv(s, init) && p < |s.slots| && s.slots[p].pc.XMark? && LockOk(s, p) && SlotOk(s, p, init)
  }

  lemma DieLock(s: State, p: nat, code: int, init: nat, a: nat)
    requires AtDeath(s, p, init) && a < |s.slots| && LockOk(s, a)
    ensures LockOk(DoDie(s, p, code), a)
  {}

  lemma DieSlot(s: State, p: nat, code: int, init: nat, a: nat)
    requires AtDeath(s, p, init) && a < |s.slots| && SlotOk(s, a, init) && PidsDiffer(s, p, a) && ChildOk(s, p, a, init)
    ensures SlotOk(DoDie(s, p, code), a, init)
  {
    assert WasReaped(DoDie(s, p, code), s.slots[a].pid) == WasReaped(s, s.slots[a].pid);
    assert WasReaped(s, s.slots[p].pid) ==> s.slots[p].pid in s.exited;
  }

  lemma DieChild(s: State, p: nat, code: int, init: nat, a: nat, b: nat)
    requires AtDeath(s, p, init) && a < |s.slots| && b < |s.slots| && LockOk(s, a) && LockOk(s, b)
    requires ChildOk(s, a, b, init) && PidsDiffer(s, a, b)
    ensures ChildOk(DoDie(s, p, code), a, b, init) && PidsDiffer(DoDie(s, p, code), a, b)
  {}

  lemma DieHistory(s: State, p: nat, code: int, init: nat)
    requires AtDeath(s, p, init)
    ensures HistoryOk(DoDie(s, p, code))
  {
    var s' := DoDie(s, p, code);
    forall pid | pid in s'.exited
      ensures Accounted(s', pid)
    {
      if pid == s.slots[p].pid {
        assert s'.slots[p].status.Zombie? && s'.slots[p].pid == pid;
      } else {
        assert Accounted(s, pid);
        if q :| 0 <= q < |s.slots| && s.slots[q].status.Zombie? && s.slots[q].pid == pid {
          assert s'.slots[q].status.Zombie? && s'.slots[q].pid == pid;
        }
      }
    }
  }

  lemma DieKeeps(s: State, p: nat, code: int, init: nat)
    requires Inv(s, init) && CanDie(s, p, code)
    ensures Inv(DoDie(s, p, code), init)
  {
    hide LockOk, SlotOk, ChildOk, HistoryOk;
    var s' := DoDie(s, p, code);
    assert LockOk(s, p) && SlotOk(s, p, init);
    forall a | 0 <= a < |s'.slots|
      ensures LockOk(s', a) && SlotOk(s', a, init)
    {
      assert LockOk(s, a) && SlotOk(s, a, init) && PidsDiffer(s, p, a) && ChildOk(s, p, a, init);
      DieLock(s, p, code, init, a);
      DieSlot(s, p, code, init, a);
    }
    forall a, b | 0 <= a < |s'.slots| && 0 <= b < |s'.slots|
      ensures ChildOk(s', a, b, init) && PidsDiffer(s', a, b)
    {
      assert LockOk(s, a) && LockOk(s, b) && ChildOk(s, a, b, init) && PidsDiffer(s, a, b);
      DieChild(s, p, code, init, a, b);
    }
    DieHistory(s, p, code, init);
  }

  // ----- wait's scan -----

  /** The zombie at slot i freed and recorded as returned. */
  ghost function Reaped(s: State, i: nat): State
    requires i < |s.slots|
  {
    State(s.waitLock, s.nextpid, s.slots[i := Freed(s.slots[i])], s.exited,
        s.reaped + [(s.slots[i].pid, s.slots[i].xstate)])
  }

  ghost predicate CanReap(s: State, i: nat, init: nat) {
    Inv(s, init) && i < |s.slots| && s.slots[i].status.Zombie? && s.slots[i].lock.Free? && LockOk(s, i)
        && SlotOk(s, i, init)
  }

  lemma ReapLock(s: State, i: nat, init: nat, a: nat)
    requires CanReap(s, i, init) && a < |s.slots| && LockOk(s, a)
    ensures LockOk(Reaped(s, i), a)
  {}

  lemma ReapSlot(s: State, i: nat, init: nat, a: nat)
    requires CanReap(s, i, init) && a < |s.slots| && SlotOk(s, a, init) && PidsDiffer(s, i, a)
    ensures SlotOk(Reaped(s, i), a, init)
  {
    var s' := Reaped(s, i);
    assert forall k :: 0 <= k < |s'.reaped| ==>
             s'.reaped[k] == if k < |s.reaped| then s.reaped[k] else (s.slots[i].pid, s.slots[i].xstate);
  }

  lemma ReapChild(s: State, i: nat, init: nat, a: nat, b: nat)
    requires CanReap(s, i, init) && a < |s.slots| && b < |s.slots| && LockOk(s, a) && LockOk(s, b)
    requires ChildOk(s, a, b, init) && PidsDiffer(s, a, b)
    ensures ChildOk(Reaped(s, i), a, b, init) && PidsDiffer(Reaped(s, i), a, b)
  {}

  lemma ReapHistory(s: State, i: nat, init: nat)
    requires CanReap(s, i, init)
    ensures HistoryOk(Reaped(s, i))
  {
    hide LockOk, ChildOk;
    var s', me := Reaped(s, i), s.slots[i];
    assert forall k :: 0 <= k < |s.reaped| ==> s.reaped[k].0 != me.pid;
    forall pid | pid in s'.exited
      ensures Accounted(s', pid)
    {
      assert Accounted(s, pid);
      if k :| 0 <= k < |s.reaped| && s.reaped[k].0 == pid {
        assert s'.reaped[k].0 == pid;
      } else if pid == me.pid {
        assert s'.reaped[|s.reaped|].0 == pid;
      } else {
        assert !WasReaped(s, pid);
        var q :| 0 <= q < |s.slots| && s.slots[q].status.Zombie? && s.slots[q].pid == pid;
        assert s'.slots[q].status.Zombie? && s'.slots[q].pid == pid;
      }
    }
  }

  lemma ReapKeeps(s: State, i: nat, init: nat)
    requires Inv(s, init) && i < |s.slots| && s.slots[i].status.Zombie? && s.slots[i].lock.Free?
    ensures Inv(Reaped(s, i), init)
  {
    hide LockOk, SlotOk, ChildOk, HistoryOk, PidsDiffer;
    var s' := Reaped(s, i);
    assert LockOk(s, i) && SlotOk(s, i, init);
    forall a | 0 <= a < |s'.slots|
      ensures LockOk(s', a) && SlotOk(s', a, init)
    {
      assert LockOk(s, a) && SlotOk(s, a, init) && PidsDiffer(s, i, a);
      ReapLock(s, i, init, a);
      ReapSlot(s, i, init, a);
    }
    forall a, b | 0 <= a < |s'.slots| && 0 <= b < |s'.slots|
      ensures ChildOk(s', a, b, init) && PidsDiffer(s', a, b)
    {
      assert LockOk(s, a) && LockOk(s, b) && ChildOk(s, a, b, init) && PidsDiffer(s, a, b);
      ReapChild(s, i, init, a, b);
    }
    ReapHistory(s, i, init);
  }

  /** A process in wait's scan leaves or goes on to the next slot. */
  lemma ScanOn(s: State, p: nat, pc: Pc, init: nat)
    requires Inv(s, init) && p < |s.slots| && s.slots[p].pc.WScan? && s.slots[p].pc.i < |s.slots|
    requires pc == Out || (pc.WScan? && pc.i == s.slots[p].pc.i + 1 && (s.slots[p].pc.kids ==> pc.kids))
    requires pc.WScan? && s.slots[s.slots[p].pc.i].parent == Some(p) ==>
               pc.kids && !s.slots[s.slots[p].pc.i].status.Zombie?
    ensures Inv(Move(s, p, pc, if pc == Out then None else s.waitLock), init)
  {
    var s' := Move(s, p, pc, if pc == Out then None else s.waitLock);
    assert LockOk(s, p) && SlotOk(s, p, init);
    forall q | 0 <= q < |s.slots|
      ensures ChildOk(s', p, q, init)
    {
      assert ChildOk(s, p, q, init);
    }
    QuietKeeps(s, s', p, init);
  }

  lemma ScanKeeps(s: State, p: nat, copied: bool, init: nat)
    requires Inv(s, init) && CanScan(s, p, copied)
    ensures Inv(DoScan(s, p, copied), init)
  {
    hide Inv;
    var i := s.slots[p].pc.i;
    var it := s.slots[i];
    if it.parent != Some(p) {
      ScanOn(s, p, WScan(i + 1, s.slots[p].pc.kids), init);
    } else if !it.status.Zombie? {
      ScanOn(s, p, WScan(i + 1, true), init);
    } else if !copied {
      ScanOn(s, p, Out, init);
    } else {
      ReaperApart(s, p, init);
      ReapKeeps(s, i, init);
      var s1 := Reaped(s, i);
      ScanOn(s1, p, Out, init);
      assert DoScan(s, p, copied) == Move(s1, p, Out, None);
    }
  }

  lemma ReaperApart(s: State, p: nat, init: nat)
    requires Inv(s, init) && p < |s.slots| && s.slots[p].pc.WScan?
    ensures !s.slots[p].status.Zombie?
  {
    assert SlotOk(s, p, init);
  }

  // ----- fork -----

  /** p is in fork with slot np. */
  ghost predicate AtFork(s: State, p: nat, np: nat, init: nat) {
    && Inv(s, init) && p < |s.slots| && np < |s.slots| && Forking(s.slots[p].pc) && s.slots[p].pc.np == np
    && LockOk(s, p) && SlotOk(s, p, init) && LockOk(s, np) && SlotOk(s, np, init)
  }

  /** fork's effect on the new slot np, while p moves to pc. */
  ghost function Forked(s: State, p: nat, np: nat, it: Slot, pc: Pc): State
    requires p < |s.slots| && np < |s.slots|
  {
    Put2(s, np, it, p, At(s.slots[p], pc))
  }

  /** A change of a slot in the making: released, linked, started or given up. */
  ghost predicate ForkChange(s: State, p: nat, np: nat, it: Slot, pc: Pc)
    requires p < |s.slots| && np < |s.slots|
  {
    var was, now := s.slots[np], s.slots[p].pc;
    || (now.FNew? && it == Freed(was) && pc == Out)
    || (now.FNew? && it == WithLock(was, was.pc, Free) && pc == FMade(np))
    || (now.FMade? && it == WithParent(was, p) && pc == FLinked(np) && s.waitLock.None?)
    || (now.FLinked? && it == WithStatus(was, Runnable) && pc == Out)
  }

  lemma ForkLock(s: State, p: nat, np: nat, it: Slot, pc: Pc, init: nat, a: nat)
    requires AtFork(s, p, np, init) && ForkChange(s, p, np, it, pc) && a < |s.slots| && LockOk(s, a)
    ensures LockOk(Forked(s, p, np, it, pc), a)
  {
    hide Inv;
  }

  lemma ForkSlot(s: State, p: nat, np: nat, it: Slot, pc: Pc, init: nat, a: nat)
    requires AtFork(s, p, np, init) && ForkChange(s, p, np, it, pc) && a < |s.slots| && SlotOk(s, a, init)
    ensures SlotOk(Forked(s, p, np, it, pc), a, init)
  {
    assert WasReaped(Forked(s, p, np, it, pc), s.slots[a].pid) == WasReaped(s, s.slots[a].pid);
  }

  lemma ForkChild(s: State, p: nat, np: nat, it: Slot, pc: Pc, init: nat, a: nat, b: nat)
    requires AtFork(s, p, np, init) && ForkChange(s, p, np, it, pc) && a < |s.slots| && b < |s.slots|
    requires ChildOk(s, a, b, init) && PidsDiffer(s, a, b) && LockOk(s, a)
    ensures ChildOk(Forked(s, p, np, it, pc), a, b, init) && PidsDiffer(Forked(s, p, np, it, pc), a, b)
  {
    hide Inv;
  }

  lemma ForkKeeps(s: State, p: nat, np: nat, it: Slot, pc: Pc, init: nat)
    requires Inv(s, init) && p < |s.slots| && np < |s.slots| && Forking(s.slots[p].pc) && s.slots[p].pc.np == np
    requires ForkChange(s, p, np, it, pc)
    ensures Inv(Forked(s, p, np, it, pc), init)
  {
    hide LockOk, SlotOk, ChildOk, HistoryOk, PidsDiffer, ForkChange;
    var s' := Forked(s, p, np, it, pc);
    assert LockOk(s, p) && SlotOk(s, p, init) && LockOk(s, np) && SlotOk(s, np, init);
    forall a | 0 <= a < |s'.slots|
      ensures LockOk(s', a) && SlotOk(s', a, init)
    {
      assert LockOk(s, a) && SlotOk(s, a, init);
      ForkLock(s, p, np, it, pc, init, a);
      ForkSlot(s, p, np, it, pc, init, a);
    }
    forall a, b | 0 <= a < |s'.slots| && 0 <= b < |s'.slots|
      ensures ChildOk(s', a, b, init) && PidsDiffer(s', a, b)
    {
      assert LockOk(s, a) && ChildOk(s, a, b, init) && PidsDiffer(s, a, b);
      ForkChild(s, p, np, it, pc, init, a, b);
    }
    ForkNoZombie(s, p, np, init);
    SameHistory(s, s');
  }

  lemma ForkNoZombie(s: State, p: nat, np: nat, init: nat)
    requires AtFork(s, p, np, init)
    ensures !s.slots[np].status.Zombie? && np != p
  {}

  ghost predicate AtAlloc(s: State, p: nat, np: nat, init: nat) {
    Inv(s, init) && CanAlloc(s, p, np) && LockOk(s, p) && SlotOk(s, p, init) && LockOk(s, np) && SlotOk(s, np, init)
  }

  lemma AllocLock(s: State, p: nat, np: nat, init: nat, a: nat)
    requires AtAlloc(s, p, np, init) && a < |s.slots| && LockOk(s, a)
    ensures LockOk(DoAlloc(s, p, np), a)
  {}

  lemma AllocSlot(s: State, p: nat, np: nat, init: nat, a: nat)
    requires AtAlloc(s, p, np, init) && a < |s.slots| && SlotOk(s, a, init)
    ensures SlotOk(DoAlloc(s, p, np), a, init)
  {
    assert WasReaped(DoAlloc(s, p, np), s.slots[a].pid) == WasReaped(s, s.slots[a].pid);
  }

  lemma AllocChild(s: State, p: nat, np: nat, init: nat, a: nat, b: nat)
    requires AtAlloc(s, p, np, init) && a < |s.slots| && b < |s.slots|
    requires ChildOk(s, a, b, init) && PidsDiffer(s, a, b) && SlotOk(s, a, init) && SlotOk(s, b, init) && LockOk(s, a)
    ensures ChildOk(DoAlloc(s, p, np), a, b, init) && PidsDiffer(DoAlloc(s, p, np), a, b)
  {}

  lemma AllocKeeps(s: State, p: nat, np: nat, init: nat)
    requires Inv(s, init) && CanAlloc(s, p, np)
    ensures Inv(DoAlloc(s, p, np), init)
  {
    hide LockOk, SlotOk, ChildOk, HistoryOk, PidsDiffer;
    var s' := DoAlloc(s, p, np);
    assert LockOk(s, p) && SlotOk(s, p, init) && LockOk(s, np) && SlotOk(s, np, init);
    forall a | 0 <= a < |s'.slots|
      ensures LockOk(s', a) && SlotOk(s', a, init)
    {
      assert LockOk(s, a) && SlotOk(s, a, init);
      AllocLock(s, p, np, init, a);
      AllocSlot(s, p, np, init, a);
    }
    forall a, b | 0 <= a < |s'.slots| && 0 <= b < |s'.slots|
      ensures ChildOk(s', a, b, init) && PidsDiffer(s', a, b)
    {
      assert LockOk(s, a) && SlotOk(s, a, init) && SlotOk(s, b, init) && ChildOk(s, a, b, init) && PidsDiffer(s, a, b);
      AllocChild(s, p, np, init, a, b);
    }
    SameHistory(s, s');
  }
}
