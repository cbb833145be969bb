/** Crash atomicity of the log: every run of LogProtocol is a run of an atomic store.

    The durable image is a function of the disk alone (what a full recovery would
    leave in the home blocks), and it changes in one step only: the write of a
    non-empty header, at a moment when no operation is in progress. */
module CrashSafety {
  import opened LogProtocol

  datatype Store<D> = Store(current: map<nat, D>, durable: map<nat, D>, active: set<Pid>)

  datatype Event<D> =
    | Stutter
    | Start(p: Pid)
    | Put(p: Pid, b: nat, data: D)
    | Stop(p: Pid)
    | MakeDurable
    | Fail

  ghost predicate StoreNext<D>(a: Store<D>, e: Event<D>, a': Store<D>) {
    match e
    case Stutter => a' == a
    case Start(p) => p !in a.active && a' == a.(active := a.active + {p})
    case Put(p, b, data) => p in a.active && b in a.current && a' == a.(current := a.current[b := data])
    case Stop(p) => p in a.active && a' == a.(active := a.active - {p})
    case MakeDurable => a.active == {} && a' == a.(durable := a.current)
    case Fail => a' == Store(a.durable, a.durable, {})
  }

  function EventOf<D>(step: Step<D>): Event<D> {
    match step
    case Begin(p) => Start(p)
    case Modify(p, b, data) => Put(p, b, data)
    case End(p) => Stop(p)
    case CommitHead => MakeDurable
    case Crash => Fail
    case _ => Stutter
  }

  // ----- the abstraction -----

  ghost function IndexOf(bs: seq<nat>, b: nat): (i: nat)
    requires b in bs
    ensures i < |bs| && bs[i] == b
  {
    var i :| 0 <= i < |bs| && bs[i] == b;
    i
  }

  /** The value recovery leaves in home block b, from the disk alone. */
  ghost function RecoveredAt<D>(c: Config, disk: map<nat, D>, hdr: seq<nat>, b: nat): D
    requires c.Wf() && GoodDisk(c, disk) && GoodList(c, hdr) && b < c.nblocks
  {
    if b in hdr then disk[c.start + 1 + IndexOf(hdr, b)] else disk[b]
  }

  ghost function Recovered<D>(c: Config, disk: map<nat, D>, hdr: seq<nat>): map<nat, D>
    requires c.Wf() && GoodDisk(c, disk) && GoodList(c, hdr)
  {
    map b: nat | b < c.nblocks && c.Home(b) :: RecoveredAt(c, disk, hdr, b)
  }

  /** What file-system code reads through the buffer cache. */
  ghost function View<D>(c: Config, s: State<D>): map<nat, D>
    requires c.Wf() && GoodDisk(c, s.disk)
  {
    map b: nat | b < c.nblocks && c.Home(b) :: Read(s, b)
  }

  ghost predicate Shape<D>(c: Config, s: State<D>) {
    c.Wf() && GoodDisk(c, s.disk) && GoodList(c, s.hdr)
  }

  ghost function Abs<D>(c: Config, s: State<D>): Store<D>
    requires Shape(c, s)
  {
    var durable := Recovered(c, s.disk, s.hdr);
    Store(if Recovering(s) then durable else View(c, s), durable, s.ops.Keys)
  }

  // ----- one disk write at a time -----

  /** Writing anywhere but to a listed log block or an unlisted home block is invisible to recovery. */
  lemma WriteToLog<D>(c: Config, disk: map<nat, D>, b: nat, d: D)
    requires c.Wf() && GoodDisk(c, disk) && c.start <= b < c.start + c.size
    ensures GoodDisk(c, disk[b := d]) && Recovered(c, disk[b := d], []) == Recovered(c, disk, [])
  {}

  /** Installing one more listed block does not change what recovery yields. */
  lemma WriteHome<D>(c: Config, disk: map<nat, D>, hdr: seq<nat>, t: nat)
    requires c.Wf() && GoodDisk(c, disk) && GoodList(c, hdr) && t < |hdr|
    ensures var disk' := disk[hdr[t] := disk[c.start + 1 + t]];
            GoodDisk(c, disk') && Recovered(c, disk', hdr) == Recovered(c, disk, hdr)
  {
    var disk' := disk[hdr[t] := disk[c.start + 1 + t]];
    forall b: nat | b < c.nblocks && c.Home(b)
      ensures RecoveredAt(c, disk', hdr, b) == RecoveredAt(c, disk, hdr, b)
    {
      if b in hdr { assert c.start + 1 + IndexOf(hdr, b) != hdr[t]; }
    }
  }

  /** With every listed block installed, the header may go. */
  lemma ForgetHeader<D>(c: Config, disk: map<nat, D>, hdr: seq<nat>)
    requires c.Wf() && GoodDisk(c, disk) && GoodList(c, hdr) && Installed(c, disk, hdr, |hdr|)
    ensures Recovered(c, disk, []) == Recovered(c, disk, hdr)
  {
    forall b: nat | b < c.nblocks && c.Home(b)
      ensures RecoveredAt(c, disk, [], b) == RecoveredAt(c, disk, hdr, b)
    {
      if b in hdr { assert disk[hdr[IndexOf(hdr, b)]] == disk[c.start + 1 + IndexOf(hdr, b)]; }
    }
  }

  /** With every modified block logged, writing the header makes the cached image durable. */
  lemma HeaderCommits<D>(c: Config, s: State<D>)
    requires Inv(c, s) && s.phase == WritingHead
    ensures Recovered(c, s.disk, s.lh) == View(c, s)
  {
    forall b: nat | b < c.nblocks && c.Home(b)
      ensures RecoveredAt(c, s.disk, s.lh, b) == Read(s, b)
    {
      if b in s.lh {
        var i := IndexOf(s.lh, b);
        assert s.lh[i] in s.cache && s.disk[c.start + 1 + i] == s.cache[s.lh[i]];
      }
    }
  }

  lemma NothingHeld<D>(s: State<D>)
    requires Admission(s) && s.ops == map[]
    ensures s.held == map[]
  {
    assert s.held.Keys == {};
  }

  /** With nothing dirty, the view is the disk. */
  lemma CleanView<D>(c: Config, s: State<D>)
    requires Inv(c, s) && s.pins == {} && s.held == map[]
    ensures View(c, s) == Recovered(c, s.disk, [])
  {}

  // ----- each step is a step of the store -----

  ghost predicate Refines<D>(c: Config, s: State<D>, step: Step<D>)
    requires Inv(c, s) && Enabled(c, s, step)
  {
    && Shape(c, Do(c, s, step))
    && StoreNext(Abs(c, s), EventOf(step), Abs(c, Do(c, s, step)))
  }

  /** Writing a home block through with the value it already shows leaves the view alone. */
  lemma WriteThrough<D>(c: Config, s: State<D>, r: State<D>, b: nat, d: D)
    requires Shape(c, s) && b < c.nblocks && (c.Home(b) ==> Read(s, b) == d)
    requires r.disk == s.disk[b := d] && r.cache == s.cache[b := d]
    ensures GoodDisk(c, r.disk) && View(c, r) == View(c, s)
  {
    forall x: nat | x < c.nblocks && c.Home(x) ensures Read(r, x) == Read(s, x) {}
  }

  lemma CopyToLogRefines<D>(c: Config, s: State<D>)
    requires Inv(c, s) && Enabled(c, s, CopyToLog)
    ensures Refines(c, s, CopyToLog)
  {
    var b, d := c.start + 1 + s.phase.tail, Read(s, s.lh[s.phase.tail]);
    WriteToLog(c, s.disk, b, d);
    WriteThrough(c, s, Do(c, s, CopyToLog), b, d);
  }

  lemma CommitHeadRefines<D>(c: Config, s: State<D>)
    requires Inv(c, s) && Enabled(c, s, CommitHead)
    ensures Refines(c, s, CommitHead)
  {
    HeaderCommits(c, s);
    assert View(c, Do(c, s, CommitHead)) == View(c, s);
  }

  lemma InstallRefines<D>(c: Config, s: State<D>)
    requires Inv(c, s) && Enabled(c, s, Install)
    ensures Refines(c, s, Install)
  {
    var t := s.phase.tail;
    assert Read(s, c.start + 1 + t) == s.disk[c.start + 1 + t] == s.cache[s.lh[t]];
    WriteHome(c, s.disk, s.hdr, t);
    WriteThrough(c, s, Do(c, s, Install), s.lh[t], s.disk[c.start + 1 + t]);
  }

  lemma ClearHeadRefines<D>(c: Config, s: State<D>)
    requires Inv(c, s) && Enabled(c, s, ClearHead)
    ensures Refines(c, s, ClearHead)
  {
    ForgetHeader(c, s.disk, s.hdr);
    assert View(c, Do(c, s, ClearHead)) == View(c, s);
  }

  lemma ReinstallRefines<D>(c: Config, s: State<D>)
    requires Inv(c, s) && Enabled(c, s, Reinstall)
    ensures Refines(c, s, Reinstall)
  {
    var t := s.phase.rtail;
    assert Read(s, c.start + 1 + t) == s.disk[c.start + 1 + t];
    WriteHome(c, s.disk, s.hdr, t);
  }

  lemma ReclearHeadRefines<D>(c: Config, s: State<D>)
    requires Inv(c, s) && Enabled(c, s, ReclearHead)
    ensures Refines(c, s, ReclearHead)
  {
    StepKeepsInv(c, s, ReclearHead);
    ForgetHeader(c, s.disk, s.hdr);
    NothingHeld(s);
    CleanView(c, Do(c, s, ReclearHead));
  }

  lemma ModifyRefines<D>(c: Config, s: State<D>, p: Pid, b: nat, data: D)
    requires Inv(c, s) && Enabled(c, s, Modify(p, b, data))
    ensures Refines(c, s, Modify(p, b, data))
  {
    assert View(c, Do(c, s, Modify(p, b, data))) == View(c, s)[b := data];
  }

  lemma CacheStepRefines<D>(c: Config, s: State<D>, step: Step<D>)
    requires Inv(c, s) && Enabled(c, s, step) && (step.Load? || step.Evict?)
    ensures Refines(c, s, step)
  {
    assert View(c, Do(c, s, step)) == View(c, s);
  }

  /** Only the disk, the header, the cache and who is active are visible. */
  lemma SameStore<D>(c: Config, s: State<D>, r: State<D>)
    requires Shape(c, s) && r.disk == s.disk && r.hdr == s.hdr && r.cache == s.cache && Recovering(r) == Recovering(s)
    ensures Shape(c, r) && Abs(c, r) == Abs(c, s).(active := r.ops.Keys)
  {}

  lemma BeginRefines<D>(c: Config, s: State<D>, p: Pid)
    requires Inv(c, s) && Enabled(c, s, Begin(p))
    ensures Refines(c, s, Begin(p))
  {
    var r := Do(c, s, Begin(p));
    SameStore(c, s, r);
    assert r.ops.Keys == s.ops.Keys + {p};
  }

  lemma LogWriteRefines<D>(c: Config, s: State<D>, p: Pid, b: nat)
    requires Inv(c, s) && Enabled(c, s, LogWrite(p, b))
    ensures Refines(c, s, LogWrite(p, b))
  {
    var r := Do(c, s, LogWrite(p, b));
    SameStore(c, s, r);
    assert r.ops.Keys == s.ops.Keys;
  }

  lemma EndRefines<D>(c: Config, s: State<D>, p: Pid)
    requires Inv(c, s) && Enabled(c, s, End(p))
    ensures Refines(c, s, End(p))
  {
    var r := Do(c, s, End(p));
    SameStore(c, s, r);
    assert r.ops.Keys == s.ops.Keys - {p};
  }

  lemma QuietStepRefines<D>(c: Config, s: State<D>, step: Step<D>)
    requires Inv(c, s) && Enabled(c, s, step) && (step.Wait? || step.Kill? || step.Finish? || step.ReadHead?)
    ensures Refines(c, s, step)
  {
    SameStore(c, s, Do(c, s, step));
  }

  lemma CrashRefines<D>(c: Config, s: State<D>)
    requires Inv(c, s)
    ensures Refines(c, s, Crash)
  {}

  /** Every step of the log, crashes included, is the corresponding step of the atomic store. */
  lemma StepRefines<D>(c: Config, s: State<D>, step: Step<D>)
    requires Inv(c, s) && Enabled(c, s, step)
    ensures Refines(c, s, step)
  {
    hide Inv, Do, Enabled, Refines;
    match step
    case CopyToLog => CopyToLogRefines(c, s);
    case CommitHead => CommitHeadRefines(c, s);
    case Install => InstallRefines(c, s);
    case ClearHead => ClearHeadRefines(c, s);
    case Reinstall => ReinstallRefines(c, s);
    case ReclearHead => ReclearHeadRefines(c, s);
    case Modify(p, b, data) => ModifyRefines(c, s, p, b, data);
    case Load(_) => CacheStepRefines(c, s, step);
    case Evict(_) => CacheStepRefines(c, s, step);
    case Begin(p) => BeginRefines(c, s, p);
    case LogWrite(p, b) => LogWriteRefines(c, s, p, b);
    case End(p) => EndRefines(c, s, p);
    case Wait(_) => QuietStepRefines(c, s, step);
    case Kill(_) => QuietStepRefines(c, s, step);
    case Finish => QuietStepRefines(c, s, step);
    case ReadHead => QuietStepRefines(c, s, step);
    case Crash => CrashRefines(c, s);
  }

  // ----- whole runs -----

  datatype Run<D> = Run(states: seq<State<D>>, steps: seq<Step<D>>)

  ghost predicate Next<D>(c: Config, s: State<D>, step: Step<D>, s': State<D>) {
    Enabled(c, s, step) && s' == Do(c, s, step)
  }

  ghost predicate StepAt<D>(c: Config, r: Run<D>, i: nat)
    requires i < |r.steps| < |r.states|
  {
    Next(c, r.states[i], r.steps[i], r.states[i + 1])
  }

  ghost predicate IsRun<D>(c: Config, r: Run<D>) {
    && |r.states| == |r.steps| + 1
    && Init(c, r.states[0])
    && forall i :: 0 <= i < |r.steps| ==> StepAt(c, r, i)
  }

  /** A run of the atomic store with the given events. */
  ghost predicate IsStoreRun<D>(a: seq<Store<D>>, steps: seq<Step<D>>) {
    && |a| == |steps| + 1
    && a[0].current == a[0].durable && a[0].active == {}
    && forall i :: 0 <= i < |steps| ==> StoreNext(a[i], EventOf(steps[i]), a[i + 1])
  }

  ghost predicate CommitsIn<D>(steps: seq<Step<D>>, lo: nat, hi: nat)
    requires hi <= |steps|
  {
    exists j :: lo <= j < hi && steps[j].CommitHead?
  }

  /** In the atomic store, the durable image is the current one at the last commit. */
  lemma {:induction false} StoreAtomicity<D>(a: seq<Store<D>>, steps: seq<Step<D>>, n: nat) returns (k: nat)
    requires IsStoreRun(a, steps) && n < |a|
    ensures k <= n && a[n].durable == a[k].current && a[k].active == {}
    ensures (k == 0 && !CommitsIn(steps, 0, n)) || (k < n && steps[k].CommitHead? && !CommitsIn(steps, k + 1, n))
  {
    if n == 0 {
      k := 0;
    } else {
      assert StoreNext(a[n - 1], EventOf(steps[n - 1]), a[n]);
      if steps[n - 1].CommitHead? {
        k := n - 1;
      } else {
        k := StoreAtomicity(a, steps, n - 1);
      }
    }
  }

  lemma {:induction false} RunInv<D>(c: Config, r: Run<D>, n: nat)
    requires IsRun(c, r) && n < |r.states|
    ensures Inv(c, r.states[n])
  {
    if n > 0 {
      RunInv(c, r, n - 1);
      assert StepAt(c, r, n - 1);
      StepKeepsInv(c, r.states[n - 1], r.steps[n - 1]);
    }
  }

  /** The store image of a run, state by state. */
  ghost function AbsRun<D>(c: Config, r: Run<D>, n: nat): (a: seq<Store<D>>)
    requires IsRun(c, r) && n <= |r.states|
    ensures |a| == n
  {
    if n == 0 then [] else
      RunInv(c, r, n - 1);
      AbsRun(c, r, n - 1) + [Abs(c, r.states[n - 1])]
  }

  lemma {:induction false} AbsRunAt<D>(c: Config, r: Run<D>, n: nat, i: nat)
    requires IsRun(c, r) && i < n <= |r.states|
    ensures Inv(c, r.states[i]) && AbsRun(c, r, n)[i] == Abs(c, r.states[i])
  {
    RunInv(c, r, i);
    if i < n - 1 { AbsRunAt(c, r, n - 1, i); }
  }

  /** Every run of the log is a run of the atomic store. */
  lemma RunRefines<D>(c: Config, r: Run<D>)
    requires IsRun(c, r)
    ensures IsStoreRun(AbsRun(c, r, |r.states|), r.steps)
  {
    var a := AbsRun(c, r, |r.states|);
    AbsRunAt(c, r, |r.states|, 0);
    forall i | 0 <= i < |r.steps|
      ensures StoreNext(a[i], EventOf(r.steps[i]), a[i + 1])
    {
      AbsRunAt(c, r, |r.states|, i);
      AbsRunAt(c, r, |r.states|, i + 1);
      assert StepAt(c, r, i);
      StepRefines(c, r.states[i], r.steps[i]);
    }
  }

  /** Crash atomicity over whole runs, for any interleaving and any number of crashes,
      inside recovery too: what recovery would yield in state n is the image operations
      saw at the last non-empty header write k, or the image recovered at power-on if
      there was none.  No operation was in progress at k, so none is visible in part. */
  lemma CrashAtomicity<D>(c: Config, r: Run<D>, n: nat) returns (k: nat)
    requires IsRun(c, r) && n < |r.states|
    ensures k <= n && Inv(c, r.states[n]) && Inv(c, r.states[k])
    ensures Recovered(c, r.states[n].disk, r.states[n].hdr) == Abs(c, r.states[k]).current
    ensures r.states[k].ops == map[]
    ensures (k == 0 && !CommitsIn(r.steps, 0, n)) || (k < n && r.steps[k].CommitHead? && !CommitsIn(r.steps, k + 1, n))
  {
    RunRefines(c, r);
    k := StoreAtomicity(AbsRun(c, r, |r.states|), r.steps, n);
    AbsRunAt(c, r, |r.states|, n);
    AbsRunAt(c, r, |r.states|, k);
  }

  /** Once recovery has finished, and whenever the log is idle, the home blocks on disk
      are the durable image. */
  lemma QuiescentDisk<D>(c: Config, s: State<D>)
    requires Inv(c, s) && s.phase == Running
    ensures Abs(c, s).durable == map b: nat | b < c.nblocks && c.Home(b) :: s.disk[b]
    ensures s.ops == map[] ==> Abs(c, s).current == Abs(c, s).durable
  {
    if s.ops == map[] {
      NothingHeld(s);
      assert s.pins == {} by { assert forall b :: b in s.pins ==> b in s.lh; }
      CleanView(c, s);
    }
  }
}
