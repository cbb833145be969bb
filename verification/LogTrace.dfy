/** Stretches of a log run, summarised by the store events they show. */
module LogTrace {
  import opened Blocks
  import opened LogProtocol
  import opened CrashSafety

  ghost predicate IsPath<D>(c: Config, r: Run<D>) {
    |r.states| == |r.steps| + 1 && forall i :: 0 <= i < |r.steps| ==> StepAt(c, r, i)
  }

  /** The events of a list of steps, silent ones dropped. */
  function Visible<D>(steps: seq<Step<D>>): (es: seq<Event<D>>) {
    if steps == [] then [] else
      var e := EventOf(steps[|steps| - 1]);
      Visible(steps[..|steps| - 1]) + if e.Stutter? then [] else [e]
  }

  ghost predicate PathOf<D>(c: Config, r: Run<D>, s: State<D>, es: seq<Event<D>>, t: State<D>) {
    IsPath(c, r) && r.states[0] == s && r.states[|r.states| - 1] == t && Visible(r.steps) == es
  }

  /** Protocol steps lead from s to t, and the store sees exactly the events es on the way. */
  ghost predicate Goes<D(!new)>(c: Config, s: State<D>, es: seq<Event<D>>, t: State<D>) {
    exists r: Run<D> :: PathOf(c, r, s, es, t)
  }

  ghost predicate Reachable<D(!new)>(c: Config, s: State<D>) {
    exists s0: State<D>, es: seq<Event<D>> :: Init(c, s0) && Goes(c, s0, es, s)
  }

  lemma {:induction false} VisibleConcat<D>(a: seq<Step<D>>, b: seq<Step<D>>)
    ensures Visible(a + b) == Visible(a) + Visible(b)
  {
    if b == [] {
      assert a + b == a;
    } else {
      VisibleConcat(a, b[..|b| - 1]);
      assert (a + b)[..|a + b| - 1] == a + b[..|b| - 1];
    }
  }

  lemma GoesNowhere<D(!new)>(c: Config, s: State<D>)
    ensures Goes(c, s, [], s)
  {
    assert PathOf(c, Run([s], []), s, [], s);
  }

  lemma GoesOn<D(!new)>(c: Config, s: State<D>, es: seq<Event<D>>, t: State<D>, fs: seq<Event<D>>, u: State<D>)
    requires Goes(c, s, es, t) && Goes(c, t, fs, u)
    ensures Goes(c, s, es + fs, u)
  {
    var a: Run<D> :| PathOf(c, a, s, es, t);
    var b: Run<D> :| PathOf(c, b, t, fs, u);
    var r := Run(a.states + b.states[1..], a.steps + b.steps);
    VisibleConcat(a.steps, b.steps);
    forall i | 0 <= i < |r.steps|
      ensures StepAt(c, r, i)
    {
      if i < |a.steps| { assert StepAt(c, a, i); } else { assert StepAt(c, b, i - |a.steps|); }
    }
    assert PathOf(c, r, s, es + fs, u);
  }

  lemma SilentThen<D(!new)>(c: Config, s: State<D>, t: State<D>, es: seq<Event<D>>, u: State<D>)
    requires Goes(c, s, [], t) && Goes(c, t, es, u)
    ensures Goes(c, s, es, u)
  {
    GoesOn(c, s, [], t, es, u);
    assert [] + es == es;
  }

  lemma ThenSilent<D(!new)>(c: Config, s: State<D>, es: seq<Event<D>>, t: State<D>, u: State<D>)
    requires Goes(c, s, es, t) && Goes(c, t, [], u)
    ensures Goes(c, s, es, u)
  {
    GoesOn(c, s, es, t, [], u);
    assert es + [] == es;
  }

  lemma GoesStep<D(!new)>(c: Config, s: State<D>, step: Step<D>)
    requires Enabled(c, s, step)
    ensures Goes(c, s, if EventOf(step).Stutter? then [] else [EventOf(step)], Do(c, s, step))
  {
    var r := Run([s, Do(c, s, step)], [step]);
    assert Next(c, s, step, Do(c, s, step));
    assert StepAt(c, r, 0);
    assert r.steps[..0] == [];
    assert PathOf(c, r, s, if EventOf(step).Stutter? then [] else [EventOf(step)], Do(c, s, step));
  }

  lemma ReachOn<D(!new)>(c: Config, s: State<D>, es: seq<Event<D>>, t: State<D>)
    requires Reachable(c, s) && Goes(c, s, es, t)
    ensures Reachable(c, t)
  {
    var s0: State<D>, fs: seq<Event<D>> :| Init(c, s0) && Goes(c, s0, fs, s);
    GoesOn(c, s0, fs, s, es, t);
  }

  lemma ReachInv<D(!new)>(c: Config, s: State<D>)
    requires Reachable(c, s)
    ensures Inv(c, s)
  {
    var s0: State<D>, es: seq<Event<D>> :| Init(c, s0) && Goes(c, s0, es, s);
    var r: Run<D> :| PathOf(c, r, s0, es, s);
    assert IsRun(c, r);
    RunInv(c, r, |r.states| - 1);
  }

  // ----- the events determine what the store becomes -----

  ghost function ApplyEvent<D>(a: Store<D>, e: Event<D>): Store<D> {
    match e
    case Stutter => a
    case Start(p) => a.(active := a.active + {p})
    case Put(p, b, data) => a.(current := a.current[b := data])
    case Stop(p) => a.(active := a.active - {p})
    case MakeDurable => a.(durable := a.current)
    case Fail => Store(a.durable, a.durable, {})
  }

  ghost function ApplyEvents<D>(a: Store<D>, es: seq<Event<D>>): Store<D> {
    if es == [] then a else ApplyEvent(ApplyEvents(a, es[..|es| - 1]), es[|es| - 1])
  }

  lemma StepImage<D>(c: Config, s: State<D>, step: Step<D>, t: State<D>)
    requires Inv(c, s) && Next(c, s, step, t)
    ensures Inv(c, t) && Abs(c, t) == ApplyEvent(Abs(c, s), EventOf(step))
  {
    StepKeepsInv(c, s, step);
    StepRefines(c, s, step);
  }

  lemma ApplyVisible<D>(a: Store<D>, steps: seq<Step<D>>, n: nat)
    requires n < |steps|
    ensures ApplyEvents(a, Visible(steps[..n + 1])) == ApplyEvent(ApplyEvents(a, Visible(steps[..n])),
            EventOf(steps[n]))
  {
    assert steps[..n + 1][..n] == steps[..n];
    var es := Visible(steps[..n + 1]);
    if EventOf(steps[n]).Stutter? {
      assert es == Visible(steps[..n]);
    } else {
      assert es[..|es| - 1] == Visible(steps[..n]);
    }
  }

  lemma {:induction false} PathImage<D>(c: Config, r: Run<D>, n: nat)
    requires IsPath(c, r) && Inv(c, r.states[0]) && n < |r.states|
    ensures Inv(c, r.states[n])
    ensures Abs(c, r.states[n]) == ApplyEvents(Abs(c, r.states[0]), Visible(r.steps[..n]))
  {
    if n > 0 {
      PathImage(c, r, n - 1);
      assert StepAt(c, r, n - 1);
      StepImage(c, r.states[n - 1], r.steps[n - 1], r.states[n]);
      ApplyVisible(Abs(c, r.states[0]), r.steps, n - 1);
    }
  }

  /** Whatever steps lie between, the visible events alone decide the images. */
  lemma GoesImage<D(!new)>(c: Config, s: State<D>, es: seq<Event<D>>, t: State<D>)
    requires Inv(c, s) && Goes(c, s, es, t)
    ensures Inv(c, t) && Abs(c, t) == ApplyEvents(Abs(c, s), es)
  {
    var r: Run<D> :| PathOf(c, r, s, es, t);
    PathImage(c, r, |r.states| - 1);
    assert r.steps[..|r.steps|] == r.steps;
  }

  // ----- single steps, with the state they lead to -----

  lemma ReachFacts<D(!new)>(c: Config, s: State<D>)
    requires Reachable(c, s)
    ensures c.Wf() && GoodDisk(c, s.disk) && GoodList(c, s.lh) && GoodList(c, s.hdr)
  {
    ReachInv(c, s);
  }

  lemma EvictGoes<D(!new)>(c: Config, s: State<D>, b: nat)
    requires b in s.cache && b !in s.pins && b !in s.held
    ensures Goes(c, s, [], s.(cache := s.cache - {b}))
  {
    GoesStep(c, s, Evict(b));
  }

  lemma LoadGoes<D(!new)>(c: Config, s: State<D>, b: nat)
    requires b in s.disk && b !in s.cache
    ensures Goes(c, s, [], s.(cache := s.cache[b := s.disk[b]]))
  {
    GoesStep(c, s, Load(b));
  }

  lemma CopyGoes<D(!new)>(c: Config, s: State<D>, t: nat, d: D)
    requires s.phase == WritingLog(t) && t < |s.lh| && s.lh[t] in s.disk && c.start + 1 + t in s.disk
    requires Read(s, s.lh[t]) == d
    ensures Goes(c, s, [], s.(disk := s.disk[c.start + 1 + t := d], cache := s.cache[c.start + 1 + t := d],
                              phase := if t + 1 < |s.lh| then WritingLog(t + 1) else WritingHead))
  {
    GoesStep(c, s, CopyToLog);
  }

  lemma HeadGoes<D(!new)>(c: Config, s: State<D>)
    requires s.phase.WritingHead?
    ensures Goes(c, s, [MakeDurable], s.(hdr := s.lh, phase := Installing(0)))
  {
    GoesStep(c, s, CommitHead);
  }

  lemma ClearGoes<D(!new)>(c: Config, s: State<D>)
    requires s.phase.Clearing? || s.phase.Reclearing?
    ensures Goes(c, s, [], s.(hdr := [], phase := if s.phase.Clearing? then Committed else Running))
  {
    GoesStep(c, s, if s.phase.Clearing? then ClearHead else ReclearHead);
  }

  lemma InstallGoes<D(!new)>(c: Config, s: State<D>, t: nat, d: D, r: State<D>)
    requires s.phase == Installing(t) && t < |s.lh| && s.lh[t] in s.disk && c.start + 1 + t in s.disk
    requires Read(s, c.start + 1 + t) == d
    requires r == State(s.disk[s.lh[t] := d], s.hdr, s.cache[s.lh[t] := d], if t + 1 < |s.lh| then s.lh else [], s.ops,
                        s.pins - {s.lh[t]}, s.held, s.sleepers, s.committing,
                        if t + 1 < |s.lh| then Installing(t + 1) else Clearing)
    ensures Goes(c, s, [], r) && (Reachable(c, s) ==> Reachable(c, r))
  {
    GoesStep(c, s, Install);
    assert r == Do(c, s, Install);
    if Reachable(c, s) { ReachOn(c, s, [], r); }
  }

  lemma ReinstallGoes<D(!new)>(c: Config, s: State<D>, t: nat, d: D)
    requires s.phase == Reinstalling(t) && t < |s.lh| && s.lh[t] in s.disk && c.start + 1 + t in s.disk
    requires Read(s, c.start + 1 + t) == d
    ensures var r := s.(disk := s.disk[s.lh[t] := d], cache := s.cache[s.lh[t] := d]);
            Goes(c, s, [], if t + 1 < |s.lh| then r.(phase := Reinstalling(t + 1))
                else r.(lh := [], phase := Reclearing))
  {
    GoesStep(c, s, Reinstall);
  }

  lemma ReadHeadGoes<D(!new)>(c: Config, s: State<D>)
    requires s.phase.Rebooted?
    ensures Goes(c, s, [], s.(lh := s.hdr, phase := if s.hdr != [] then Reinstalling(0) else Reclearing))
  {
    GoesStep(c, s, ReadHead);
  }

  lemma BeginGoes<D(!new)>(c: Config, s: State<D>, p: Pid)
    requires !Recovering(s) && p !in s.ops && p !in s.sleepers && !s.committing && !Full(s)
    ensures Goes(c, s, [Start(p)], s.(ops := s.ops[p := 0]))
  {
    GoesStep(c, s, Begin(p));
  }

  lemma WaitGoes<D(!new)>(c: Config, s: State<D>, p: Pid)
    requires !Recovering(s) && p !in s.ops && p !in s.sleepers && (s.committing || Full(s))
    ensures Goes(c, s, [], s.(sleepers := s.sleepers + {p}))
  {
    GoesStep(c, s, Wait(p));
  }

  lemma ModifyGoes<D(!new)>(c: Config, s: State<D>, p: Pid, b: nat, data: D)
    requires p in s.ops && c.Home(b) && (b in s.held ==> s.held[b] == p)
    ensures Goes(c, s, [Put(p, b, data)], s.(cache := s.cache[b := data], held := s.held[b := p]))
  {
    GoesStep(c, s, Modify(p, b, data));
  }

  lemma LogWriteGoes<D(!new)>(c: Config, s: State<D>, p: Pid, b: nat)
    requires p in s.ops && b in s.held && s.held[b] == p && !LogWritePanics(c, s)
             && (b in s.lh || s.ops[p] < MAXOPBLOCKS)
    ensures var r := s.(held := s.held - {b});
            Goes(c, s, [], if b in s.lh then r
                           else r.(lh := s.lh + [b], pins := s.pins + {b}, ops := s.ops[p := s.ops[p] + 1]))
  {
    GoesStep(c, s, LogWrite(p, b));
  }

  /** log_write of a block not listed yet. */
  lemma AppendGoes<D(!new)>(c: Config, s: State<D>, p: Pid, b: nat, r: State<D>)
    requires p in s.ops && b in s.held && s.held[b] == p && !LogWritePanics(c, s) && b !in s.lh
             && s.ops[p] < MAXOPBLOCKS
    requires r == State(s.disk, s.hdr, s.cache, s.lh + [b], s.ops[p := s.ops[p] + 1], s.pins + {b}, s.held - {b},
                        s.sleepers, s.committing, s.phase)
    ensures Goes(c, s, [], r) && (Reachable(c, s) ==> Reachable(c, r))
  {
    LogWriteGoes(c, s, p, b);
    if Reachable(c, s) { ReachOn(c, s, [], r); }
  }

  lemma EndGoes<D(!new)>(c: Config, s: State<D>, p: Pid)
    requires p in s.ops && forall b :: b in s.held ==> s.held[b] != p
    ensures Goes(c, s, [Stop(p)],
                 if s.ops - {p} != map[] then s.(ops := s.ops - {p}, sleepers := {})
                 else s.(ops := map[], committing := true, phase := if |s.lh| > 0 then WritingLog(0) else Committed))
  {
    GoesStep(c, s, End(p));
  }

  lemma FinishGoes<D(!new)>(c: Config, s: State<D>)
    requires s.phase.Committed?
    ensures Goes(c, s, [], s.(committing := false, sleepers := {}, phase := Running))
  {
    GoesStep(c, s, Finish);
  }
}
