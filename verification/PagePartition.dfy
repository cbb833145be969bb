/** Every page of RAM is free, fixed, or held by exactly one process, whatever sequence of
    allocproc, fork, growproc and freeproc calls is made (kernel/proc.c). */
module PagePartition {
  import opened Common
  import opened PageTable
  import opened Vm
  import opened UserVm
  import opened UserGrow
  import opened ProcMem

  /** The memory part of a process table entry. */
  datatype Proc = Proc(root: nat, sz: nat, frame: nat)

  /** The pages of a process: tables, memory and trapframe. */
  ghost function Held(mem: Mem, p: Proc, sp: Space): set<nat> { Own(mem, sp, Pg(p.sz)) + {p.frame} }

  /** The address space is a process's, and the trapframe is a page apart. */
  ghost predicate Good(mem: Mem, free: set<nat>, tramp: nat, p: Proc, sp: Space) {
    && Wf(mem, sp) && Tables(sp) !! free && User(mem, free, sp, Pg(p.sz)) && ProcMap(mem, sp, Pg(p.sz), tramp, p.frame)
    && sp.root == p.root && p.frame in mem && p.frame !in Own(mem, sp, Pg(p.sz))
  }

  /** `fixed` are the pages the kernel keeps for itself. */
  datatype World = World(mem: Mem, free: set<nat>, fixed: set<nat>, tramp: nat, procs: map<nat, Proc>,
      spaces: map<nat, Space>)

  ghost function HeldBy(w: World, i: nat): set<nat> {
    if i in w.procs && i in w.spaces then Held(w.mem, w.procs[i], w.spaces[i]) else {}
  }

  ghost predicate Partition(w: World) {
    && (forall i, j :: i != j ==> HeldBy(w, i) !! HeldBy(w, j))
    && (forall i :: HeldBy(w, i) !! w.free && HeldBy(w, i) !! w.fixed && HeldBy(w, i) <= w.mem.Keys)
    && w.free !! w.fixed && w.free <= w.mem.Keys && w.fixed <= w.mem.Keys
    && (forall p :: p in w.mem ==> p in w.free || p in w.fixed || exists i :: p in HeldBy(w, i))
  }

  ghost predicate AllGood(w: World) {
    && w.procs.Keys == w.spaces.Keys
    && (forall i :: i in w.procs ==> Good(w.mem, w.free, w.tramp, w.procs[i], w.spaces[i]))
  }

  /** The pages of an owner are the same, with the same contents. */
  ghost predicate SamePages(w: World, w': World, i: nat) {
    && HeldBy(w', i) == HeldBy(w, i)
    && forall p :: p in HeldBy(w, i) ==> p in w.mem && p in w'.mem && w'.mem[p] == w.mem[p]
  }

  ghost predicate OthersKept(w: World, w': World, id: nat) {
    && w'.mem.Keys == w.mem.Keys
    && (forall i :: i != id ==> SamePages(w, w', i))
    && (forall p :: p in w.fixed ==> p in w.mem && p in w'.mem && w'.mem[p] == w.mem[p])
  }

  /** Only the entry of process id differs. */
  ghost predicate OnlyEntry(w: World, w': World, id: nat) {
    && w'.fixed == w.fixed && w'.tramp == w.tramp
    && w'.procs - {id} == w.procs - {id} && w'.spaces - {id} == w.spaces - {id}
  }

  lemma SameEntry(w: World, w': World, id: nat, i: nat)
    requires OnlyEntry(w, w', id) && i != id
    ensures i in w.procs <==> i in w'.procs
    ensures i in w.procs ==> w'.procs[i] == w.procs[i]
    ensures i in w.spaces <==> i in w'.spaces
    ensures i in w.spaces ==> w'.spaces[i] == w.spaces[i]
  {
    assert i in w.procs - {id} <==> i in w.procs;
    assert i in w'.procs - {id} <==> i in w'.procs;
    assert i in w.spaces - {id} <==> i in w.spaces;
    assert i in w'.spaces - {id} <==> i in w'.spaces;
    assert i in w.procs ==> (w.procs - {id})[i] == w.procs[i];
    assert i in w'.procs ==> (w'.procs - {id})[i] == w'.procs[i];
    assert i in w.spaces ==> (w.spaces - {id})[i] == w.spaces[i];
    assert i in w'.spaces ==> (w'.spaces - {id})[i] == w'.spaces[i];
  }

  /** What another process does with its pages leaves this one's address space as it was. */
  lemma OtherGood(m0: Mem, f0: set<nat>, m: Machine, own0: set<nat>, own1: set<nat>, tramp: nat, p: Proc, sp: Space)
    requires Good(m0, f0, tramp, p, sp) && m.Valid() && Held(m0, p, sp) !! own0
    requires Conserves(m0, f0, own0, m.mem, m.Free(), own1)
    ensures Good(m.mem, m.Free(), tramp, p, sp) && Held(m.mem, p, sp) == Held(m0, p, sp)
  {
    hide Wf, User, Tables, ProcMap, Lookup;
    OthersUntouched(m0, f0, m, own0, own1, sp, Pg(p.sz));
    SameProc(m0, m.mem, sp, Pg(p.sz), tramp, p.frame);
  }

  lemma SameProc(m0: Mem, m1: Mem, sp: Space, n: nat, tramp: nat, frame: nat)
    requires SameMap(m0, sp, m1, sp) && ProcMap(m0, sp, n, tramp, frame)
    ensures ProcMap(m1, sp, n, tramp, frame) && Range(m1, sp, 0, n) == Range(m0, sp, 0, n)
  {}

  /** The owners that do not act keep their pages. */
  lemma ActKeepsOthers(w: World, w': World, m: Machine, id: nat, i: nat)
    requires Partition(w) && AllGood(w) && OnlyEntry(w, w', id) && i != id
    requires m.Valid() && m.mem == w'.mem && m.Free() == w'.free
    requires Conserves(w.mem, w.free, HeldBy(w, id), w'.mem, w'.free, HeldBy(w', id))
    ensures SamePages(w, w', i)
    ensures i in w'.procs ==> i in w'.spaces && Good(w'.mem, w'.free, w'.tramp, w'.procs[i], w'.spaces[i])
  {
    hide Good, Held;
    SameEntry(w, w', id, i);
    assert HeldBy(w, i) !! HeldBy(w, id) && HeldBy(w, i) !! w.free && HeldBy(w, i) <= w.mem.Keys;
    if i in w.procs {
      OtherGood(w.mem, w.free, m, HeldBy(w, id), HeldBy(w', id), w.tramp, w.procs[i], w.spaces[i]);
    }
  }

  lemma ActSplits(w: World, w': World, id: nat)
    requires Partition(w) && w'.fixed == w.fixed && (forall i :: i != id ==> HeldBy(w', i) == HeldBy(w, i))
    requires Conserves(w.mem, w.free, HeldBy(w, id), w'.mem, w'.free, HeldBy(w', id))
    ensures Partition(w')
  {
    hide HeldBy;
    var pool := w.free + HeldBy(w, id);
    assert w'.free + HeldBy(w', id) == pool;
    assert pool <= w.mem.Keys && pool !! w.fixed;
    forall i, j | i != j
      ensures HeldBy(w', i) !! HeldBy(w', j)
    {
      assert HeldBy(w, i) !! HeldBy(w, j);
      assert i != id ==> HeldBy(w, i) !! pool;
      assert j != id ==> HeldBy(w, j) !! pool;
    }
    forall p | p in w'.mem
      ensures p in w'.free || p in w'.fixed || exists i :: p in HeldBy(w', i)
    {
      if p in pool {
        assert p in w'.free || p in HeldBy(w', id);
      } else if p !in w.fixed {
        var i :| p in HeldBy(w, i);
        assert i != id && p in HeldBy(w', i);
      }
    }
    forall i
      ensures HeldBy(w', i) !! w'.free && HeldBy(w', i) !! w'.fixed && HeldBy(w', i) <= w'.mem.Keys
    {
      assert i != id ==> HeldBy(w, i) !! pool;
    }
  }

  /** An operation of one process that conserves pages keeps the partition, every other process's
      address space, and the contents of all their pages and of the fixed ones. */
  lemma ActKeeps(w: World, w': World, m: Machine, id: nat)
    requires Partition(w) && AllGood(w) && OnlyEntry(w, w', id)
    requires m.Valid() && m.mem == w'.mem && m.Free() == w'.free
    requires Conserves(w.mem, w.free, HeldBy(w, id), w'.mem, w'.free, HeldBy(w', id))
    requires id in w'.procs <==> id in w'.spaces
    requires id in w'.procs ==> Good(w'.mem, w'.free, w'.tramp, w'.procs[id], w'.spaces[id])
    ensures Partition(w') && AllGood(w') && OthersKept(w, w', id)
  {
    hide Good, Held, HeldBy, Partition, Conserves, SamePages;
    forall i | i != id
      ensures SamePages(w, w', i)
      ensures i in w'.procs ==> i in w'.spaces && Good(w'.mem, w'.free, w'.tramp, w'.procs[i], w'.spaces[i])
      ensures i in w'.procs <==> i in w'.spaces
      ensures HeldBy(w', i) == HeldBy(w, i)
    {
      ActKeepsOthers(w, w', m, id, i);
      SameEntry(w, w', id, i);
      PagesHeld(w, w', i);
    }
    assert w'.procs.Keys == w'.spaces.Keys by {
      forall i
        ensures i in w'.procs <==> i in w'.spaces
      {
        if i != id { SameEntry(w, w', id, i); }
      }
    }
    ActSplits(w, w', id);
    FixedKept(w, w', id);
  }

  lemma PagesHeld(w: World, w': World, i: nat)
    requires SamePages(w, w', i)
    ensures HeldBy(w', i) == HeldBy(w, i)
  {}

  lemma FixedKept(w: World, w': World, id: nat)
    requires Partition(w) && Conserves(w.mem, w.free, HeldBy(w, id), w'.mem, w'.free, HeldBy(w', id))
    ensures w'.mem.Keys == w.mem.Keys
    ensures forall p :: p in w.fixed ==> p in w.mem && p in w'.mem && w'.mem[p] == w.mem[p]
  {}

  /** With no process left, every page that is not fixed is free. */
  lemma AllReturned(w: World)
    requires Partition(w) && w.procs == map[]
    ensures w.free == w.mem.Keys - w.fixed
  {
    assert forall i :: HeldBy(w, i) == {};
  }

  // ----- the operations -----

  /** Pages that an operation neither takes nor gives stay beside what it conserves. */
  lemma ConservesBeside(m0: Mem, f0: set<nat>, o0: set<nat>, m1: Mem, f1: set<nat>, o1: set<nat>, c: set<nat>)
    requires Conserves(m0, f0, o0, m1, f1, o1) && c !! f0 && c !! o0
    ensures Conserves(m0, f0, o0 + c, m1, f1, o1 + c) && c !! f1 && c !! o1
  {
    assert c !! f0 + o0;
    assert c !! f1 + o1;
  }

  lemma TakenPage(m0: Mem, f0: set<nat>, p: nat, d: Page)
    requires p in f0 && p in m0
    ensures Conserves(m0, f0, {}, m0[p := d], f0 - {p}, {p})
  {}

  lemma GivenPage(m0: Mem, f0: set<nat>, o: set<nat>, p: nat, d: Page)
    requires p !in f0 && p !in o && p in m0 && o !! f0
    ensures Conserves(m0, f0, o + {p}, m0[p := d], f0 + {p}, o)
  {}

  /** allocproc: the trapframe taken first, then the page table. */
  lemma NewProc(m0: Mem, f0: set<nat>, m1: Mem, f1: set<nat>, m: Machine, tramp: nat, p: Proc, sp: Space)
    requires p.sz == 0 && sp.root == p.root && ProcSpace(m, sp, 0, tramp, p.frame) && p.frame in m1
    requires Conserves(m0, f0, {}, m1, f1, {p.frame}) && Conserves(m1, f1, {}, m.mem, m.Free(), Tables(sp))
    ensures Good(m.mem, m.Free(), tramp, p, sp) && Conserves(m0, f0, {}, m.mem, m.Free(), Held(m.mem, p, sp))
  {
    hide Wf, User, Conserves, ProcMap, Tables;
    NoMemory(m, sp);
    ApartFrom(m0, f0, m1, f1, p.frame);
    ConservesBeside(m1, f1, {}, m.mem, m.Free(), Tables(sp), {p.frame});
    assert {} + {p.frame} == {p.frame};
    ConservesTwice(m0, f0, {}, m1, f1, {p.frame}, m.mem, m.Free(), Tables(sp) + {p.frame});
    ConservedKeys(m1, f1, {}, m.mem, m.Free(), Tables(sp));
  }

  lemma ApartFrom(m0: Mem, f0: set<nat>, m1: Mem, f1: set<nat>, p: nat)
    requires Conserves(m0, f0, {}, m1, f1, {p})
    ensures {p} !! f1
  {}

  /** freeproc: the trapframe goes first, while the page table still maps it. */
  lemma FrameFreed(m0: Mem, f0: set<nat>, m: Machine, tramp: nat, p: Proc, sp: Space)
    requires Good(m0, f0, tramp, p, sp) && p.frame !in f0 && Own(m0, sp, Pg(p.sz)) !! f0
    requires m.Valid() && m.mem == m0[p.frame := JunkPage(1)] && m.Free() == f0 + {p.frame}
    ensures ProcSpace(m, sp, Pg(p.sz), tramp, p.frame)
    ensures Conserves(m0, f0, Held(m0, p, sp), m.mem, m.Free(), Own(m.mem, sp, Pg(p.sz)))
  {
    var own := Own(m0, sp, Pg(p.sz));
    OutsidePage(m0, sp, p.frame, JunkPage(1));
    SameProc(m0, m.mem, sp, Pg(p.sz), tramp, p.frame);
    GivenPage(m0, f0, own, p.frame, JunkPage(1));
    SpaceMoved(m0, f0, m, sp, Pg(p.sz), p.frame);
  }

  lemma SpaceMoved(m0: Mem, f0: set<nat>, m: Machine, sp: Space, n: nat, q: nat)
    requires User(m0, f0, sp, n) && SameMap(m0, sp, m.mem, sp) && q !in Own(m0, sp, n)
    requires m0.Keys <= m.mem.Keys && m.Free() == f0 + {q}
    ensures User(m.mem, m.Free(), sp, n)
  {
    assert forall v: nat :: v < n ==> Ppn(Lookup(m0, sp, v)) in Range(m0, sp, 0, n);
  }

  /** growproc, with the trapframe beside. */
  lemma Resizing(m0: Mem, f0: set<nat>, m: Machine, tramp: nat, p: Proc, sp: Space, p': Proc, sp': Space)
    requires Good(m0, f0, tramp, p, sp) && p' == p.(sz := p'.sz) && sp'.root == p.root && p.frame !in f0
    requires ProcSpace(m, sp', Pg(p'.sz), tramp, p.frame)
    requires Conserves(m0, f0, Own(m0, sp, Pg(p.sz)), m.mem, m.Free(), Own(m.mem, sp', Pg(p'.sz)))
    ensures m.Valid() && Good(m.mem, m.Free(), tramp, p', sp')
    ensures Conserves(m0, f0, Held(m0, p, sp), m.mem, m.Free(), Held(m.mem, p', sp'))
  {
    hide Wf, User, Conserves, ProcMap, Tables, Own, Pg;
    ConservesBeside(m0, f0, Own(m0, sp, Pg(p.sz)), m.mem, m.Free(), Own(m.mem, sp', Pg(p'.sz)), {p.frame});
    ConservedKeys(m0, f0, Own(m0, sp, Pg(p.sz)), m.mem, m.Free(), Own(m.mem, sp', Pg(p'.sz)));
  }

  lemma GoodSpace(m: Machine, tramp: nat, p: Proc, sp: Space)
    requires m.Valid() && Good(m.mem, m.Free(), tramp, p, sp)
    ensures ProcSpace(m, sp, Pg(p.sz), tramp, p.frame) && sp.root == p.root && p.frame in m.mem
  {}

  lemma NotListed(m: Machine, p: nat)
    requires p !in m.Free()
    ensures p !in m.freelist
  {}

  /** Parent and new child before uvmcopy. */
  lemma ForkReady(w: World, m: Machine, id: nat, child: nat)
    requires Partition(w) && AllGood(w) && m.Valid() && m.mem == w.mem && m.Free() == w.free
    requires id in w.procs && child in w.procs && id != child && w.procs[child].sz == 0
    ensures id in w.spaces && child in w.spaces
    ensures var p, c, sp, sc := w.procs[id], w.procs[child], w.spaces[id], w.spaces[child];
      && m.Holds(sp) && m.Holds(sc) && sp.root == p.root && sc.root == c.root && Pg(p.sz) <= FRAME
      && User(m.mem, m.Free(), sp, Pg(p.sz)) && Own(m.mem, sp, Pg(p.sz)) !! Tables(sc)
      && Absent(m.mem, sc, 0, Pg(p.sz)) && ProcMap(m.mem, sc, 0, w.tramp, c.frame)
      && Pg(0) == 0 && Own(m.mem, sc, 0) == Tables(sc) && User(m.mem, m.Free(), sc, 0)
  {
    hide Wf, User, Own, Tables, Conserves;
    var sp, sc := w.spaces[id], w.spaces[child];
    assert Good(w.mem, w.free, w.tramp, w.procs[id], sp) && Good(w.mem, w.free, w.tramp, w.procs[child], sc);
    NoMemory(m, sc);
    assert HeldBy(w, id) !! HeldBy(w, child);
  }

  /** uvmcopy succeeded: the child is a process with the parent's memory. */
  lemma Copied(m0: Mem, f0: set<nat>, m: Machine, tramp: nat, frame: nat, sc: Space, sc': Space, want: seq<Want>)
    requires ProcMap(m0, sc, 0, tramp, frame) && |want| <= FRAME && m.Holds(sc')
    requires Placing(m0, f0, sc, m.mem, m.Free(), sc', 0, want)
    ensures ProcSpace(m, sc', |want|, tramp, frame)
    ensures Conserves(m0, f0, Own(m0, sc, 0), m.mem, m.Free(), Own(m.mem, sc', |want|))
  {
    hide Conserves, Own, User, ProcMap, Placed;
    PlacedProc(m0, sc, m.mem, sc', 0, want, tramp, frame);
  }

  /** uvmcopy failed: the child still has no memory. */
  lemma NotCopied(m0: Mem, f0: set<nat>, m: Machine, tramp: nat, frame: nat, sc: Space, sc': Space)
    requires ProcMap(m0, sc, 0, tramp, frame) && m.Holds(sc')
    requires Grown(m0, f0, sc, m.mem, m.Free(), sc', 0, 0) && SameMap(m0, sc, m.mem, sc')
    ensures ProcSpace(m, sc', 0, tramp, frame)
    ensures Conserves(m0, f0, Own(m0, sc, 0), m.mem, m.Free(), Own(m.mem, sc', 0))
  {}

  lemma KeptTwice(w0: World, w1: World, w2: World, id: nat)
    requires OthersKept(w0, w1, id) && OthersKept(w1, w2, id) && w1.fixed == w0.fixed
    ensures OthersKept(w0, w2, id)
  {
    forall i | i != id
      ensures SamePages(w0, w2, i)
    {
      assert SamePages(w0, w1, i) && SamePages(w1, w2, i);
    }
  }

  /** What the processes hold determines the free set. */
  lemma FreeDetermined(w: World, w': World, id: nat)
    requires Partition(w) && Partition(w') && w'.fixed == w.fixed && OthersKept(w, w', id)
             && HeldBy(w', id) == HeldBy(w, id)
    ensures w'.free == w.free
  {
    hide HeldBy;
    forall i
      ensures HeldBy(w', i) == HeldBy(w, i)
    {
      assert i != id ==> SamePages(w, w', i);
    }
    forall p | p in w.mem
      ensures p in w.free <==> p in w'.free
    {
      if p !in w.free && p !in w.fixed { var i :| p in HeldBy(w, i); assert p in HeldBy(w', i); }
      if p !in w'.free && p !in w'.fixed { var i :| p in HeldBy(w', i); assert p in HeldBy(w, i); }
    }
  }

  /** What the kernel may be asked to do, and the process it is done for. */
  datatype Op = Alloc(id: nat) | Fork(id: nat, child: nat) | Grow(id: nat, n: int) | Release(id: nat)

  function Actor(op: Op): nat { if op.Fork? then op.child else op.id }

  /** None of the first k operations is done for process i. */
  ghost predicate Idle(ops: seq<Op>, k: nat, i: nat)
    requires k <= |ops|
  {
    forall j :: 0 <= j < k ==> Actor(ops[j]) != i
  }

  lemma SelfKept(w: World, id: nat)
    requires Partition(w)
    ensures OthersKept(w, w, id)
  {}

  lemma AllKept(w: World)
    requires Partition(w)
    ensures w.fixed <= w.mem.Keys && forall i :: SamePages(w, w, i)
  {}

  lemma KeptMore(w0: World, w1: World, w2: World, ops: seq<Op>, k: nat)
    requires k < |ops| && (forall i :: Idle(ops, k, i) ==> SamePages(w0, w1, i)) && OthersKept(w1, w2, Actor(ops[k]))
    ensures forall i :: Idle(ops, k + 1, i) ==> SamePages(w0, w2, i)
    ensures w2.mem.Keys == w1.mem.Keys
    ensures forall p :: p in w1.fixed ==> p in w1.mem && p in w2.mem && w2.mem[p] == w1.mem[p]
  {
    forall i | Idle(ops, k + 1, i)
      ensures SamePages(w0, w2, i)
    {
      assert Idle(ops, k, i) && Actor(ops[k]) != i;
      assert SamePages(w0, w1, i) && SamePages(w1, w2, i);
    }
  }

  lemma PutOnly(w: World, w': World, id: nat)
    requires w'.fixed == w.fixed && w'.tramp == w.tramp && id in w'.procs && id in w'.spaces
    requires w'.procs == w.procs[id := w'.procs[id]] && w'.spaces == w.spaces[id := w'.spaces[id]]
    ensures OnlyEntry(w, w', id)
  {
    assert w'.procs - {id} == w.procs - {id};
    assert w'.spaces - {id} == w.spaces - {id};
  }

  lemma GoneOnly(w: World, w': World, id: nat)
    requires w'.fixed == w.fixed && w'.tramp == w.tramp && w'.procs == w.procs - {id} && w'.spaces == w.spaces - {id}
    ensures OnlyEntry(w, w', id) && HeldBy(w', id) == {}
  {
    assert w'.procs - {id} == w.procs - {id};
    assert w'.spaces - {id} == w.spaces - {id};
  }

  lemma NoSuch(w: World, id: nat)
    requires AllGood(w) && id !in w.procs
    ensures w.procs == w.procs - {id} && w.spaces == w.spaces - {id}
  {
    hide Good;
  }

  lemma HeldNow(w: World, id: nat)
    requires id in w.procs && id in w.spaces
    ensures HeldBy(w, id) == Held(w.mem, w.procs[id], w.spaces[id])
  {}

  /** An address space with the tables of a new process. */
  ghost function Bare(): Space { Space(0, map[TRAMP / NPTE / NPTE := 0], map[TRAMP / NPTE := 0]) }

  lemma BareCost(sp: Space, n: nat)
    requires BareTables(sp)
    ensures Cost(sp, 0, n) == Cost(Bare(), 0, n)
  {
    hide Cost;
    assert Bare().l1.Keys == {TRAMP / NPTE / NPTE} && Bare().l0.Keys == {TRAMP / NPTE};
    SameCost(Bare(), sp, 0, n);
  }

  class Kernel {
    const m: Machine
    const tramp: nat
    var procs: map<nat, Proc>
    ghost var spaces: map<nat, Space>
    ghost const fixed: set<nat>

    ghost function Now(): World
      reads this, m
    {
      World(m.mem, m.Free(), fixed, tramp, procs, spaces)
    }

    ghost predicate Valid()
      reads this, m
    {
      m.Valid() && |m.mem.Keys| < FRAME && Partition(Now()) && AllGood(Now())
    }

    /** Before the first process: whatever is not on the free list is the kernel's. */
    constructor (m: Machine, tramp: nat)
      requires m.Valid() && |m.mem.Keys| < FRAME
      ensures Valid() && this.m == m && this.tramp == tramp && procs == map[] && fixed == m.mem.Keys - m.Free()
    {
      this.m, this.tramp := m, tramp;
      procs := map[];
      spaces := map[];
      fixed := m.mem.Keys - m.Free();
      new;
      assert forall i :: HeldBy(Now(), i) == {};
    }

    /** The pages of process id, as one of the owners. */
    lemma Entry(id: nat)
      requires Valid() && id in procs
      ensures id in spaces && Good(m.mem, m.Free(), tramp, procs[id], spaces[id])
      ensures HeldBy(Now(), id) == Held(m.mem, procs[id], spaces[id]) && HeldBy(Now(), id) !! m.Free()
    {
      hide Good, Held, Machine.Free, Machine.Valid;
    }

    lemma NoEntry(id: nat)
      requires Valid() && id !in procs
      ensures id !in spaces && HeldBy(Now(), id) == {}
    {
      hide Good, Held, Partition, Machine.Free, Machine.Valid;
    }

    /** After a conserving operation of process id on the table entry and the machine. */
    lemma Acted(w: World, id: nat)
      requires Partition(w) && AllGood(w) && OnlyEntry(w, Now(), id) && m.Valid() && |w.mem.Keys| < FRAME
      requires Conserves(w.mem, w.free, HeldBy(w, id), m.mem, m.Free(), HeldBy(Now(), id))
      requires id in procs <==> id in spaces
      requires id in procs ==> Good(m.mem, m.Free(), tramp, procs[id], spaces[id])
      ensures Valid() && OthersKept(w, Now(), id) && m.mem.Keys == w.mem.Keys
    {
      hide Conserves, Partition, AllGood, OnlyEntry, Good, HeldBy;
      ActKeeps(w, Now(), m, id);
    }

    /** The entry of process id has been set. */
    lemma ActedPut(w: World, id: nat, o0: set<nat>)
      requires Partition(w) && AllGood(w) && m.Valid() && |w.mem.Keys| < FRAME && id in procs && id in spaces
      requires w.fixed == fixed && w.tramp == tramp && procs == w.procs[id := procs[id]]
      requires spaces == w.spaces[id := spaces[id]]
      requires HeldBy(w, id) == o0 && Conserves(w.mem, w.free, o0, m.mem, m.Free(), Held(m.mem, procs[id], spaces[id]))
      requires Good(m.mem, m.Free(), tramp, procs[id], spaces[id])
      ensures Valid() && OthersKept(w, Now(), id) && m.mem.Keys == w.mem.Keys
    {
      hide Conserves, Partition, AllGood, Good, Held, HeldBy, OnlyEntry, OthersKept, Machine.Free, Machine.Valid;
      PutOnly(w, Now(), id);
      HeldNow(Now(), id);
      Acted(w, id);
    }

    /** The entry of process id is gone, or was never made. */
    lemma ActedGone(w: World, id: nat, o0: set<nat>)
      requires Partition(w) && AllGood(w) && m.Valid() && |w.mem.Keys| < FRAME
      requires w.fixed == fixed && w.tramp == tramp && procs == w.procs - {id} && spaces == w.spaces - {id}
      requires HeldBy(w, id) == o0 && Conserves(w.mem, w.free, o0, m.mem, m.Free(), {})
      ensures Valid() && OthersKept(w, Now(), id) && m.mem.Keys == w.mem.Keys
    {
      hide Conserves, Partition, AllGood, Good, Held, HeldBy, OnlyEntry, OthersKept, Machine.Free, Machine.Valid;
      GoneOnly(w, Now(), id);
      Acted(w, id);
    }

    /** allocproc's memory: a trapframe and an address space without memory, if and only if there are four free
        pages; otherwise no page is lost. */
    method Allocproc(id: nat) returns (ok: bool)
      requires Valid() && id !in procs
      modifies this, m
      ensures Valid() && OthersKept(old(Now()), Now(), id)
      ensures ok ==> id in procs && procs == old(procs)[id := procs[id]] && procs[id].sz == 0
      ensures !ok ==> procs == old(procs) && m.Free() == old(m.Free())
      ensures ok <==> 4 <= |old(m.freelist)|
      ensures ok ==> id in spaces && BareTables(spaces[id]) && |m.freelist| == |old(m.freelist)| - 4
    {
      hide Conserves, Partition, AllGood, ProcSpace, Held, Good, HeldBy, OthersKept, Tables, Machine.Free, BareTables;
      ghost var m0, f0 := m.mem, m.Free();
      NoEntry(id);
      var frame := m.Kalloc();
      if frame.None? {
        StillConserved(m0, f0, m.mem, m.Free());
        Unchanged(old(Now()), id);
        return false;
      }
      ghost var m1, f1 := m.mem, m.Free();
      TakenPage(m0, f0, frame.value, JunkPage(5));
      var r;
      ghost var sp;
      r, sp := ProcPagetable(m, tramp, frame.value);
      if r.None? {
        FrameLeft(m0, f0, m1, f1, m.mem, m.Free(), frame.value);
        NotListed(m, frame.value);
        m.Kfree(frame.value);
        Unchanged(old(Now()), id);
        return false;
      }
      procs := procs[id := Proc(r.value, 0, frame.value)];
      spaces := spaces[id := sp];
      NewProc(m0, f0, m1, f1, m, tramp, procs[id], sp);
      ActedPut(old(Now()), id, {});
      ok := true;
    }

    /** An allocation that failed has conserved the free pages. */
    lemma Unchanged(w: World, id: nat)
      requires Partition(w) && AllGood(w) && m.Valid() && |w.mem.Keys| < FRAME && id !in w.procs && HeldBy(w, id) == {}
      requires w.fixed == fixed && w.tramp == tramp && procs == w.procs && spaces == w.spaces
      requires Conserves(w.mem, w.free, {}, m.mem, m.Free(), {})
      ensures Valid() && OthersKept(w, Now(), id) && m.Free() == w.free
    {
      hide Conserves, Partition, AllGood, Good, Held, HeldBy, OthersKept, Machine.Free, Machine.Valid;
      NoSuch(w, id);
      ActedGone(w, id, {});
      NothingHeld(w.mem, w.free, m.mem, m.Free());
    }

    /** freeproc's memory: exactly the pages the process held become free. */
    method Freeproc(id: nat)
      requires Valid() && id in procs
      modifies this, m
      ensures Valid() && OthersKept(old(Now()), Now(), id)
      ensures procs == old(procs) - {id} && m.Free() == old(m.Free()) + old(HeldBy(Now(), id))
    {
      hide Conserves, Partition, AllGood, ProcSpace, Good, HeldBy, OthersKept, Own, Tables, Pg, Machine.Free;
      Entry(id);
      ghost var m0, f0, sp := m.mem, m.Free(), spaces[id];
      var p := procs[id];
      GoodSpace(m, tramp, p, sp);
      NotListed(m, p.frame);
      m.Kfree(p.frame);
      ghost var m1, f1 := m.mem, m.Free();
      FrameFreed(m0, f0, m, tramp, p, sp);
      ProcFreepagetable(m, p.root, p.sz, sp, tramp, p.frame);
      procs := procs - {id};
      spaces := spaces - {id};
      ConservesTwice(m0, f0, Held(m0, p, sp), m1, f1, Own(m1, sp, Pg(p.sz)), m.mem, m.Free(), {});
      ActedGone(old(Now()), id, Held(m0, p, sp));
      GaveAll(m0, f0, Held(m0, p, sp), m.mem, m.Free());
    }

    /** growproc: the process's memory is resized, nobody else's changes.  Growing succeeds if and only if there
        are enough free pages. */
    method Growproc(id: nat, n: int) returns (ok: bool)
      requires Valid() && id in procs && -0x8000_0000 <= n < 0x8000_0000
      modifies this, m
      ensures Valid() && OthersKept(old(Now()), Now(), id)
      ensures id in procs && procs == old(procs)[id := old(procs)[id].(sz := procs[id].sz)]
      ensures n > 0 ==> procs[id].sz == old(procs)[id].sz + if ok then n else 0
      ensures n <= 0 ==> ok && procs[id].sz == old(procs)[id].sz + if old(procs)[id].sz + n >= 0 then n else 0
      ensures id in spaces && id in old(spaces)
      ensures var sz, sp := old(procs)[id].sz, old(spaces)[id];
              n > 0 ==> Pg(sz) <= Pg(sz + n) && (ok <==> Cost(sp, Pg(sz), Pg(sz + n) - Pg(sz)) <= |old(m.freelist)|)
      ensures Image(m.mem, spaces[id], Pg(procs[id].sz)) ==
              Resized(Image(old(m.mem), old(spaces)[id], Pg(old(procs)[id].sz)), Pg(procs[id].sz))
    {
      hide Cost, Conserves, Partition, AllGood, ProcSpace, Good, HeldBy, OthersKept, Own, Tables, Pg, Machine.Free,
        Image,
           Resized;
      Entry(id);
      ghost var m0, f0, sp := m.mem, m.Free(), spaces[id];
      var p := procs[id];
      GoodSpace(m, tramp, p, sp);
      var sz;
      ghost var sp1;
      ok, sz, sp1 := ProcMem.Growproc(m, p.root, p.sz, n, sp, tramp, p.frame);
      procs := procs[id := p.(sz := sz)];
      spaces := spaces[id := sp1];
      Resizing(m0, f0, m, tramp, p, sp, procs[id], sp1);
      ActedPut(old(Now()), id, Held(m0, p, sp));
    }

    /** fork's memory: a child with pages of its own and the parent's contents, if and only if there are enough
        free pages; otherwise nothing is changed. */
    method ForkMemory(id: nat, child: nat) returns (ok: bool)
      requires Valid() && id in procs && child !in procs
      modifies this, m
      ensures Valid() && OthersKept(old(Now()), Now(), child) && spaces.Keys == procs.Keys
      ensures ok ==> child in procs && procs == old(procs)[child := procs[child]] && procs[child].sz == procs[id].sz
      ensures ok ==> var n := Pg(procs[id].sz); Image(m.mem, spaces[child], n) == Image(m.mem, spaces[id], n)
      ensures !ok ==> procs == old(procs) && m.Free() == old(m.Free())
      ensures ok <==> 4 + Cost(Bare(), 0, Pg(old(procs)[id].sz)) <= |old(m.freelist)|
    {
      hide Conserves, Partition, AllGood, Good, HeldBy, OthersKept, Image, Cost, BareTables, Pg;
      ok := Allocproc(child);
      if ok {
        ghost var w1 := Now();
        BareCost(spaces[child], Pg(procs[id].sz));
        ok := CopyMemory(id, child);
        KeptTwice(old(Now()), w1, Now(), child);
        if !ok {
          ghost var w2 := Now();
          Freeproc(child);
          KeptTwice(old(Now()), w2, Now(), child);
          assert procs == old(procs);
          BackAsBefore(old(Now()), child);
        }
      }
      SameKeys();
    }

    lemma SameKeys()
      requires Valid()
      ensures spaces.Keys == procs.Keys
    {}

    lemma BackAsBefore(w: World, child: nat)
      requires Valid() && Partition(w) && AllGood(w) && w.fixed == fixed && OthersKept(w, Now(), child)
      requires procs == w.procs && child !in procs
      ensures m.Free() == w.free
    {
      FreeDetermined(w, Now(), child);
    }

    /** uvmcopy from a process to one just allocated. */
    method CopyMemory(id: nat, child: nat) returns (ok: bool)
      requires Valid() && id in procs && child in procs && id != child && procs[child].sz == 0
      modifies this, m
      ensures Valid() && OthersKept(old(Now()), Now(), child) && id in procs && child in procs
              && spaces.Keys == procs.Keys
      ensures procs == old(procs)[child := old(procs)[child].(sz := if ok then procs[id].sz else 0)]
      ensures ok ==> var n := Pg(procs[id].sz); Image(m.mem, spaces[child], n) == Image(m.mem, spaces[id], n)
      ensures child in old(spaces)
              && (ok <==> Cost(old(spaces)[child], 0, Pg(old(procs)[id].sz)) <= |old(m.freelist)|)
    {
      hide Cost, Conserves, Partition, AllGood, Good, HeldBy, OthersKept, Image, User, Own, Tables, Wf, ProcMap,
        ProcSpace,
           Placing, Grown, SameMap, Absent, Pg, Untouched;
      ForkReady(Now(), m, id, child);
      Entry(child);
      ghost var m0, f0, sp, sc := m.mem, m.Free(), spaces[id], spaces[child];
      var p, c := procs[id], procs[child];
      ghost var sc1;
      ok, sc1 := Uvmcopy(m, p.root, c.root, p.sz, sp, sc);
      spaces := spaces[child := sc1];
      if ok {
        procs := procs[child := c.(sz := p.sz)];
        Copied(m0, f0, m, tramp, c.frame, sc, sc1, Image(m0, sp, Pg(p.sz)));
        ForkedImage(m0, f0, m, sp, sc, sc1, Pg(p.sz));
      } else {
        NotCopied(m0, f0, m, tramp, c.frame, sc, sc1);
        procs := procs[child := c];
      }
      Resizing(m0, f0, m, tramp, c, sc, procs[child], sc1);
      ActedPut(old(Now()), child, Held(m0, c, sc));
      SameKeys();
    }

    /** One operation, if the processes named are there and the new one is not. */
    method Perform(op: Op)
      requires Valid() && (op.Grow? ==> -0x8000_0000 <= op.n < 0x8000_0000)
      modifies this, m
      ensures Valid() && OthersKept(old(Now()), Now(), Actor(op))
      ensures op.Alloc? ==> (op.id in procs <==> op.id in old(procs) || 4 <= |old(m.freelist)|)
      ensures op.Release? ==> procs == old(procs) - {op.id}
      ensures op.Fork? && op.id in old(procs) && op.child !in old(procs) ==>
                (op.child in procs <==> 4 + Cost(Bare(), 0, Pg(old(procs)[op.id].sz)) <= |old(m.freelist)|)
      ensures op.Grow? ==> procs.Keys == old(procs.Keys)
    {
      hide Partition, AllGood, OthersKept, Cost, Pg;
      SelfKept(Now(), Actor(op));
      match op
      case Alloc(id) => if id !in procs { var _ := Allocproc(id); }
      case Fork(id, child) => if id in procs && child !in procs { var _ := ForkMemory(id, child); }
      case Grow(id, n) => if id in procs { var _ := Growproc(id, n); }
      case Release(id) => if id in procs { Freeproc(id); }
    }

    /** Any sequence of operations: the partition holds, a process nothing is done for keeps its
        pages and their contents, so do the fixed pages, and when no process is left all other
        pages are free. */
    method Run(ops: seq<Op>)
      requires Valid() && forall k :: 0 <= k < |ops| && ops[k].Grow? ==> -0x8000_0000 <= ops[k].n < 0x8000_0000
      modifies this, m
      ensures Valid() && m.mem.Keys == old(m.mem.Keys)
      ensures forall i :: Idle(ops, |ops|, i) ==> SamePages(old(Now()), Now(), i)
      ensures forall p :: p in fixed ==> p in m.mem && m.mem[p] == old(m.mem[p])
      ensures procs == map[] ==> m.Free() == m.mem.Keys - fixed
    {
      hide Partition, AllGood, HeldBy;
      AllKept(Now());
      for k := 0 to |ops|
        invariant Valid() && m.mem.Keys == old(m.mem.Keys)
        invariant forall i :: Idle(ops, k, i) ==> SamePages(old(Now()), Now(), i)
        invariant forall p :: p in fixed ==> p in old(m.mem) && p in m.mem && m.mem[p] == old(m.mem[p])
      {
        ghost var w := Now();
        Perform(ops[k]);
        KeptMore(old(Now()), w, Now(), ops, k);
      }
      if procs == map[] { AllReturned(Now()); }
    }
  }

  lemma GaveAll(m0: Mem, f0: set<nat>, own: set<nat>, m1: Mem, f1: set<nat>)
    requires Conserves(m0, f0, own, m1, f1, {})
    ensures f1 == f0 + own
  {}

  lemma FrameLeft(m0: Mem, f0: set<nat>, m1: Mem, f1: set<nat>, m2: Mem, f2: set<nat>, p: nat)
    requires Conserves(m0, f0, {}, m1, f1, {p}) && Conserves(m1, f1, {}, m2, f2, {}) && p in m1
    ensures p in m2 && p !in f2
    ensures Conserves(m0, f0, {}, m2[p := JunkPage(1)], f2 + {p}, {})
  {}
}
