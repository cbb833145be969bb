/** A process's address space (kernel/proc.c proc_pagetable, proc_freepagetable, growproc):
    its memory from address 0, and the trampoline and trapframe pages at the top. */
module ProcMem {
  import opened Common
  import opened PageTable
  import opened Vm
  import opened UserVm
  import opened UserGrow
  import opened UserFree

  /** The page numbers of TRAMPOLINE and TRAPFRAME. */
  const TRAMP := 0x3FF_FFFF
  const FRAME := 0x3FF_FFFE

  /** Above n pages of memory only the trampoline and the trapframe are mapped. */
  ghost predicate ProcMap(mem: Mem, sp: Space, n: nat, tramp: nat, frame: nat) {
    && n <= FRAME && Lookup(mem, sp, TRAMP) == Pte(tramp, PTE_R + PTE_X + PTE_V)
        && Lookup(mem, sp, FRAME) == Pte(frame, PTE_R + PTE_W + PTE_V)
    && forall v: nat :: n <= v && v != TRAMP && v != FRAME ==> Lookup(mem, sp, v) == 0
  }

  ghost predicate ProcSpace(m: Machine, sp: Space, n: nat, tramp: nat, frame: nat)
    reads m
  {
    m.Holds(sp) && User(m.mem, m.Free(), sp, n) && ProcMap(m.mem, sp, n, tramp, frame)
  }

  // ----- proc_pagetable -----

  lemma SameEnds(m0: Mem, s0: Space, m1: Mem, s1: Space)
    requires SameMap(m0, s0, m1, s1) && Ends(m0, s0, 0)
    ensures Ends(m1, s1, 0)
  {}

  lemma EndsHas(mem: Mem, sp: Space, v: nat)
    requires Ends(mem, sp, 0)
    ensures !IsV(Lookup(mem, sp, v))
  {}

  lemma TrampFacts(m0: Mem, s0: Space, m1: Mem, s1: Space, tramp: nat)
    requires Ends(m0, s0, 0) && MapsRange(m0, s0, m1, s1, TRAMP, 1, tramp, OrV(PTE_R + PTE_X))
    ensures !IsV(Lookup(m1, s1, FRAME))
  {
    assert Lookup(m1, s1, FRAME) == Lookup(m0, s0, FRAME);
  }

  /** With the trapframe refused the trampoline can be unmapped, and then nothing is mapped. */
  lemma TrampPresent(m0: Mem, s0: Space, m1: Mem, s1: Space, m2: Mem, s2: Space, tramp: nat)
    requires Ends(m0, s0, 0) && MapsRange(m0, s0, m1, s1, TRAMP, 1, tramp, OrV(PTE_R + PTE_X))
             && SameMap(m1, s1, m2, s2)
    ensures Present(m2, s2, TRAMP, 1)
    ensures forall m3: Mem :: Clears(m2, m3, s2, TRAMP, 1) ==> Ends(m3, s2, 0)
  {
    PteFields(tramp, OrV(PTE_R + PTE_X));
    assert Lookup(m2, s2, TRAMP) == Lookup(m1, s1, TRAMP) == Pte(tramp, OrV(PTE_R + PTE_X));
    forall m3: Mem | Clears(m2, m3, s2, TRAMP, 1)
      ensures Ends(m3, s2, 0)
    {
      forall v: nat
        ensures Lookup(m3, s2, v) == 0
      {
        assert Lookup(m2, s2, v) == Lookup(m1, s1, v);
      }
    }
  }

  lemma BothMapped(m0: Mem, s0: Space, m1: Mem, s1: Space, m2: Mem, s2: Space, tramp: nat, frame: nat)
    requires Ends(m0, s0, 0) && MapsRange(m0, s0, m1, s1, TRAMP, 1, tramp, OrV(PTE_R + PTE_X))
    requires MapsRange(m1, s1, m2, s2, FRAME, 1, frame, OrV(PTE_R + PTE_W))
    ensures ProcMap(m2, s2, 0, tramp, frame)
  {
    forall v: nat
      ensures Lookup(m2, s2, v) == if v == FRAME then Pte(frame, 7) else if v == TRAMP then Pte(tramp, 11) else 0
    {
      assert Lookup(m1, s1, v) == if TRAMP <= v < TRAMP + 1 then Pte(tramp + (v - TRAMP), 11) else Lookup(m0, s0, v);
      assert Lookup(m2, s2, v) == if FRAME <= v < FRAME + 1 then Pte(frame + (v - FRAME), 7) else Lookup(m1, s1, v);
    }
  }

  lemma NoMemory(m: Machine, sp: Space)
    ensures User(m.mem, m.Free(), sp, 0) && Own(m.mem, sp, 0) == Tables(sp) && Pg(0) == 0
  {
    RangeNone(m.mem, sp);
  }

  /** uvmfree of an address space with no memory. */
  method FreeEmpty(m: Machine, root: nat, ghost sp: Space, ghost m0: Mem, ghost f0: set<nat>)
    requires m.Holds(sp) && sp.root == root && Ends(m.mem, sp, 0) && Conserves(m0, f0, {}, m.mem, m.Free(), Tables(sp))
    modifies m
    ensures m.Valid() && Conserves(m0, f0, {}, m.mem, m.Free(), {})
  {
    hide Machine.Holds, Machine.Free, Machine.Valid, User, Conserves, Ends, Tables, Own, Pg;
    NoMemory(m, sp);
    ghost var m1, f1 := m.mem, m.Free();
    Uvmfree(m, root, 0, sp);
    ConservesTwice(m0, f0, {}, m1, f1, Tables(sp), m.mem, m.Free(), {});
  }

  /** The trampoline unmapped again, its page not freed. */
  method UndoTramp(m: Machine, root: nat, ghost sp: Space, ghost m0: Mem, ghost f0: set<nat>)
    requires m.Holds(sp) && sp.root == root && Present(m.mem, sp, TRAMP, 1)
             && Conserves(m0, f0, {}, m.mem, m.Free(), Tables(sp))
    modifies m
    ensures m.Holds(sp) && Clears(old(m.mem), m.mem, sp, TRAMP, 1) && Conserves(m0, f0, {}, m.mem, m.Free(), Tables(sp))
  {
    hide Machine.Holds, Machine.Free, Machine.Valid, Conserves, Clears, Present, Exclusive, Tables, Range;
    PageStep(0, TRAMP);
    ghost var m1, f1 := m.mem, m.Free();
    var _ := Uvmunmap(m, root, TRAMP * PGSIZE, 1, false, sp, 1);
    assert Tables(sp) + {} == Tables(sp);
    ConservesTwice(m0, f0, {}, m1, f1, Tables(sp), m.mem, m.Free(), Tables(sp));
  }

  /** The mapping of the trapframe, below the trampoline; if there is no memory for it everything is undone. */
  method MapFrame(m: Machine, root: nat, frame: nat, ghost sp: Space, ghost tramp: nat, ghost m0: Mem,
                  ghost f0: set<nat>, ghost m1: Mem, ghost s1: Space)
    returns (ok: bool, ghost sp': Space)
    requires m.Holds(sp) && sp.root == root && Conserves(m0, f0, {}, m.mem, m.Free(), Tables(sp))
    requires Ends(m1, s1, 0) && MapsRange(m1, s1, m.mem, sp, TRAMP, 1, tramp, OrV(PTE_R + PTE_X))
    modifies m
    ensures m.Valid() && sp'.root == root
    ensures ok ==> ProcSpace(m, sp', 0, tramp, frame) && Conserves(m0, f0, {}, m.mem, m.Free(), Tables(sp'))
    ensures !ok ==> Conserves(m0, f0, {}, m.mem, m.Free(), {})
    ensures ok <==> NewTables(sp, FRAME, 1) <= |old(m.freelist)|
    ensures ok ==> Took(sp, sp', FRAME, 1, 0, |old(m.freelist)|, |m.freelist|)
  {
    hide Machine.Free, Conserves, Clears, Present, Tables, Range, Lookup, IsV, Ends, MapsRange, SameMap, Wf, NoDup,
         ProcMap, User, NewTables, Took;
    ghost var m2 := m.mem;
    ghost var f2 := m.Free();
    TrampFacts(m1, s1, m2, sp, tramp);
    ok, sp' := MapPage(m, root, FRAME, frame, PTE_R + PTE_W, sp);
    ConservesTwice(m0, f0, {}, m2, f2, Tables(sp), m.mem, m.Free(), Tables(sp'));
    if ok {
      BothMapped(m1, s1, m2, sp, m.mem, sp', tramp, frame);
      NoMemory(m, sp');
    } else {
      TrampPresent(m1, s1, m2, sp, m.mem, sp', tramp);
      UndoTramp(m, root, sp', m0, f0);
      FreeEmpty(m, root, sp', m0, f0);
    }
  }

  /** The tables of a new address space: those that trampoline and trapframe share. */
  ghost predicate BareTables(sp: Space) {
    sp.l1.Keys == {TRAMP / NPTE / NPTE} && sp.l0.Keys == {TRAMP / NPTE}
  }

  lemma TrampTables(s0: Space, s1: Space, a: nat, b: nat)
    requires s0.l1 == map[] && s0.l0 == map[]
    ensures NewTables(s0, TRAMP, 1) == 2
    ensures Took(s0, s1, TRAMP, 1, 0, a, b) ==> BareTables(s1) && a == b + 2
  {
    hide Keys0, Keys1, NewTables;
    OnePage(s0, TRAMP);
  }

  lemma FrameTables(s1: Space, s2: Space, a: nat, b: nat)
    requires BareTables(s1)
    ensures NewTables(s1, FRAME, 1) == 0
    ensures Took(s1, s2, FRAME, 1, 0, a, b) ==> BareTables(s2) && a == b
  {
    hide Keys0, Keys1, NewTables;
    OnePage(s1, FRAME);
  }

  /** proc_pagetable: an address space with exactly the trampoline and the trapframe mapped, if and only if there
      are three free pages; otherwise no page is lost.  The two mappings share their tables, so that once
      the trampoline is mapped the trapframe can be mapped too. */
  method ProcPagetable(m: Machine, tramp: nat, frame: nat) returns (r: Option<nat>, ghost sp: Space)
    requires m.Valid()
    modifies m
    ensures m.Valid()
    ensures r.Some? ==> sp.root == r.value && ProcSpace(m, sp, 0, tramp, frame)
    ensures r.Some? ==> Conserves(old(m.mem), old(m.Free()), {}, m.mem, m.Free(), Tables(sp))
    ensures r.None? ==> Conserves(old(m.mem), old(m.Free()), {}, m.mem, m.Free(), {})
    ensures r.Some? <==> 3 <= |old(m.freelist)|
    ensures r.Some? ==> BareTables(sp) && |m.freelist| == |old(m.freelist)| - 3
  {
    hide Machine.Free, Conserves, Clears, Present, Tables, Range, Lookup, IsV, Ends, MapsRange, SameMap, Wf, NoDup,
         ProcMap, User, NewTables, Took, BareTables;
    r, sp := Uvmcreate(m);
    if r.None? {
      StillConserved(old(m.mem), old(m.Free()), m.mem, m.Free());
      return;
    }
    var root := r.value;
    ghost var m0, s0, n0 := m.mem, sp, |m.freelist|;
    ghost var f0 := m.Free();
    EndsHas(m.mem, sp, TRAMP);
    var ok;
    ok, sp := MapPage(m, root, TRAMP, tramp, PTE_R + PTE_X, sp);
    ConservesTwice(old(m.mem), old(m.Free()), {}, m0, f0, Tables(s0), m.mem, m.Free(), Tables(sp));
    TrampTables(s0, sp, n0, |m.freelist|);
    if !ok {
      SameEnds(m0, s0, m.mem, sp);
      FreeEmpty(m, root, sp, old(m.mem), old(m.Free()));
      return None, sp;
    }
    ghost var s1, n1 := sp, |m.freelist|;
    ok, sp := MapFrame(m, root, frame, sp, tramp, old(m.mem), old(m.Free()), m0, s0);
    FrameTables(s1, sp, n1, |m.freelist|);
    if !ok {
      assert false;
    }
  }

  lemma StillConserved(m0: Mem, f0: set<nat>, m1: Mem, f1: set<nat>)
    requires m1 == m0 && f1 == f0
    ensures Conserves(m0, f0, {}, m1, f1, {})
  {}

  // ----- proc_freepagetable -----

  /** Unmapping a page above the memory, without freeing it, keeps memory and pages. */
  lemma UnmapAbove(m0: Mem, f0: set<nat>, m1: Mem, f1: set<nat>, sp: Space, n: nat, v: nat)
    requires User(m0, f0, sp, n) && Tables(sp) !! f0 && n <= v && Clears(m0, m1, sp, v, 1) && f1 == f0
    requires Conserves(m0, f0, Tables(sp), m1, f1, Tables(sp))
    ensures User(m1, f1, sp, n) && Own(m1, sp, n) == Own(m0, sp, n)
    ensures Conserves(m0, f0, Own(m0, sp, n), m1, f1, Own(m1, sp, n))
  {
    RangeDisjoint(m0, f0, sp, 0, n);
    assert forall w: nat :: w < n ==> Lookup(m1, sp, w) == Lookup(m0, sp, w);
    SameRange(m0, sp, m1, sp, 0, n);
  }

  /** uvmunmap of one page above the memory, without freeing it. */
  method UnmapFixed(m: Machine, root: nat, v: nat, ghost sp: Space, ghost n: nat)
    requires m.Holds(sp) && sp.root == root && n <= v <= TRAMP && User(m.mem, m.Free(), sp, n)
             && Present(m.mem, sp, v, 1)
    modifies m
    ensures m.Holds(sp) && User(m.mem, m.Free(), sp, n) && Clears(old(m.mem), m.mem, sp, v, 1)
    ensures Own(m.mem, sp, n) == Own(old(m.mem), sp, n)
    ensures Conserves(old(m.mem), old(m.Free()), Own(old(m.mem), sp, n), m.mem, m.Free(), Own(m.mem, sp, n))
  {
    hide Machine.Valid, Conserves, Clears, Present, Exclusive, Tables, Range, User, Own, Wf;
    PageStep(0, v);
    var _ := Uvmunmap(m, root, v * PGSIZE, 1, false, sp, 1);
    assert Tables(sp) + {} == Tables(sp);
    UnmapAbove(old(m.mem), old(m.Free()), m.mem, m.Free(), sp, n, v);
  }

  lemma FixedPresent(mem: Mem, sp: Space, n: nat, tramp: nat, frame: nat)
    requires ProcMap(mem, sp, n, tramp, frame)
    ensures Present(mem, sp, TRAMP, 1)
    ensures forall m1: Mem :: Clears(mem, m1, sp, TRAMP, 1) ==> Present(m1, sp, FRAME, 1)
    ensures forall m1: Mem, m2: Mem :: Clears(mem, m1, sp, TRAMP, 1) && Clears(m1, m2, sp, FRAME, 1) ==> Ends(m2, sp, n)
  {
    PteFields(tramp, PTE_R + PTE_X + PTE_V);
    PteFields(frame, PTE_R + PTE_W + PTE_V);
    forall m1: Mem | Clears(mem, m1, sp, TRAMP, 1)
      ensures Present(m1, sp, FRAME, 1)
    {
      assert Lookup(m1, sp, FRAME) == Lookup(mem, sp, FRAME);
    }
    forall m1: Mem, m2: Mem | Clears(mem, m1, sp, TRAMP, 1) && Clears(m1, m2, sp, FRAME, 1)
      ensures Ends(m2, sp, n)
    {
      forall v: nat | n <= v
        ensures Lookup(m2, sp, v) == 0
      {
        assert Lookup(m1, sp, v) == if TRAMP <= v < TRAMP + 1 then 0 else Lookup(mem, sp, v);
      }
    }
  }

  /** proc_freepagetable: gives back every table and every page of memory, and nothing else. */
  method ProcFreepagetable(m: Machine, root: nat, sz: nat, ghost sp: Space, ghost tramp: nat, ghost frame: nat)
    requires ProcSpace(m, sp, Pg(sz), tramp, frame) && sp.root == root
    modifies m
    ensures m.Valid() && Conserves(old(m.mem), old(m.Free()), Own(old(m.mem), sp, Pg(sz)), m.mem, m.Free(), {})
  {
    hide Machine.Holds, Machine.Valid, Machine.Free, Conserves, Clears, Present, Tables, User, Own, Pg, Ends, Lookup;
    ghost var n := Pg(sz);
    FixedPresent(m.mem, sp, n, tramp, frame);
    UnmapFixed(m, root, TRAMP, sp, n);
    ghost var m1, f1 := m.mem, m.Free();
    UnmapFixed(m, root, FRAME, sp, n);
    ConservesTwice(old(m.mem), old(m.Free()), Own(old(m.mem), sp, n), m1, f1, Own(m1, sp, n), m.mem, m.Free(),
        Own(m.mem, sp, n));
    ghost var m2, f2 := m.mem, m.Free();
    Uvmfree(m, root, sz, sp);
    ConservesTwice(old(m.mem), old(m.Free()), Own(old(m.mem), sp, n), m2, f2, Own(m2, sp, n), m.mem, m.Free(), {});
  }

  // ----- growproc -----

  /** Memory cut to k pages, or extended to k by zeroed writable pages. */
  ghost function Resized(image: seq<Want>, k: nat): seq<Want> {
    if k <= |image| then image[..k] else image + Blank(k - |image|, Perm(PTE_W))
  }

  lemma PlacedImage(m0: Mem, f0: set<nat>, s0: Space, m1: Mem, f1: set<nat>, s1: Space, n: nat, want: seq<Want>)
    requires Placing(m0, f0, s0, m1, f1, s1, n, want) && User(m0, f0, s0, n)
    ensures Image(m1, s1, n + |want|) == Image(m0, s0, n) + want
  {
    forall v: nat | v < n + |want|
      ensures PageAt(m1, s1, v) == (Image(m0, s0, n) + want)[v]
    {
      if v < n {
        assert Lookup(m1, s1, v) == Lookup(m0, s0, v);
        assert Ppn(Lookup(m0, s0, v)) in Range(m0, s0, 0, n);
      } else {
        assert IsWanted(m1, Lookup(m1, s1, n + (v - n)), want[v - n]);
      }
    }
  }

  lemma PlacedProc(m0: Mem, s0: Space, m1: Mem, s1: Space, n: nat, want: seq<Want>, tramp: nat, frame: nat)
    requires ProcMap(m0, s0, n, tramp, frame) && Placed(m0, s0, m1, s1, n, want) && n + |want| <= FRAME
    ensures ProcMap(m1, s1, n + |want|, tramp, frame)
  {
    assert forall v: nat :: n + |want| <= v ==> Lookup(m1, s1, v) == Lookup(m0, s0, v);
  }

  /** Growing succeeded: the old memory is kept, zeroed pages follow. */
  lemma GrewProc(m0: Mem, f0: set<nat>, s0: Space, m: Machine, s1: Space, n: nat, k: nat, tramp: nat, frame: nat)
    requires User(m0, f0, s0, n) && ProcMap(m0, s0, n, tramp, frame) && n <= k <= FRAME && m.Holds(s1)
    requires Placing(m0, f0, s0, m.mem, m.Free(), s1, n, Blank(k - n, Perm(PTE_W)))
    ensures ProcSpace(m, s1, k, tramp, frame) && Image(m.mem, s1, k) == Resized(Image(m0, s0, n), k)
    ensures Conserves(m0, f0, Own(m0, s0, n), m.mem, m.Free(), Own(m.mem, s1, k))
  {
    hide ProcMap, Placed, User, Conserves, Own, Image;
    var want := Blank(k - n, Perm(PTE_W));
    PlacedProc(m0, s0, m.mem, s1, n, want, tramp, frame);
    PlacedImage(m0, f0, s0, m.mem, m.Free(), s1, n, want);
  }

  /** Growing failed: only tables may have been added. */
  lemma RefusedProc(m0: Mem, f0: set<nat>, s0: Space, m: Machine, s1: Space, n: nat, tramp: nat, frame: nat)
    requires User(m0, f0, s0, n) && ProcMap(m0, s0, n, tramp, frame) && m.Holds(s1)
    requires Grown(m0, f0, s0, m.mem, m.Free(), s1, n, n) && SameMap(m0, s0, m.mem, s1)
    ensures ProcSpace(m, s1, n, tramp, frame) && Image(m.mem, s1, n) == Resized(Image(m0, s0, n), n)
    ensures Conserves(m0, f0, Own(m0, s0, n), m.mem, m.Free(), Own(m.mem, s1, n))
  {
    hide Wf, Tables, Exclusive, Present, Conserves, Lookup, Ppn, Range;
    PlacedImage(m0, f0, s0, m.mem, m.Free(), s1, n, []);
    PlacedProc(m0, s0, m.mem, s1, n, [], tramp, frame);
    assert Image(m0, s0, n) + [] == Image(m0, s0, n)[..n];
  }

  /** Shrinking keeps the pages below the cut. */
  lemma ShrankProc(m0: Mem, f0: set<nat>, sp: Space, m: Machine, n: nat, k: nat, tramp: nat, frame: nat)
    requires User(m0, f0, sp, n) && ProcMap(m0, sp, n, tramp, frame) && m.Holds(sp) && k <= n
    requires Clears(m0, m.mem, sp, k, n - k) && User(m.mem, m.Free(), sp, k)
    requires forall p :: p in Range(m0, sp, 0, k) ==> p in m0 && p in m.mem && m.mem[p] == m0[p]
    ensures ProcSpace(m, sp, k, tramp, frame) && Image(m.mem, sp, k) == Resized(Image(m0, sp, n), k)
  {
    assert forall v: nat :: v < k || n <= v ==> Lookup(m.mem, sp, v) == Lookup(m0, sp, v);
    assert forall v: nat :: k <= v < n ==> Lookup(m.mem, sp, v) == 0;
    forall v: nat | v < k
      ensures PageAt(m.mem, sp, v) == PageAt(m0, sp, v)
    {
      assert Ppn(Lookup(m0, sp, v)) in Range(m0, sp, 0, k);
    }
  }

  /** sz + n in 64-bit unsigned arithmetic. */
  function Wrap(x: int): nat { x % 0x1_0000_0000_0000_0000 }

  /** growproc: the memory is resized in place, what is kept is unchanged, what is new is zero,
      and pages are conserved.  Growing succeeds if and only if there are enough free pages for the new ones
      and their tables.  A shrink below zero wraps around and leaves the size alone. */
  method Growproc(m: Machine, root: nat, sz: nat, n: int, ghost sp: Space, ghost tramp: nat, ghost frame: nat)
    returns (ok: bool, sz': nat, ghost sp': Space)
    requires ProcSpace(m, sp, Pg(sz), tramp, frame) && sp.root == root && |m.mem.Keys| < FRAME
    requires -0x8000_0000 <= n < 0x8000_0000
    modifies m
    ensures sp'.root == root && ProcSpace(m, sp', Pg(sz'), tramp, frame)
    ensures Image(m.mem, sp', Pg(sz')) == Resized(Image(old(m.mem), sp, Pg(sz)), Pg(sz'))
    ensures Conserves(old(m.mem), old(m.Free()), Own(old(m.mem), sp, Pg(sz)), m.mem, m.Free(), Own(m.mem, sp', Pg(sz')))
    ensures n > 0 ==> sz' == if ok then sz + n else sz
    ensures n > 0 ==> Pg(sz) <= Pg(sz + n) && (ok <==> Cost(sp, Pg(sz), Pg(sz + n) - Pg(sz)) <= |old(m.freelist)|)
    ensures n <= 0 ==> ok && sz' == if sz + n >= 0 then sz + n else sz
  {
    hide Cost, Machine.Holds, Machine.Valid, Machine.Free, Conserves, Clears, User, Own, Pg, Grown, Placing, SameMap,
         Image, Range, Resized, Blank, Perm, ProcMap;
    sz', sp' := sz, sp;
    ProcRoom(m, sp, sz, tramp, frame);
    if n > 0 {
      var r;
      r, sp' := Uvmalloc(m, root, sz, sz + n, PTE_W, sp, FRAME - Pg(sz));
      if r.None? {
        RefusedProc(old(m.mem), old(m.Free()), sp, m, sp', Pg(sz), tramp, frame);
        return false, sz, sp';
      }
      sz' := r.value;
      GrewProc(old(m.mem), old(m.Free()), sp, m, sp', Pg(sz), Pg(sz'), tramp, frame);
    } else if n < 0 {
      AbsentNone(m.mem, sp, Pg(sz));
      var r := Uvmdealloc(m, root, sz, Wrap(sz + n), sp, Pg(sz));
      sz' := r.value;
      PgMonotone(sz', sz);
      ConservedKeys(old(m.mem), old(m.Free()), Own(old(m.mem), sp, Pg(sz)), m.mem, m.Free(), Own(m.mem, sp, Pg(sz')));
      ShrankProc(old(m.mem), old(m.Free()), sp, m, Pg(sz), Pg(sz'), tramp, frame);
    }
    ok := true;
  }

  /** Shrinking a process of one page by one byte more than that succeeds and changes nothing. */
  method ShrinkTooFar(m: Machine, root: nat, ghost sp: Space, ghost tramp: nat, ghost frame: nat)
    returns (ok: bool, sz': nat, ghost sp': Space)
    requires ProcSpace(m, sp, 1, tramp, frame) && sp.root == root && |m.mem.Keys| < FRAME
    modifies m
    ensures ok && sz' == PGSIZE && ProcSpace(m, sp', 1, tramp, frame)
            && Image(m.mem, sp', 1) == Image(old(m.mem), sp, 1)
  {
    hide Machine.Holds, Machine.Valid, Machine.Free, Conserves, User, Own, Pg, ProcMap, Image;
    PgOf(1);
    ok, sz', sp' := Growproc(m, root, PGSIZE, -PGSIZE - 1, sp, tramp, frame);
    ImageSize(m.mem, sp', 1);
    ImageSize(old(m.mem), sp, 1);
  }

  lemma ImageSize(mem: Mem, sp: Space, n: nat)
    ensures |Image(mem, sp, n)| == n
  {}

  lemma ConservedKeys(m0: Mem, f0: set<nat>, o0: set<nat>, m1: Mem, f1: set<nat>, o1: set<nat>)
    requires Conserves(m0, f0, o0, m1, f1, o1)
    ensures m1.Keys == m0.Keys
  {}

  lemma ProcRoom(m: Machine, sp: Space, sz: nat, tramp: nat, frame: nat)
    requires ProcSpace(m, sp, Pg(sz), tramp, frame)
    ensures m.Holds(sp) && User(m.mem, m.Free(), sp, Pg(sz)) && Pg(sz) <= FRAME && sz < 0x100_0000_0000 && XPerm(PTE_W)
    ensures Absent(m.mem, sp, Pg(sz), FRAME - Pg(sz)) && ProcMap(m.mem, sp, Pg(sz), tramp, frame)
    ensures Image(m.mem, sp, Pg(sz)) == Resized(Image(m.mem, sp, Pg(sz)), Pg(sz))
    ensures Conserves(m.mem, m.Free(), Own(m.mem, sp, Pg(sz)), m.mem, m.Free(), Own(m.mem, sp, Pg(sz)))
  {}

  // ----- fork -----

  lemma EmptyChild(mem: Mem, free: set<nat>, sp: Space)
    ensures Own(mem, sp, 0) == Tables(sp) && User(mem, free, sp, 0)
  {
    RangeNone(mem, sp);
  }

  lemma UntouchedImage(m0: Mem, m: Machine, sp: Space, n: nat)
    requires Untouched(m0, m, sp, n)
    ensures Image(m.mem, sp, n) == Image(m0, sp, n) && Own(m.mem, sp, n) == Own(m0, sp, n)
  {
    hide Wf, User, Tables, Machine.Holds;
    SameRange(m0, sp, m.mem, sp, 0, n);
    forall v: nat | v < n
      ensures PageAt(m.mem, sp, v) == PageAt(m0, sp, v)
    {
      assert Ppn(Lookup(m0, sp, v)) in Range(m0, sp, 0, n);
    }
  }

  /** After uvmcopy parent and child have the same memory in different pages. */
  lemma ForkedImage(m0: Mem, f0: set<nat>, m: Machine, parent: Space, c0: Space, c1: Space, n: nat)
    requires Wf(m0, parent) && User(m0, f0, parent, n) && Tables(parent) !! f0 && Own(m0, parent, n) !! Tables(c0)
             && m.Holds(c1)
    requires Placing(m0, f0, c0, m.mem, m.Free(), c1, 0, Image(m0, parent, n))
    ensures Image(m.mem, c1, n) == Image(m.mem, parent, n) == Image(m0, parent, n)
    ensures Own(m.mem, c1, n) !! Own(m.mem, parent, n)
  {
    hide Wf, Placed, Conserves, User, Tables, Own, Range, Image, Untouched, Machine.Free, Machine.Valid;
    var want := Image(m0, parent, n);
    EmptyChild(m0, f0, c0);
    OthersUntouched(m0, f0, m, Own(m0, c0, 0), Own(m.mem, c1, n), parent, n);
    UntouchedImage(m0, m, parent, n);
    PlacedImage(m0, f0, c0, m.mem, m.Free(), c1, 0, want);
  }

  // ----- a whole life -----

  /** One call of growproc in the life of a space made when memory was m0 and the free set f0. */
  method GrowOnce(m: Machine, root: nat, sz: nat, n: int, ghost sp: Space, ghost tramp: nat, ghost frame: nat,
                  ghost m0: Mem, ghost f0: set<nat>)
    returns (sz': nat, ghost sp': Space)
    requires ProcSpace(m, sp, Pg(sz), tramp, frame) && sp.root == root && |m.mem.Keys| < FRAME
    requires -0x8000_0000 <= n < 0x8000_0000
    requires Conserves(m0, f0, {}, m.mem, m.Free(), Own(m.mem, sp, Pg(sz)))
    modifies m
    ensures sp'.root == root && ProcSpace(m, sp', Pg(sz'), tramp, frame) && m.mem.Keys == old(m.mem.Keys)
    ensures Conserves(m0, f0, {}, m.mem, m.Free(), Own(m.mem, sp', Pg(sz')))
  {
    hide Machine.Holds, Machine.Valid, Machine.Free, Conserves, User, Own, Pg, Image, Resized, ProcMap, ProcSpace;
    ghost var m1, f1 := m.mem, m.Free();
    var ok;
    ok, sz', sp' := Growproc(m, root, sz, n, sp, tramp, frame);
    ConservedKeys(m1, f1, Own(m1, sp, Pg(sz)), m.mem, m.Free(), Own(m.mem, sp', Pg(sz')));
    ConservesTwice(m0, f0, {}, m1, f1, Own(m1, sp, Pg(sz)), m.mem, m.Free(), Own(m.mem, sp', Pg(sz')));
  }

  /** Creating an address space, resizing it any number of times, whether each call succeeds or not,
      and freeing it: the free set is the one before, and no page outside it has changed. */
  method Lifetime(m: Machine, tramp: nat, frame: nat, ns: seq<int>)
    requires m.Valid() && |m.mem.Keys| < FRAME
    requires forall i :: 0 <= i < |ns| ==> -0x8000_0000 <= ns[i] < 0x8000_0000
    modifies m
    ensures m.Valid() && m.Free() == old(m.Free()) && m.mem.Keys == old(m.mem.Keys)
    ensures forall p :: p in m.mem && p !in m.Free() ==> m.mem[p] == old(m.mem[p])
  {
    hide Machine.Holds, Machine.Valid, Machine.Free, Conserves, User, Own, Tables, Pg, ProcMap, ProcSpace;
    ghost var m0, f0 := m.mem, m.Free();
    var r;
    ghost var sp;
    r, sp := ProcPagetable(m, tramp, frame);
    if r.Some? {
      var sz := 0;
      NoMemory(m, sp);
      ConservedKeys(m0, f0, {}, m.mem, m.Free(), Tables(sp));
      for i := 0 to |ns|
        invariant sp.root == r.value && ProcSpace(m, sp, Pg(sz), tramp, frame) && m.mem.Keys == m0.Keys
        invariant Conserves(m0, f0, {}, m.mem, m.Free(), Own(m.mem, sp, Pg(sz)))
      {
        sz, sp := GrowOnce(m, r.value, sz, ns[i], sp, tramp, frame, m0, f0);
      }
      ghost var m1, f1 := m.mem, m.Free();
      ProcFreepagetable(m, r.value, sz, sp, tramp, frame);
      ConservesTwice(m0, f0, {}, m1, f1, Own(m1, sp, Pg(sz)), m.mem, m.Free(), {});
    }
    NothingHeld(m0, f0, m.mem, m.Free());
  }

  lemma NothingHeld(m0: Mem, f0: set<nat>, m1: Mem, f1: set<nat>)
    requires Conserves(m0, f0, {}, m1, f1, {})
    ensures f1 == f0 && m1.Keys == m0.Keys && forall p :: p in m1 && p !in f1 ==> m1[p] == m0[p]
  {}
}
