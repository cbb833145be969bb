/** User memory (kernel/vm.c): unmapping, growing, shrinking, copying and freeing address
    spaces, with the pages each step takes and returns. */
module UserVm {
  import opened Common
  import opened PageTable
  import opened Vm

  // ----- mapped ranges -----

  /** The physical pages mapped at n page numbers from v0. */
  ghost function Range(mem: Mem, sp: Space, v0: nat, n: nat): set<nat> {
    set v: nat | v0 <= v < v0 + n :: Ppn(Lookup(mem, sp, v))
  }

  /** n page numbers from v0 are mapped by leaf entries. */
  ghost predicate Present(mem: Mem, sp: Space, v0: nat, n: nat) {
    forall v: nat :: v0 <= v < v0 + n ==> IsV(Lookup(mem, sp, v)) && Flags(Lookup(mem, sp, v)) != PTE_V
  }

  /** n page numbers from v0 are unmapped: their entries are 0. */
  ghost predicate Absent(mem: Mem, sp: Space, v0: nat, n: nat) {
    forall v: nat :: v0 <= v < v0 + n ==> Lookup(mem, sp, v) == 0
  }

  /** The pages mapped there are RAM, distinct, and neither free nor part of the tree. */
  ghost predicate Exclusive(mem: Mem, free: set<nat>, sp: Space, v0: nat, n: nat) {
    && (forall v: nat :: v0 <= v < v0 + n ==>
          var p := Ppn(Lookup(mem, sp, v)); p in mem && p !in free && p !in Tables(sp))
    && (forall v: nat, w: nat ::
          v0 <= v < v0 + n && v0 <= w < v0 + n && Ppn(Lookup(mem, sp, v)) == Ppn(Lookup(mem, sp, w)) ==> v == w)
  }

  /** The flat map becomes 0 on n pages from v0 and is otherwise unchanged. */
  ghost predicate Clears(mem: Mem, mem': Mem, sp: Space, v0: nat, n: nat) {
    forall v: nat :: Lookup(mem', sp, v) == if v0 <= v < v0 + n then 0 else Lookup(mem, sp, v)
  }

  lemma ClearsMore(m0: Mem, m1: Mem, m2: Mem, sp: Space, v0: nat, i: nat)
    requires Clears(m0, m1, sp, v0, i) && Clears(m1, m2, sp, v0 + i, 1)
    ensures Clears(m0, m2, sp, v0, i + 1)
  {
    forall v: nat
      ensures Lookup(m2, sp, v) == if v0 <= v < v0 + (i + 1) then 0 else Lookup(m0, sp, v)
    {
      assert Lookup(m1, sp, v) == if v0 <= v < v0 + i then 0 else Lookup(m0, sp, v);
    }
  }

  lemma RangeDisjoint(mem: Mem, free: set<nat>, sp: Space, v0: nat, n: nat)
    requires Exclusive(mem, free, sp, v0, n)
    ensures Range(mem, sp, v0, n) !! free && Range(mem, sp, v0, n) !! Tables(sp)
    ensures forall p :: p in Range(mem, sp, v0, n) ==> p in mem
  {
    forall p | p in Range(mem, sp, v0, n)
      ensures p in mem && p !in free && p !in Tables(sp)
    {
      var v: nat :| v0 <= v < v0 + n && Ppn(Lookup(mem, sp, v)) == p;
    }
  }

  // ----- uvmunmap -----

  ghost function Gone(doFree: bool, s: set<nat>): set<nat> { if doFree then s else {} }

  /** One round of uvmunmap; false stands for one of its three panics. */
  method UnmapOne(m: Machine, root: nat, va: nat, doFree: bool, ghost sp: Space) returns (ok: bool)
    requires m.Holds(sp) && sp.root == root && va < MAXVA
    requires Present(m.mem, sp, va / PGSIZE, 1) && doFree ==> Exclusive(m.mem, m.Free(), sp, va / PGSIZE, 1)
    modifies m
    ensures ok <==> Present(old(m.mem), sp, va / PGSIZE, 1)
    ensures ok ==> m.Holds(sp) && Clears(old(m.mem), m.mem, sp, va / PGSIZE, 1)
    ensures ok ==> var gone := Gone(doFree, {Ppn(Lookup(old(m.mem), sp, va / PGSIZE))});
            && m.Free() == old(m.Free()) + gone
            && Conserves(old(m.mem), old(m.Free()), Tables(sp) + gone, m.mem, m.Free(), Tables(sp))
    ensures !doFree ==> m.freelist == old(m.freelist)
  {
    hide Wf, Lookup, Conserves, Clears, Present, Ppn, JunkPage, NoDup, Points, Tables, IsV;
    ghost var vpn := va / PGSIZE;
    LeafTests(m, sp, vpn);
    var r;
    ghost var sp1;
    r, sp1 := m.Walk(root, va, false, sp);
    if r.None? {
      return false;
    }
    var (page, ix) := r.value;
    var pte := m.mem[page][ix];
    if !IsV(pte) || Flags(pte) == PTE_V {
      return false;
    }
    UnmapReady(m, sp, vpn, doFree);
    if doFree {
      var p := Ppn(pte);
      assert p !in m.Free();
      m.Kfree(p);
    }
    m.mem := m.mem[page := m.mem[page][ix := 0]];
    ok := true;
  }

  /** The tests uvmunmap makes tell a mapped page from any other. */
  lemma LeafTests(m: Machine, sp: Space, vpn: nat)
    requires m.Holds(sp)
    ensures vpn / NPTE !in sp.l0 ==> !Present(m.mem, sp, vpn, 1)
    ensures vpn / NPTE in sp.l0 ==> sp.l0[vpn / NPTE] in m.mem
    ensures vpn / NPTE in sp.l0 ==> var pte := m.mem[sp.l0[vpn / NPTE]][vpn % NPTE];
              Present(m.mem, sp, vpn, 1) <==> IsV(pte) && Flags(pte) != PTE_V
  {
    assert Present(m.mem, sp, vpn, 1) <==> IsV(Lookup(m.mem, sp, vpn)) && Flags(Lookup(m.mem, sp, vpn)) != PTE_V;
  }

  /** Memory after one page has been unmapped. */
  ghost function Unmapped(mem: Mem, sp: Space, vpn: nat, doFree: bool): Mem
    requires vpn / NPTE in sp.l0 && sp.l0[vpn / NPTE] in mem
  {
    SetLeaf(if doFree then mem[Ppn(Lookup(mem, sp, vpn)) := JunkPage(1)] else mem, sp, vpn, 0)
  }

  lemma UnmapFacts(mem: Mem, free: set<nat>, sp: Space, vpn: nat, doFree: bool)
    requires Wf(mem, sp) && Tables(sp) !! free && IsV(Lookup(mem, sp, vpn))
             && (doFree ==> Exclusive(mem, free, sp, vpn, 1))
    ensures vpn / NPTE in sp.l0 && sp.l0[vpn / NPTE] in mem
    ensures Wf(Unmapped(mem, sp, vpn, doFree), sp) && Clears(mem, Unmapped(mem, sp, vpn, doFree), sp, vpn, 1)
    ensures var gone := Gone(doFree, {Ppn(Lookup(mem, sp, vpn))});
            Conserves(mem, free, Tables(sp) + gone, Unmapped(mem, sp, vpn, doFree), free + gone, Tables(sp))
  {
    var p := Ppn(Lookup(mem, sp, vpn));
    var m1 := if doFree then mem[p := JunkPage(1)] else mem;
    if doFree { OutsidePage(mem, sp, p, JunkPage(1)); }
    ClearedLeaf(mem, m1, sp, vpn);
  }

  lemma UnmapReady(m: Machine, sp: Space, vpn: nat, doFree: bool)
    requires m.Holds(sp) && Present(m.mem, sp, vpn, 1) && (doFree ==> Exclusive(m.mem, m.Free(), sp, vpn, 1))
    ensures vpn / NPTE in sp.l0 && sp.l0[vpn / NPTE] in m.mem && sp.l0[vpn / NPTE] in Tables(sp)
    ensures m.mem[sp.l0[vpn / NPTE]][vpn % NPTE] == Lookup(m.mem, sp, vpn)
    ensures Wf(Unmapped(m.mem, sp, vpn, doFree), sp) && Clears(m.mem, Unmapped(m.mem, sp, vpn, doFree), sp, vpn, 1)
    ensures var gone := Gone(doFree, {Ppn(Lookup(m.mem, sp, vpn))});
            && Conserves(m.mem, m.Free(), Tables(sp) + gone, Unmapped(m.mem, sp, vpn, doFree), m.Free() + gone,
                Tables(sp))
            && gone !! m.Free() && gone !! Tables(sp) && forall p :: p in gone ==> p in m.mem
  {
    assert IsV(Lookup(m.mem, sp, vpn));
    UnmapFacts(m.mem, m.Free(), sp, vpn, doFree);
  }

  lemma OutsidePage(mem: Mem, sp: Space, p: nat, d: Page)
    requires Wf(mem, sp) && p !in Tables(sp)
    ensures Wf(mem[p := d], sp) && SameMap(mem, sp, mem[p := d], sp)
  {
    assert forall x :: x in sp.l1 ==> sp.l1[x] in Tables(sp);
    assert forall x :: x in sp.l0 ==> sp.l0[x] in Tables(sp);
    FrameSpace(mem, mem[p := d], sp);
  }

  lemma ClearedLeaf(m0: Mem, m1: Mem, sp: Space, vpn: nat)
    requires SameMap(m0, sp, m1, sp) && Wf(m1, sp) && vpn / NPTE in sp.l0
    ensures sp.l0[vpn / NPTE] in m1 && Wf(SetLeaf(m1, sp, vpn, 0), sp)
    ensures Clears(m0, SetLeaf(m1, sp, vpn, 0), sp, vpn, 1)
  {
    SetLeafKeeps(m1, sp, vpn, 0);
  }

  /** Where uvmunmap stands after i of n pages. */
  ghost predicate UnmapInv(m0: Mem, f0: set<nat>, mem: Mem, free: set<nat>, sp: Space, v0: nat, n: nat, i: nat,
                           doFree: bool) {
    && i <= n && Clears(m0, mem, sp, v0, i)
    && Present(mem, sp, v0 + i, n - i) && (doFree ==> Exclusive(mem, free, sp, v0 + i, n - i))
    && Conserves(m0, f0, Tables(sp) + Gone(doFree, Range(m0, sp, v0, n)),
                 mem, free, Tables(sp) + Gone(doFree, Range(mem, sp, v0 + i, n - i)))
  }

  lemma UnmapStart(m: Machine, sp: Space, v0: nat, n: nat, doFree: bool)
    requires m.Holds(sp) && Present(m.mem, sp, v0, n) && (doFree ==> Exclusive(m.mem, m.Free(), sp, v0, n))
    ensures UnmapInv(m.mem, m.Free(), m.mem, m.Free(), sp, v0, n, 0, doFree)
  {
    if doFree { RangeDisjoint(m.mem, m.Free(), sp, v0, n); }
  }

  lemma UnmapStep(m0: Mem, f0: set<nat>, m1: Mem, f1: set<nat>, m2: Mem, f2: set<nat>, sp: Space, v0: nat, n: nat,
                  i: nat, doFree: bool)
    requires UnmapInv(m0, f0, m1, f1, sp, v0, n, i, doFree) && i < n && Clears(m1, m2, sp, v0 + i, 1)
    requires Present(m2, sp, v0 + i + 1, n - i - 1) && (doFree ==> Exclusive(m2, f2, sp, v0 + i + 1, n - i - 1))
    requires Conserves(m1, f1, Tables(sp) + Gone(doFree, Range(m1, sp, v0 + i, n - i)),
                       m2, f2, Tables(sp) + Gone(doFree, Range(m2, sp, v0 + i + 1, n - i - 1)))
    ensures UnmapInv(m0, f0, m2, f2, sp, v0, n, i + 1, doFree)
  {
    ClearsMore(m0, m1, m2, sp, v0, i);
    hide Conserves, Range, Tables, Gone, Clears, Exclusive, Present;
    ConservesTwice(m0, f0, Tables(sp) + Gone(doFree, Range(m0, sp, v0, n)),
                   m1, f1, Tables(sp) + Gone(doFree, Range(m1, sp, v0 + i, n - i)),
                   m2, f2, Tables(sp) + Gone(doFree, Range(m2, sp, v0 + i + 1, n - i - 1)));
  }

  lemma PresentPrefix(mem: Mem, sp: Space, v0: nat, k: nat, n: nat)
    requires k <= n && Present(mem, sp, v0, k) && (k < n ==> !Present(mem, sp, v0 + k, 1))
    ensures Present(mem, sp, v0, n) <==> k == n
  {}

  lemma StillUnmapped(m0: Mem, m1: Mem, sp: Space, v0: nat, k: nat)
    requires Clears(m0, m1, sp, v0, k) && !Present(m0, sp, v0 + k, 1)
    ensures !Present(m1, sp, v0 + k, 1)
  {
    assert Lookup(m1, sp, v0 + k) == Lookup(m0, sp, v0 + k);
  }

  /** uvmunmap of a range whose first `mapped` pages, and no more, are mapped by leaves.  It panics
      (returns false) exactly when some page of the range is not.  Otherwise the range becomes
      unmapped and, with doFree, exactly its pages become free. */
  method Uvmunmap(m: Machine, root: nat, va: nat, npages: nat, doFree: bool, ghost sp: Space, ghost mapped: nat)
    returns (ok: bool)
    requires m.Holds(sp) && sp.root == root && va % PGSIZE == 0
    requires mapped <= npages && (mapped > 0 ==> va + mapped * PGSIZE <= MAXVA)
             && Present(m.mem, sp, va / PGSIZE, mapped)
    requires mapped < npages ==> !Present(m.mem, sp, va / PGSIZE + mapped, 1)
    requires doFree ==> Exclusive(m.mem, m.Free(), sp, va / PGSIZE, mapped)
    modifies m
    ensures ok <==> Present(old(m.mem), sp, va / PGSIZE, npages)
    ensures ok <==> mapped == npages
    ensures ok ==> m.Holds(sp) && Clears(old(m.mem), m.mem, sp, va / PGSIZE, npages)
    ensures ok ==>
              Conserves(old(m.mem), old(m.Free()),
                  Tables(sp) + Gone(doFree, Range(old(m.mem), sp, va / PGSIZE, npages)),
                             m.mem, m.Free(), Tables(sp))
    ensures !doFree ==> m.freelist == old(m.freelist)
  {
    hide Machine.Holds, Machine.Free, Wf, Conserves, Present, Exclusive, Range, Clears, Gone, Tables;
    ghost var v0 := va / PGSIZE;
    PresentPrefix(m.mem, sp, v0, mapped, npages);
    UnmapStart(m, sp, v0, mapped, doFree);
    var i := 0;
    while i < npages
      invariant 0 <= i <= mapped && m.Holds(sp)
      invariant UnmapInv(old(m.mem), old(m.Free()), m.mem, m.Free(), sp, v0, mapped, i, doFree)
      invariant !doFree ==> m.freelist == old(m.freelist)
    {
      ok := UnmapRound(m, root, va, i, doFree, sp, mapped, old(m.mem), old(m.Free()));
      if !ok {
        return;
      }
      i := i + 1;
    }
    UnmapDone(old(m.mem), old(m.Free()), m.mem, m.Free(), sp, v0, mapped, doFree);
    ok := true;
  }

  lemma UnmapDone(m0: Mem, f0: set<nat>, mem: Mem, free: set<nat>, sp: Space, v0: nat, n: nat, doFree: bool)
    requires UnmapInv(m0, f0, mem, free, sp, v0, n, n, doFree)
    ensures Clears(m0, mem, sp, v0, n)
    ensures Conserves(m0, f0, Tables(sp) + Gone(doFree, Range(m0, sp, v0, n)), mem, free, Tables(sp))
  {
    assert Gone(doFree, Range(mem, sp, v0 + n, 0)) == {};
    assert Tables(sp) + {} == Tables(sp);
  }

  method UnmapRound(m: Machine, root: nat, va: nat, i: nat, doFree: bool, ghost sp: Space, ghost mapped: nat,
                    ghost m0: Mem, ghost f0: set<nat>)
    returns (ok: bool)
    requires m.Holds(sp) && sp.root == root && va % PGSIZE == 0 && i <= mapped
             && (mapped > 0 ==> va + mapped * PGSIZE <= MAXVA)
    requires UnmapInv(m0, f0, m.mem, m.Free(), sp, va / PGSIZE, mapped, i, doFree)
    requires i == mapped ==> !Present(m0, sp, va / PGSIZE + i, 1)
    modifies m
    ensures ok <==> i < mapped
    ensures ok ==> m.Holds(sp) && UnmapInv(m0, f0, m.mem, m.Free(), sp, va / PGSIZE, mapped, i + 1, doFree)
    ensures !doFree ==> m.freelist == old(m.freelist)
  {
    hide Machine.Free, Wf, Lookup, Conserves, Present, Exclusive, Range, Clears, Gone, Tables, NoDup;
    var a := va + i * PGSIZE;
    PageStep(va, i);
    FirstLeft(m0, f0, m.mem, m.Free(), sp, va / PGSIZE, mapped, i, doFree);
    if a >= MAXVA {
      return false;
    }
    ok := UnmapNext(m, root, a, doFree, sp, mapped - i);
    if ok {
      UnmapStep(m0, f0, old(m.mem), old(m.Free()), m.mem, m.Free(), sp, va / PGSIZE, mapped, i, doFree);
    }
  }

  /** The next page is mapped exactly when mapped pages are left. */
  lemma FirstLeft(m0: Mem, f0: set<nat>, mem: Mem, free: set<nat>, sp: Space, v0: nat, n: nat, i: nat, doFree: bool)
    requires UnmapInv(m0, f0, mem, free, sp, v0, n, i, doFree) && (i == n ==> !Present(m0, sp, v0 + i, 1))
    ensures Present(mem, sp, v0 + i, 1) <==> i < n
  {
    if i == n { StillUnmapped(m0, mem, sp, v0, n); }
  }

  /** UnmapOne with the n mapped pages that are left in view. */
  method UnmapNext(m: Machine, root: nat, va: nat, doFree: bool, ghost sp: Space, ghost n: nat) returns (ok: bool)
    requires m.Holds(sp) && sp.root == root && va < MAXVA && (Present(m.mem, sp, va / PGSIZE, 1) <==> n > 0)
    requires Present(m.mem, sp, va / PGSIZE, n) && (doFree ==> Exclusive(m.mem, m.Free(), sp, va / PGSIZE, n))
    modifies m
    ensures ok <==> n > 0
    ensures ok ==> m.Holds(sp) && Clears(old(m.mem), m.mem, sp, va / PGSIZE, 1)
    ensures ok ==> Present(m.mem, sp, va / PGSIZE + 1, n - 1)
    ensures ok && doFree ==> Exclusive(m.mem, m.Free(), sp, va / PGSIZE + 1, n - 1)
    ensures ok ==>
              Conserves(old(m.mem), old(m.Free()), Tables(sp) + Gone(doFree, Range(old(m.mem), sp, va / PGSIZE, n)),
                             m.mem, m.Free(), Tables(sp) + Gone(doFree, Range(m.mem, sp, va / PGSIZE + 1, n - 1)))
    ensures !doFree ==> m.freelist == old(m.freelist)
  {
    hide Wf, Tables, NoDup, Conserves, Clears, Present, Exclusive, Range, Gone, Lookup, Ppn, Machine.Holds,
         Machine.Free;
    ghost var v := va / PGSIZE;
    if doFree { NextExclusive(m.mem, m.Free(), sp, v, n); }
    ok := UnmapOne(m, root, va, doFree, sp);
    if ok {
      RestFacts(old(m.mem), old(m.Free()), m.mem, m.Free(), sp, v, n, doFree);
    }
  }

  lemma NextExclusive(mem: Mem, free: set<nat>, sp: Space, v: nat, n: nat)
    requires Exclusive(mem, free, sp, v, n)
    ensures n > 0 ==> Exclusive(mem, free, sp, v, 1)
  {}

  /** One page of a range unmapped: what is left of the range. */
  lemma RestFacts(m0: Mem, f0: set<nat>, m1: Mem, f1: set<nat>, sp: Space, v: nat, n: nat, doFree: bool)
    requires n > 0 && Present(m0, sp, v, n) && (doFree ==> Exclusive(m0, f0, sp, v, n)) && Clears(m0, m1, sp, v, 1)
    requires var gone := Gone(doFree, {Ppn(Lookup(m0, sp, v))});
             f1 == f0 + gone && Conserves(m0, f0, Tables(sp) + gone, m1, f1, Tables(sp))
    ensures Present(m1, sp, v + 1, n - 1) && (doFree ==> Exclusive(m1, f1, sp, v + 1, n - 1))
    ensures Conserves(m0, f0, Tables(sp) + Gone(doFree, Range(m0, sp, v, n)), m1, f1,
            Tables(sp) + Gone(doFree, Range(m1, sp, v + 1, n - 1)))
  {
    assert forall w: nat :: v < w ==> Lookup(m1, sp, w) == Lookup(m0, sp, w);
    if doFree {
      RangeDisjoint(m0, f0, sp, v, n);
      SameRange(m0, sp, m1, sp, v + 1, n - 1);
      var p := Ppn(Lookup(m0, sp, v));
      var rest := Range(m0, sp, v + 1, n - 1);
      assert Tables(sp) + {p} + rest == Tables(sp) + Range(m0, sp, v, n);
    }
  }

  // ----- a process's memory -----

  /** Pages 0 .. n-1 of the address space are mapped, each to a page of its own. */
  ghost predicate User(mem: Mem, free: set<nat>, sp: Space, n: nat) {
    Present(mem, sp, 0, n) && Exclusive(mem, free, sp, 0, n)
  }

  /** All pages held by an address space of n pages: its tables and its memory. */
  ghost function Own(mem: Mem, sp: Space, n: nat): set<nat> { Tables(sp) + Range(mem, sp, 0, n) }

  /** PGROUNDUP(sz) / PGSIZE. */
  function Pg(sz: nat): nat { (sz + PGSIZE - 1) / PGSIZE }

  lemma PgOf(n: nat)
    ensures Pg(n * PGSIZE) == n
  {}

  lemma PgRound(n: nat, sz: nat)
    ensures n * PGSIZE < sz <==> n < Pg(sz)
  {}

  lemma PgMonotone(a: nat, b: nat)
    requires a <= b
    ensures Pg(a) <= Pg(b)
  {}

  lemma CutReady(m: Machine, sp: Space, n: nat, k: nat)
    requires m.Holds(sp) && User(m.mem, m.Free(), sp, n + k)
    ensures Present(m.mem, sp, n, k) && Exclusive(m.mem, m.Free(), sp, n, k) && Tables(sp) !! m.Free()
    ensures k == 0 ==> Clears(m.mem, m.mem, sp, n, 0) && User(m.mem, m.Free(), sp, n)
    ensures k == 0 ==> Conserves(m.mem, m.Free(), Own(m.mem, sp, n), m.mem, m.Free(), Own(m.mem, sp, n))
    ensures forall p :: p in Range(m.mem, sp, 0, n) ==> p in m.mem
  {
    RangesDisjoint(m.mem, m.Free(), sp, n, k);
    RangeDisjoint(m.mem, m.Free(), sp, 0, n);
  }

  lemma RangeConcat(mem: Mem, sp: Space, n: nat, k: nat)
    ensures Range(mem, sp, 0, n + k) == Range(mem, sp, 0, n) + Range(mem, sp, n, k)
  {
    forall p | p in Range(mem, sp, 0, n + k)
      ensures p in Range(mem, sp, 0, n) + Range(mem, sp, n, k)
    {
      var v: nat :| 0 <= v < n + k && Ppn(Lookup(mem, sp, v)) == p;
    }
    forall p | p in Range(mem, sp, 0, n) + Range(mem, sp, n, k)
      ensures p in Range(mem, sp, 0, n + k)
    {
      if p in Range(mem, sp, 0, n) {
        var v: nat :| 0 <= v < n && Ppn(Lookup(mem, sp, v)) == p;
        assert 0 <= v < n + k;
      } else {
        var v: nat :| n <= v < n + k && Ppn(Lookup(mem, sp, v)) == p;
        assert 0 <= v < n + k;
      }
    }
  }

  lemma RangesDisjoint(mem: Mem, free: set<nat>, sp: Space, n: nat, k: nat)
    requires Exclusive(mem, free, sp, 0, n + k)
    ensures Range(mem, sp, 0, n) !! Range(mem, sp, n, k)
    ensures Exclusive(mem, free, sp, 0, n) && Exclusive(mem, free, sp, n, k)
  {
    forall p | p in Range(mem, sp, 0, n)
      ensures p !in Range(mem, sp, n, k)
    {
      var v: nat :| 0 <= v < n && Ppn(Lookup(mem, sp, v)) == p;
    }
  }

  lemma RangeOne(mem: Mem, sp: Space, v: nat)
    ensures Range(mem, sp, v, 1) == {Ppn(Lookup(mem, sp, v))}
  {
    assert Ppn(Lookup(mem, sp, v)) in Range(mem, sp, v, 1);
  }

  lemma SameRange(m0: Mem, s0: Space, m1: Mem, s1: Space, v0: nat, n: nat)
    requires forall v: nat :: v0 <= v < v0 + n ==> Lookup(m1, s1, v) == Lookup(m0, s0, v)
    ensures Range(m1, s1, v0, n) == Range(m0, s0, v0, n)
  {}

  /** Shrinking keeps the pages below the cut and gives back those above it. */
  lemma CutFacts(m0: Mem, f0: set<nat>, m1: Mem, f1: set<nat>, sp: Space, n: nat, k: nat)
    requires User(m0, f0, sp, n + k) && Tables(sp) !! f0
    requires Clears(m0, m1, sp, n, k)
    requires Conserves(m0, f0, Tables(sp) + Range(m0, sp, n, k), m1, f1, Tables(sp))
    ensures User(m1, f1, sp, n) && Range(m1, sp, 0, n) == Range(m0, sp, 0, n)
    ensures Conserves(m0, f0, Own(m0, sp, n + k), m1, f1, Own(m1, sp, n))
    ensures forall p :: p in Range(m0, sp, 0, n) ==> p in m0 && p in m1 && m1[p] == m0[p]
  {
    RangeConcat(m0, sp, n, k);
    RangesDisjoint(m0, f0, sp, n, k);
    RangeDisjoint(m0, f0, sp, 0, n);
    SameRange(m0, sp, m1, sp, 0, n);
    var keep := Range(m0, sp, 0, n);
    assert Tables(sp) + Range(m0, sp, n, k) + keep == Own(m0, sp, n + k);
    assert forall v: nat :: 0 <= v < n ==> Lookup(m1, sp, v) == Lookup(m0, sp, v) && Ppn(Lookup(m0, sp, v)) in keep;
  }

  lemma AbsentNone(mem: Mem, sp: Space, v: nat)
    ensures Absent(mem, sp, v, 0)
  {}

  /** Pages left when a memory of n pages is cut from oldsz to sz. */
  ghost function Left(n: nat, oldsz: nat, sz: nat): nat { if Pg(sz) < Pg(oldsz) then Pg(sz) else n }

  /** uvmdealloc, of a memory of n pages where oldsz may be more than that: panics (returns None) exactly
      when a page between the two sizes is missing, else unmaps and frees the pages above the new size. */
  method Uvmdealloc(m: Machine, root: nat, oldsz: nat, newsz: nat, ghost sp: Space, ghost n: nat)
    returns (sz: Option<nat>)
    requires m.Holds(sp) && sp.root == root && Pg(oldsz) < 0x8000_0000
    requires n <= Pg(oldsz) && n * PGSIZE <= MAXVA && User(m.mem, m.Free(), sp, n)
             && Absent(m.mem, sp, n, Pg(oldsz) - n)
    modifies m
    ensures sz.None? <==> Pg(newsz) < Pg(oldsz) && !Present(old(m.mem), sp, Pg(newsz), Pg(oldsz) - Pg(newsz))
    ensures sz.None? <==> Pg(newsz) < Pg(oldsz) && n < Pg(oldsz)
    ensures sz.Some? ==> sz.value == (if newsz >= oldsz then oldsz else newsz) && m.Holds(sp)
    ensures sz.Some? ==> var k := Left(n, oldsz, sz.value);
              && k <= n && Clears(old(m.mem), m.mem, sp, k, n - k) && User(m.mem, m.Free(), sp, k)
              && Conserves(old(m.mem), old(m.Free()), Own(old(m.mem), sp, n), m.mem, m.Free(), Own(m.mem, sp, k))
              && forall p :: p in Range(old(m.mem), sp, 0, k) ==>
                    p in old(m.mem) && p in m.mem && m.mem[p] == old(m.mem)[p]
  {
    hide Machine.Holds, Machine.Free, Machine.Valid, User, Present, Absent, Exclusive, Clears, Conserves, Own,
         Range, Pg, Tables;
    if newsz >= oldsz {
      PgMonotone(oldsz, newsz);
      CutReady(m, sp, n, 0);
      return Some(oldsz);
    }
    var from, to := Pg(newsz), Pg(oldsz);
    PgMonotone(newsz, oldsz);
    if from < to {
      ghost var mapped := if from <= n then n - from else 0;
      DeallocReady(m, sp, from, to, n, mapped);
      PageStep(0, from);
      var ok := Uvmunmap(m, root, from * PGSIZE, to - from, true, sp, mapped);
      if !ok {
        return None;
      }
      CutFacts(old(m.mem), old(m.Free()), m.mem, m.Free(), sp, from, n - from);
    } else {
      CutReady(m, sp, n, 0);
    }
    return Some(newsz);
  }

  /** Of the pages from `from` to `to`, those below n are mapped and the next one is not. */
  lemma DeallocReady(m: Machine, sp: Space, from: nat, to: nat, n: nat, mapped: nat)
    requires m.Holds(sp) && from < to && n <= to && mapped == if from <= n then n - from else 0
    requires User(m.mem, m.Free(), sp, n) && Absent(m.mem, sp, n, to - n)
    ensures Present(m.mem, sp, from, mapped) && Exclusive(m.mem, m.Free(), sp, from, mapped) && mapped <= to - from
    ensures mapped < to - from ==> !Present(m.mem, sp, from + mapped, 1)
    ensures Tables(sp) !! m.Free()
  {
    if from <= n { CutReady(m, sp, from, n - from); }
    if mapped < to - from {
      assert Lookup(m.mem, sp, from + mapped) == 0;
      assert !IsV(0);
    }
  }

  // ----- uvmalloc -----

  /** From n to k pages of memory: pages conserved, the kept pages' contents too. */
  ghost predicate Grown(m0: Mem, f0: set<nat>, s0: Space, m1: Mem, f1: set<nat>, s1: Space, n: nat, k: nat) {
    && User(m1, f1, s1, k)
    && Conserves(m0, f0, Own(m0, s0, n), m1, f1, Own(m1, s1, k))
    && forall q :: q in Range(m0, s0, 0, n) ==> q in m0 && q in m1 && m1[q] == m0[q]
  }

  lemma ExclusiveAdd(m0: Mem, f0: set<nat>, s0: Space, m2: Mem, f2: set<nat>, s2: Space, n: nat, p: nat)
    requires Exclusive(m0, f0, s0, 0, n) && (forall v: nat :: v < n ==> Lookup(m2, s2, v) == Lookup(m0, s0, v))
    requires Ppn(Lookup(m2, s2, n)) == p && p !in Range(m0, s0, 0, n)
    requires forall q :: q in Range(m0, s0, 0, n) + {p} ==> q in m2 && q !in f2 && q !in Tables(s2)
    ensures Exclusive(m2, f2, s2, 0, n + 1)
  {
    assert forall v: nat :: v < n ==> Ppn(Lookup(m0, s0, v)) in Range(m0, s0, 0, n);
  }

  /** A page taken from the free list and mapped as page n of the address space. */
  lemma GrownFacts(m0: Mem, f0: set<nat>, s0: Space, m1: Mem, m2: Mem, f2: set<nat>, s2: Space, n: nat, p: nat,
                   d: Page, flags: nat)
    requires User(m0, f0, s0, n) && Tables(s0) !! f0 && p in f0 && p in m0 && m1 == m0[p := d]
    requires Conserves(m1, f0 - {p}, Tables(s0), m2, f2, Tables(s2))
    requires SameMap(m0, s0, m1, s0) && MapsRange(m1, s0, m2, s2, n, 1, p, flags)
    requires flags < 1024 && flags % 2 == 1 && flags != PTE_V
    ensures Grown(m0, f0, s0, m2, f2, s2, n, n + 1) && p in m2 && m2[p] == d
    ensures MapsRange(m0, s0, m2, s2, n, 1, p, flags)
  {
    hide Lookup, Tables;
    var kept := Range(m0, s0, 0, n);
    RangeDisjoint(m0, f0, s0, 0, n);
    assert forall v: nat :: v < n ==> Lookup(m2, s2, v) == Lookup(m0, s0, v);
    SameRange(m0, s0, m2, s2, 0, n);
    RangeConcat(m2, s2, n, 1);
    PteFields(p, flags);
    assert Lookup(m2, s2, n) == Pte(p, flags);
    RangeOne(m2, s2, n);
    assert Tables(s2) + kept + {p} == Own(m2, s2, n + 1);
    ExclusiveAdd(m0, f0, s0, m2, f2, s2, n, p);
    assert forall q :: q in kept ==> q in m0 && q in m2 && m2[q] == m0[q];
    hide Conserves, Exclusive, Range;
  }

  /** The failure path of one round: the page goes back, only tables may have been added. */
  lemma GivenBackFacts(m0: Mem, f0: set<nat>, s0: Space, m1: Mem, m2: Mem, f2: set<nat>, s2: Space, n: nat, p: nat,
                       d: Page, e: Page)
    requires User(m0, f0, s0, n) && Tables(s0) !! f0 && p in f0 && p in m0 && m1 == m0[p := d]
    requires Conserves(m1, f0 - {p}, Tables(s0), m2, f2, Tables(s2)) && Wf(m2, s2)
    requires SameMap(m0, s0, m1, s0) && SameMap(m1, s0, m2, s2)
    ensures p in m2 && p !in f2 && p !in Tables(s2) && Wf(m2[p := e], s2) && SameMap(m0, s0, m2[p := e], s2)
    ensures Grown(m0, f0, s0, m2[p := e], f2 + {p}, s2, n, n) && Tables(s2) !! f2 + {p}
  {
    hide Lookup, Wf, Tables, Ppn;
    var kept := Range(m0, s0, 0, n);
    RangeDisjoint(m0, f0, s0, 0, n);
    assert p !in f2 + Tables(s2);
    OutsidePage(m2, s2, p, e);
    var m3 := m2[p := e];
    assert forall v: nat :: Lookup(m3, s2, v) == Lookup(m0, s0, v);
    assert forall v: nat :: v < n ==> Ppn(Lookup(m0, s0, v)) in kept;
    SameRange(m0, s0, m3, s2, 0, n);
    assert f2 + {p} + Own(m3, s2, n) == f0 + Own(m0, s0, n);
  }

  /** mappages for a single page. */
  method MapPage(m: Machine, root: nat, n: nat, p: nat, perm: nat, ghost sp: Space) returns (ok: bool, ghost sp': Space)
    requires m.Holds(sp) && sp.root == root && (n + 1) * PGSIZE <= MAXVA && perm < 1024 && !IsV(Lookup(m.mem, sp, n))
    modifies m
    ensures m.Holds(sp') && sp'.root == root
    ensures Conserves(old(m.mem), old(m.Free()), Tables(sp), m.mem, m.Free(), Tables(sp'))
    ensures ok ==> MapsRange(old(m.mem), sp, m.mem, sp', n, 1, p, OrV(perm))
    ensures !ok ==> SameMap(old(m.mem), sp, m.mem, sp') && m.freelist == []
    ensures ok <==> NewTables(sp, n, 1) <= |old(m.freelist)|
    ensures ok ==> Took(sp, sp', n, 1, 0, |old(m.freelist)|, |m.freelist|)
  {
    hide Wf, Lookup, Conserves, Tables, NewTables, Took;
    PageStep(0, n);
    PageStep(0, n + 1);
    PageStep(0, p);
    ghost var k;
    ok, sp', k := m.Mappages(root, n * PGSIZE, PGSIZE, p * PGSIZE, perm, sp);
  }

  /** kalloc, then fill the page. */
  method TakePage(m: Machine, d: Page, ghost sp: Space) returns (r: Option<nat>)
    requires m.Holds(sp)
    modifies m
    ensures m.Holds(sp) && SameMap(old(m.mem), sp, m.mem, sp)
    ensures r.None? ==> m.mem == old(m.mem) && m.freelist == old(m.freelist) && m.freelist == []
    ensures r.Some? ==> r.value in old(m.Free()) && r.value in old(m.mem) && m.Free() == old(m.Free()) - {r.value}
    ensures r.Some? ==> m.mem == old(m.mem)[r.value := d] && |m.freelist| == |old(m.freelist)| - 1
  {
    r := m.Kalloc();
    if r.Some? {
      OutsidePage(old(m.mem), sp, r.value, d);
      m.mem := m.mem[r.value := d];
      assert m.mem == old(m.mem)[r.value := d];
    }
  }

  /** One round of uvmalloc or uvmcopy: a page filled with d, mapped as page n; if memory runs
      out the page is given back and no mapping has changed. */
  method GrowOne(m: Machine, root: nat, n: nat, d: Page, perm: nat, ghost sp: Space)
    returns (r: Option<nat>, ghost sp': Space)
    requires m.Holds(sp) && sp.root == root && (n + 1) * PGSIZE <= MAXVA && User(m.mem, m.Free(), sp, n)
    requires !IsV(Lookup(m.mem, sp, n)) && perm < 1024 && OrV(perm) != PTE_V
    modifies m
    ensures m.Holds(sp') && sp'.root == root
    ensures r.Some? ==> Grown(old(m.mem), old(m.Free()), sp, m.mem, m.Free(), sp', n, n + 1)
    ensures r.None? ==>
              Grown(old(m.mem), old(m.Free()), sp, m.mem, m.Free(), sp', n, n) && SameMap(old(m.mem), sp, m.mem, sp')
    ensures r.Some? ==>
              r.value in m.mem && m.mem[r.value] == d && MapsRange(old(m.mem), sp, m.mem, sp', n, 1, r.value, OrV(perm))
    ensures r.Some? <==> 1 + NewTables(sp, n, 1) <= |old(m.freelist)|
    ensures r.Some? ==> Took(sp, sp', n, 1, 1, |old(m.freelist)|, |m.freelist|)
  {
    OrVFacts(perm);
    hide NewTables, OrV, IsV, Ppn, Wf, Lookup, Conserves, Tables, Present, Exclusive, Range, Grown, User, Own, SameMap,
         MapsRange, NoDup;
    r := TakePage(m, d, sp);
    sp' := sp;
    if r.None? {
      return;
    }
    var p := r.value;
    ghost var m1 := m.mem;
    var ok;
    ok, sp' := MapPage(m, root, n, p, perm, sp);
    if ok {
      GrownFacts(old(m.mem), old(m.Free()), sp, m1, m.mem, m.Free(), sp', n, p, d, OrV(perm));
    } else {
      GivenBackFacts(old(m.mem), old(m.Free()), sp, m1, m.mem, m.Free(), sp', n, p, d, JunkPage(1));
      m.Kfree(p);
      r := None;
    }
  }

}
