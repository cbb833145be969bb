/** kernel/kalloc.c and kernel/vm.c as code on physical pages.

    Each procedure says how it changes the flat map of the tree it works on, and that it
    conserves pages: the free pages and the pages of the tree together stay the same set,
    stay disjoint, and no other page changes. */
module Vm {
  import opened Common
  import opened PageTable

  /** Every byte of a page set to the same junk value. */
  function JunkPage(byte: nat): Page {
    seq(NPTE, _ => byte * 0x0101_0101_0101_0101)
  }

  /** From (mem, free, own) to (mem', free', own') pages only move between free and own. */
  ghost predicate Conserves(mem: Mem, free: set<nat>, own: set<nat>, mem': Mem, free': set<nat>, own': set<nat>) {
    && free' + own' == free + own && free' !! own' && mem'.Keys == mem.Keys
    && forall p :: p in mem && p !in free && p !in own ==> mem'[p] == mem[p]
  }

  lemma ConservesTwice(m0: Mem, f0: set<nat>, o0: set<nat>, m1: Mem, f1: set<nat>, o1: set<nat>, m2: Mem,
                       f2: set<nat>, o2: set<nat>)
    requires Conserves(m0, f0, o0, m1, f1, o1) && Conserves(m1, f1, o1, m2, f2, o2)
    ensures Conserves(m0, f0, o0, m2, f2, o2)
  {
    forall p | p in m0 && p !in f0 && p !in o0
      ensures m2[p] == m0[p]
    {
      assert p !in f0 + o0;
    }
  }

  class Machine {
    var mem: Mem
    var freelist: seq<nat>

    ghost function Free(): set<nat>
      reads this`freelist
    {
      set p | p in freelist
    }

    /** The free list has no page twice, and only pages of RAM. */
    ghost predicate Valid()
      reads this
    {
      NoDup(freelist) && forall p :: p in freelist ==> p in mem
    }

    /** Before kinit no page is free. */
    constructor (mem: Mem)
      ensures Valid() && this.mem == mem && freelist == []
    {
      this.mem, freelist := mem, [];
    }

    /** kalloc: pops the free list and fills the page with 5s. */
    method Kalloc() returns (r: Option<nat>)
      requires Valid()
      modifies this
      ensures Valid()
      ensures r.None? <==> old(freelist) == []
      ensures r.None? ==> mem == old(mem) && freelist == old(freelist)
      ensures r.Some? ==> old(freelist) == [r.value] + freelist && mem == old(mem)[r.value := JunkPage(5)]
      ensures r.Some? ==> r.value in old(Free()) && r.value in old(mem) && Free() == old(Free()) - {r.value}
    {
      if freelist == [] {
        return None;
      }
      var p := freelist[0];
      freelist := freelist[1..];
      mem := mem[p := JunkPage(5)];
      return Some(p);
    }

    /** kfree: fills the page with 1s and pushes it.  The caller's page is not free already. */
    method Kfree(p: nat)
      requires Valid() && p in mem && p !in freelist
      modifies this
      ensures Valid() && freelist == [p] + old(freelist) && mem == old(mem)[p := JunkPage(1)]
      ensures Free() == old(Free()) + {p}
    {
      mem := mem[p := JunkPage(1)];
      freelist := [p] + freelist;
    }

    /** freerange: frees consecutive pages one by one. */
    method Freerange(lo: nat, hi: nat)
      requires Valid() && forall p :: lo <= p < hi ==> p in mem && p !in freelist
      modifies this
      ensures Valid() && mem.Keys == old(mem.Keys)
      ensures forall q :: q in freelist <==> q in old(freelist) || lo <= q < hi
      ensures forall q :: q in mem ==> mem[q] == if lo <= q < hi then JunkPage(1) else old(mem)[q]
    {
      var p := lo;
      while p < hi
        invariant lo <= p && (p <= hi || lo == p) && Valid() && mem.Keys == old(mem.Keys)
        invariant forall q :: q in freelist <==> q in old(freelist) || lo <= q < p
        invariant forall q :: q in mem ==> mem[q] == if lo <= q < p then JunkPage(1) else old(mem)[q]
      {
        Kfree(p);
        p := p + 1;
      }
    }

    // ----- walk -----

    ghost predicate Holds(sp: Space)
      reads this
    {
      Valid() && Wf(mem, sp) && Tables(sp) !! Free()
    }

    /** walk's allocation of a table page, stored in entry ix of `table`. */
    method NewTable(table: nat, ix: nat) returns (r: Option<nat>)
      requires Valid() && table in mem && table !in freelist && ix < NPTE
      modifies this
      ensures Valid()
      ensures r.None? <==> old(freelist) == []
      ensures r.None? ==> mem == old(mem) && freelist == old(freelist)
      ensures r.Some? ==> r.value in old(Free()) && Free() == old(Free()) - {r.value} && r.value in old(mem)
      ensures r.Some? ==> mem == old(mem)[r.value := ZeroPage()][table := old(mem)[table][ix := Pte(r.value, PTE_V)]]
      ensures r.Some? ==> |freelist| == |old(freelist)| - 1
    {
      r := Kalloc();
      if r.Some? {
        mem := mem[r.value := ZeroPage()];
        mem := mem[table := mem[table][ix := Pte(r.value, PTE_V)]];
      }
    }

    /** One round of walk's loop: from the table at `level` to the one below, created if wanted. */
    method Descend(table: nat, level: nat, va: nat, alloc: bool, ghost sp: Space)
      returns (r: Option<nat>, ghost sp': Space)
      requires Holds(sp) && va < MAXVA && 1 <= level <= 2 && TableAt(sp, level, va / PGSIZE) == Some(table)
      modifies this
      ensures Holds(sp') && sp'.root == sp.root && SameMap(old(mem), sp, mem, sp')
      ensures Conserves(old(mem), old(Free()), Tables(sp), mem, Free(), Tables(sp'))
      ensures r == TableAt(sp', level - 1, va / PGSIZE)
      ensures r.None? ==> (!alloc || old(freelist) == []) && sp' == sp && mem == old(mem) && freelist == old(freelist)
      ensures r.None? ==> TableAt(sp, level - 1, va / PGSIZE).None?
      ensures TableAt(sp, level - 1, va / PGSIZE).Some? || !alloc ==>
                sp' == sp && mem == old(mem) && freelist == old(freelist)
      ensures r.Some? ==> sp'.l1.Keys == sp.l1.Keys + (if level == 2 then {va / PGSIZE / NPTE / NPTE} else {})
      ensures r.Some? ==> sp'.l0.Keys == sp.l0.Keys + (if level == 1 then {va / PGSIZE / NPTE} else {})
      ensures r.Some? ==> |old(freelist)| - |freelist| == if TableAt(sp, level - 1, va / PGSIZE).None? then 1 else 0
    {
      PXof(va);
      ghost var vpn := va / PGSIZE;
      var ix := PX(level, va);
      assert RootOk(mem, sp, vpn / NPTE / NPTE) && MidOk(mem, sp, vpn / NPTE);
      var pte := mem[table][ix];
      sp' := sp;
      if IsV(pte) {
        ghost var k := if level == 2 then sp.l1[vpn / NPTE / NPTE] else sp.l0[vpn / NPTE];
        PteFields(k, PTE_V);
        r := Some(Ppn(pte));
      } else if !alloc {
        r := None;
      } else {
        assert table in Tables(sp) && table !in Free();
        r, sp' := AddTable(table, ix, level, vpn, sp);
      }
    }

    /** A new table below the one at `level`. */
    method AddTable(table: nat, ix: nat, level: nat, ghost vpn: nat, ghost sp: Space)
      returns (r: Option<nat>, ghost sp': Space)
      requires Holds(sp) && 1 <= level <= 2 && TableAt(sp, level, vpn) == Some(table)
               && TableAt(sp, level - 1, vpn).None?
      requires ix == (if level == 2 then vpn / NPTE / NPTE else vpn / NPTE % NPTE) && ix < NPTE
      requires table in mem && table !in freelist
      modifies this
      ensures Holds(sp') && sp'.root == sp.root && SameMap(old(mem), sp, mem, sp')
      ensures Conserves(old(mem), old(Free()), Tables(sp), mem, Free(), Tables(sp'))
      ensures r == TableAt(sp', level - 1, vpn) && (r.None? <==> old(freelist) == [])
      ensures r.None? ==> sp' == sp && mem == old(mem) && freelist == old(freelist)
      ensures r.Some? ==> sp'.l1.Keys == sp.l1.Keys + (if level == 2 then {vpn / NPTE / NPTE} else {})
      ensures r.Some? ==> sp'.l0.Keys == sp.l0.Keys + (if level == 1 then {vpn / NPTE} else {})
      ensures r.Some? ==> |old(freelist)| - |freelist| == 1
    {
      hide Wf, Lookup;
      sp' := sp;
      r := NewTable(table, ix);
      if r.Some? {
        if level == 2 {
          AddL1Keeps(old(mem), sp, vpn / NPTE / NPTE, r.value);
          sp' := Space(sp.root, sp.l1[vpn / NPTE / NPTE := r.value], sp.l0);
        } else {
          AddL0Keeps(old(mem), sp, vpn / NPTE, r.value);
          sp' := Space(sp.root, sp.l1, sp.l0[vpn / NPTE := r.value]);
        }
      }
    }

    /** walk: the slot of the leaf entry for va.  With alloc, missing tables are created; None
        means a table is missing and, with alloc, that memory ran out.  No mapping changes. */
    method Walk(root: nat, va: nat, alloc: bool, ghost sp: Space) returns (r: Option<(nat, nat)>, ghost sp': Space)
      requires Holds(sp) && sp.root == root && va < MAXVA
      modifies this
      ensures Holds(sp') && sp'.root == root && SameMap(old(mem), sp, mem, sp')
      ensures Conserves(old(mem), old(Free()), Tables(sp), mem, Free(), Tables(sp'))
      ensures r.Some? <==> va / PGSIZE / NPTE in sp'.l0
      ensures r.Some? ==> r.value == (sp'.l0[va / PGSIZE / NPTE], va / PGSIZE % NPTE)
      ensures r.None? ==> va / PGSIZE / NPTE !in sp.l0 && (!alloc || freelist == [])
      ensures !alloc ==> sp' == sp && mem == old(mem) && freelist == old(freelist)
      ensures alloc ==> (r.Some? <==> NewTables(sp, va / PGSIZE, 1) <= |old(freelist)|)
      ensures alloc && r.Some? ==> Took(sp, sp', va / PGSIZE, 1, 0, |old(freelist)|, |freelist|)
    {
      hide Wf, Conserves, Lookup, Keys0, Keys1, NewTables, SameMap, Tables;
      SameAlways(mem, sp);
      var table, level := root, 2;
      sp' := sp;
      NothingMapped(mem, Free(), sp, 0, 0, 0);
      OnePage(sp, va / PGSIZE);
      ghost var i1, i0 := va / PGSIZE / NPTE / NPTE, va / PGSIZE / NPTE;
      while level > 0
        invariant 0 <= level <= 2 && TableAt(sp', level, va / PGSIZE) == Some(table)
        invariant Holds(sp') && sp'.root == root && SameMap(old(mem), sp, mem, sp')
        invariant Conserves(old(mem), old(Free()), Tables(sp), mem, Free(), Tables(sp'))
        invariant va / PGSIZE / NPTE in sp.l0 ==> va / PGSIZE / NPTE in sp'.l0
        invariant !alloc ==> sp' == sp && mem == old(mem) && freelist == old(freelist)
        invariant sp'.l1.Keys == sp.l1.Keys + (if level < 2 then {i1} else {})
        invariant sp'.l0.Keys == sp.l0.Keys + (if level < 1 then {i0} else {})
        invariant |old(freelist)| - |freelist| == (if level < 2 && i1 !in sp.l1 then 1 else 0)
                  + (if level < 1 && i0 !in sp.l0 then 1 else 0)
      {
        ghost var m1, f1, s1 := mem, Free(), sp';
        var next;
        NoMid(mem, sp', va / PGSIZE);
        next, sp' := Descend(table, level, va, alloc, sp');
        ConservesTwice(old(mem), old(Free()), Tables(sp), m1, f1, Tables(s1), mem, Free(), Tables(sp'));
        SameTwice(old(mem), sp, m1, s1, mem, sp');
        if next.None? {
          return None, sp';
        }
        table := next.value;
        level := level - 1;
      }
      PXof(va);
      return Some((table, PX(0, va))), sp';
    }

    // ----- mappages -----

    /** One round of mappages: walk, then install the entry.  False if memory ran out. */
    method MapOne(root: nat, va: nat, ppn: nat, perm: nat, ghost sp: Space) returns (ok: bool, ghost sp': Space)
      requires Holds(sp) && sp.root == root && va < MAXVA && perm < 1024 && !IsV(Lookup(mem, sp, va / PGSIZE))
      modifies this
      ensures Holds(sp') && sp'.root == root
      ensures Conserves(old(mem), old(Free()), Tables(sp), mem, Free(), Tables(sp'))
      ensures ok ==> MapsRange(old(mem), sp, mem, sp', va / PGSIZE, 1, ppn, OrV(perm))
      ensures !ok ==> SameMap(old(mem), sp, mem, sp') && freelist == []
      ensures ok <==> NewTables(sp, va / PGSIZE, 1) <= |old(freelist)|
      ensures ok ==> Took(sp, sp', va / PGSIZE, 1, 0, |old(freelist)|, |freelist|)
    {
      hide Wf, Lookup, Conserves, NewTables, Took;
      var r;
      r, sp' := Walk(root, va, true, sp);
      if r.None? {
        return false, sp';
      }
      var (page, ix) := r.value;
      ghost var m1 := mem;
      LeafMapped(old(mem), sp, m1, sp', va / PGSIZE, ppn, OrV(perm));
      assert !IsV(mem[page][ix]);
      mem := mem[page := mem[page][ix := Pte(ppn, OrV(perm))]];
      WriteConserves(old(mem), old(Free()), Tables(sp), m1, Free(), Tables(sp'), page, mem[page]);
      ok := true;
    }

    /** mappages: entries for consecutive pages, from va to consecutive physical pages.  On
        failure the first k are in place; no mapping outside the range ever changes. */
    method Mappages(root: nat, va: nat, size: nat, pa: nat, perm: nat, ghost sp: Space)
      returns (ok: bool, ghost sp': Space, ghost k: nat)
      requires Holds(sp) && sp.root == root && perm < 1024
      requires va % PGSIZE == 0 && size % PGSIZE == 0 && 0 < size && va + size <= MAXVA
      requires forall v: nat :: va / PGSIZE <= v < (va + size) / PGSIZE ==> !IsV(Lookup(mem, sp, v))
      modifies this
      ensures Holds(sp') && sp'.root == root
      ensures Conserves(old(mem), old(Free()), Tables(sp), mem, Free(), Tables(sp'))
      ensures MapsRange(old(mem), sp, mem, sp', va / PGSIZE, k, pa / PGSIZE, OrV(perm))
      ensures if ok then k == size / PGSIZE else k < size / PGSIZE && freelist == []
      ensures ok <==> NewTables(sp, va / PGSIZE, size / PGSIZE) <= |old(freelist)|
      ensures ok ==> Took(sp, sp', va / PGSIZE, size / PGSIZE, 0, |old(freelist)|, |freelist|)
    {
      hide Conserves, Wf, Lookup, MapsRange, SameMap, NewTables, Took;
      TookNothing(sp, va / PGSIZE, |freelist|);
      NothingMapped(mem, Free(), sp, va / PGSIZE, pa / PGSIZE, OrV(perm));
      var i := 0;
      k, sp' := 0, sp;
      var n := size / PGSIZE;
      while true
        invariant 0 <= i < n && k == i && Holds(sp') && sp'.root == root
        invariant Conserves(old(mem), old(Free()), Tables(sp), mem, Free(), Tables(sp'))
        invariant MapsRange(old(mem), sp, mem, sp', va / PGSIZE, i, pa / PGSIZE, OrV(perm))
        invariant Took(sp, sp', va / PGSIZE, i, 0, |old(freelist)|, |freelist|)
        decreases n - i
      {
        ghost var m1, f1, s1 := mem, Free(), sp';
        ghost var left := |freelist|;
        var a := va + i * PGSIZE;
        PageStep(va, i);
        Beyond(old(mem), sp, mem, sp', va / PGSIZE, i, pa / PGSIZE, OrV(perm));
        ok, sp' := MapOne(root, a, pa / PGSIZE + i, perm, sp');
        ConservesTwice(old(mem), old(Free()), Tables(sp), m1, f1, Tables(s1), mem, Free(), Tables(sp'));
        if !ok {
          MapsNone(m1, s1, mem, sp', va / PGSIZE + i, pa / PGSIZE + i, OrV(perm));
          MapsMore(old(mem), sp, m1, s1, mem, sp', va / PGSIZE, i, 0, pa / PGSIZE, OrV(perm));
          TooLittle(sp, s1, va / PGSIZE, i, n, 0, 0, |old(freelist)|, left);
          return;
        }
        MapsMore(old(mem), sp, m1, s1, mem, sp', va / PGSIZE, i, 1, pa / PGSIZE, OrV(perm));
        TookMore(sp, s1, sp', va / PGSIZE, i, 1, 0, 0, |old(freelist)|, left, |freelist|);
        i := i + 1;
        k := i;
        if i == n {
          TookEnough(sp, sp', va / PGSIZE, n, 0, |old(freelist)|, |freelist|);
          break;
        }
      }
    }
  }

  lemma SameAlways(mem: Mem, sp: Space)
    ensures SameMap(mem, sp, mem, sp)
  {}

  lemma SameTwice(m0: Mem, s0: Space, m1: Mem, s1: Space, m2: Mem, s2: Space)
    requires SameMap(m0, s0, m1, s1) && SameMap(m1, s1, m2, s2)
    ensures SameMap(m0, s0, m2, s2)
  {
    hide Lookup;
  }

  lemma NoMid(mem: Mem, sp: Space, vpn: nat)
    requires Wf(mem, sp)
    ensures vpn / NPTE / NPTE !in sp.l1 ==> vpn / NPTE !in sp.l0
  {}

  lemma NothingMapped(mem: Mem, free: set<nat>, sp: Space, v0: nat, ppn: nat, flags: nat)
    requires Tables(sp) !! free
    ensures Conserves(mem, free, Tables(sp), mem, free, Tables(sp)) && MapsRange(mem, sp, mem, sp, v0, 0, ppn, flags)
  {}

  lemma Beyond(mem: Mem, sp: Space, mem': Mem, sp': Space, v0: nat, k: nat, ppn: nat, flags: nat)
    requires MapsRange(mem, sp, mem', sp', v0, k, ppn, flags)
    ensures Lookup(mem', sp', v0 + k) == Lookup(mem, sp, v0 + k)
  {}

  lemma MapsNone(mem: Mem, sp: Space, mem': Mem, sp': Space, v0: nat, ppn: nat, flags: nat)
    requires SameMap(mem, sp, mem', sp')
    ensures MapsRange(mem, sp, mem', sp', v0, 0, ppn, flags)
  {}

  /** The flat map changes exactly on k pages from v0, which map to consecutive pages from ppn. */
  ghost predicate MapsRange(mem: Mem, sp: Space, mem': Mem, sp': Space, v0: nat, k: nat, ppn: nat, flags: nat) {
    forall v: nat :: Lookup(mem', sp', v) == if v0 <= v < v0 + k then Pte(ppn + (v - v0), flags) else Lookup(mem, sp, v)
  }

  lemma LeafMapped(m0: Mem, s0: Space, m1: Mem, s1: Space, vpn: nat, ppn: nat, flags: nat)
    requires SameMap(m0, s0, m1, s1) && Wf(m1, s1) && vpn / NPTE in s1.l0
    ensures s1.l0[vpn / NPTE] in m1 && s1.l0[vpn / NPTE] in Tables(s1)
    ensures m1[s1.l0[vpn / NPTE]][vpn % NPTE] == Lookup(m0, s0, vpn)
    ensures Wf(SetLeaf(m1, s1, vpn, Pte(ppn, flags)), s1)
    ensures MapsRange(m0, s0, SetLeaf(m1, s1, vpn, Pte(ppn, flags)), s1, vpn, 1, ppn, flags)
  {
    SetLeafKeeps(m1, s1, vpn, Pte(ppn, flags));
    assert Lookup(m1, s1, vpn) == m1[s1.l0[vpn / NPTE]][vpn % NPTE];
  }

  lemma WriteConserves(m0: Mem, f0: set<nat>, o0: set<nat>, m1: Mem, f1: set<nat>, o1: set<nat>, p: nat, d: Page)
    requires Conserves(m0, f0, o0, m1, f1, o1) && p in o1 && p in m1
    ensures Conserves(m0, f0, o0, m1[p := d], f1, o1)
  {
    assert p in f0 + o0;
  }

  lemma MapsMore(m0: Mem, s0: Space, m1: Mem, s1: Space, m2: Mem, s2: Space, v0: nat, i: nat, k: nat, ppn: nat,
                 flags: nat)
    requires MapsRange(m0, s0, m1, s1, v0, i, ppn, flags) && MapsRange(m1, s1, m2, s2, v0 + i, k, ppn + i, flags)
    ensures MapsRange(m0, s0, m2, s2, v0, i + k, ppn, flags)
  {
    forall v: nat
      ensures Lookup(m2, s2, v) == if v0 <= v < v0 + (i + k) then Pte(ppn + (v - v0), flags) else Lookup(m0, s0, v)
    {
      assert Lookup(m1, s1, v) == if v0 <= v < v0 + i then Pte(ppn + (v - v0), flags) else Lookup(m0, s0, v);
    }
  }

  /** The table that serves a page number at a level, if it exists. */
  ghost function TableAt(sp: Space, level: nat, vpn: nat): Option<nat>
    requires level <= 2
  {
    if level == 2 then Some(sp.root)
    else if level == 1 then if vpn / NPTE / NPTE in sp.l1 then Some(sp.l1[vpn / NPTE / NPTE]) else None
    else if vpn / NPTE in sp.l0 then Some(sp.l0[vpn / NPTE]) else None
  }

  ghost predicate SameMap(mem: Mem, sp: Space, mem': Mem, sp': Space) {
    forall vpn: nat :: Lookup(mem', sp', vpn) == Lookup(mem, sp, vpn)
  }
}
