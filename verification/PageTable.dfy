/** Sv39 page tables (kernel/vm.c, kernel/riscv.h) as a radix tree in physical pages, and
    the flat map from virtual page numbers to leaf entries that the tree stands for.

    A page of memory is 512 words of 64 bits.  The ghost value `Space` names the pages of
    one tree: the root, the level-1 tables by root index, and the level-0 tables by the
    upper 18 bits of the virtual page number. */
module PageTable {

  const PGSIZE := 4096
  const MAXVA := 0x40_0000_0000
  const NPTE := 512

  type Page = p: seq<nat> | |p| == NPTE witness seq(NPTE, _ => 0)
  type Mem = map<nat, Page>

  function ZeroPage(): (p: Page)
    ensures forall i :: 0 <= i < NPTE ==> p[i] == 0
  {
    seq(NPTE, _ => 0)
  }

  // ----- page-table entries -----

  const PTE_V := 1
  const PTE_R := 2
  const PTE_W := 4
  const PTE_X := 8
  const PTE_U := 16

  /** PA2PTE(pa) | flags, for a page number and ten flag bits. */
  function Pte(ppn: nat, flags: nat): nat { ppn * 1024 + flags }
  /** PTE2PA(pte) / PGSIZE. */
  function Ppn(pte: nat): nat { pte / 1024 }
  function Flags(pte: nat): nat { pte % 1024 }
  predicate IsV(pte: nat) { pte % 2 == 1 }
  /** pte & (PTE_R | PTE_W | PTE_X) */
  predicate IsLeaf(pte: nat) { pte / 2 % 8 != 0 }
  /** flags | PTE_V */
  function OrV(flags: nat): nat { if flags % 2 == 1 then flags else flags + 1 }

  lemma OrVFacts(flags: nat)
    requires flags < 1024
    ensures OrV(flags) < 1024 && OrV(flags) % 2 == 1
  {}

  lemma PteFields(ppn: nat, flags: nat)
    requires flags < 1024
    ensures Ppn(Pte(ppn, flags)) == ppn && Flags(Pte(ppn, flags)) == flags
    ensures IsV(Pte(ppn, flags)) == (flags % 2 == 1)
  {}

  /** An entry with only PTE_V set points to a table. */
  lemma TableEntry(ppn: nat)
    ensures !IsLeaf(Pte(ppn, PTE_V))
  {
    assert Pte(ppn, PTE_V) == 2 * (8 * (64 * ppn)) + 1;
  }

  // ----- indexes -----

  function PxShift(level: nat): nat
    requires level <= 2
  {
    if level == 0 then 0x1000 else if level == 1 then 0x20_0000 else 0x4000_0000
  }

  function PX(level: nat, va: nat): (i: nat)
    requires level <= 2
    ensures i < NPTE
  {
    va / PxShift(level) % NPTE
  }

  lemma PXof(va: nat)
    requires va < MAXVA
    ensures PX(2, va) == va / PGSIZE / 512 / 512 && PX(1, va) == va / PGSIZE / 512 % 512
            && PX(0, va) == va / PGSIZE % 512
  {
    assert va / 0x20_0000 == va / PGSIZE / 512;
    assert va / 0x4000_0000 == va / PGSIZE / 512 / 512;
  }

  lemma PageStep(va: nat, i: nat)
    requires va % PGSIZE == 0
    ensures (va + i * PGSIZE) / PGSIZE == va / PGSIZE + i
  {}

  // ----- trees -----

  datatype Space = Space(root: nat, l1: map<nat, nat>, l0: map<nat, nat>)

  ghost function Tables(sp: Space): set<nat> { {sp.root} + sp.l1.Values + sp.l0.Values }

  ghost predicate Injective(m: map<nat, nat>) {
    forall i, j :: i in m && j in m && m[i] == m[j] ==> i == j
  }

  /** The pages of the tree are there and distinct. */
  ghost predicate Distinct(mem: Mem, sp: Space) {
    && sp.root in mem && (forall i :: i in sp.l1 ==> sp.l1[i] in mem) && (forall k :: k in sp.l0 ==> sp.l0[k] in mem)
    && (forall i :: i in sp.l1 ==> sp.l1[i] != sp.root) && (forall k :: k in sp.l0 ==> sp.l0[k] != sp.root)
    && (forall i, k :: i in sp.l1 && k in sp.l0 ==> sp.l1[i] != sp.l0[k])
    && Injective(sp.l1) && Injective(sp.l0)
  }

  /** Entry ix of a table is valid exactly when key k is in the map, and then points to its page. */
  ghost predicate Points(mem: Mem, table: nat, ix: nat, m: map<nat, nat>, k: nat)
    requires ix < NPTE
  {
    table in mem && (IsV(mem[table][ix]) <==> k in m) && (k in m ==> mem[table][ix] == Pte(m[k], PTE_V))
  }

  ghost predicate RootOk(mem: Mem, sp: Space, i: nat) {
    i < NPTE ==> Points(mem, sp.root, i, sp.l1, i)
  }

  ghost predicate MidOk(mem: Mem, sp: Space, k: nat) {
    k / NPTE in sp.l1 ==> Points(mem, sp.l1[k / NPTE], k % NPTE, sp.l0, k)
  }

  ghost predicate Wf(mem: Mem, sp: Space) {
    && Distinct(mem, sp)
    && (forall i :: i in sp.l1 ==> i < NPTE)
    && (forall k :: k in sp.l0 ==> k / NPTE in sp.l1)
    && (forall i: nat :: RootOk(mem, sp, i))
    && (forall k: nat :: MidOk(mem, sp, k))
  }

  /** The leaf entry for a virtual page number; 0 if there is no table for it. */
  ghost function Lookup(mem: Mem, sp: Space, vpn: nat): nat {
    if vpn / NPTE in sp.l0 && sp.l0[vpn / NPTE] in mem then mem[sp.l0[vpn / NPTE]][vpn % NPTE] else 0
  }

  /** Two addresses have the same leaf slot exactly when their page numbers agree. */
  lemma SlotInjective(mem: Mem, sp: Space, va: nat, va': nat)
    requires Wf(mem, sp) && va < MAXVA && va' < MAXVA
    requires va / PGSIZE / NPTE in sp.l0 && va' / PGSIZE / NPTE in sp.l0
    ensures (sp.l0[va / PGSIZE / NPTE], PX(0, va)) == (sp.l0[va' / PGSIZE / NPTE], PX(0, va')) <==>
              va / PGSIZE == va' / PGSIZE
  {
    PXof(va);
    PXof(va');
  }

  // ----- how many tables a range of pages needs -----

  /** The level-0 tables, by key, that serve k pages from v; and the level-1 tables. */
  ghost function Keys0(v: nat, k: nat): set<nat> { set x | v <= x < v + k :: x / NPTE }
  ghost function Keys1(v: nat, k: nat): set<nat> { set x | v <= x < v + k :: x / NPTE / NPTE }

  /** The tables missing for k pages from v. */
  ghost function NewTables(sp: Space, v: nat, k: nat): nat {
    |Keys1(v, k) - sp.l1.Keys| + |Keys0(v, k) - sp.l0.Keys|
  }

  /** The tables for k pages from v have been added, and with `pages` others taken from the free pages. */
  ghost predicate Took(sp: Space, sp': Space, v: nat, k: nat, pages: nat, before: nat, after: nat) {
    && sp'.l1.Keys == sp.l1.Keys + Keys1(v, k) && sp'.l0.Keys == sp.l0.Keys + Keys0(v, k)
    && before == after + pages + NewTables(sp, v, k)
  }

  lemma TookNothing(sp: Space, v: nat, n: nat)
    ensures Took(sp, sp, v, 0, 0, n, n)
  {
    assert Keys0(v, 0) == {} && Keys1(v, 0) == {};
    assert sp.l1.Keys + {} == sp.l1.Keys && sp.l0.Keys + {} == sp.l0.Keys;
    assert {} - sp.l1.Keys == {} && {} - sp.l0.Keys == {};
  }

  lemma OneKey(v: nat)
    ensures Keys0(v, 1) == {v / NPTE} && Keys1(v, 1) == {v / NPTE / NPTE}
  {}

  lemma One(x: nat, have: set<nat>)
    ensures |{x} - have| == if x in have then 0 else 1
  {
    assert {x} - have == if x in have then {} else {x};
  }

  lemma OnePage(sp: Space, v: nat)
    ensures Keys0(v, 1) == {v / NPTE} && Keys1(v, 1) == {v / NPTE / NPTE}
    ensures NewTables(sp, v, 1) ==
            (if v / NPTE / NPTE in sp.l1 then 0 else 1) + (if v / NPTE in sp.l0 then 0 else 1)
  {
    hide Keys0, Keys1;
    OneKey(v);
    One(v / NPTE / NPTE, sp.l1.Keys);
    One(v / NPTE, sp.l0.Keys);
  }

  lemma KeysMore(v: nat, k: nat, j: nat)
    ensures Keys0(v, k + j) == Keys0(v, k) + Keys0(v + k, j) && Keys1(v, k + j) == Keys1(v, k) + Keys1(v + k, j)
  {}

  lemma Apart(a: set<nat>, b: set<nat>, have: set<nat>)
    ensures |(a + b) - have| == |a - have| + |b - (have + a)|
  {
    assert (a + b) - have == (a - have) + (b - (have + a));
  }

  /** Tables for the first k pages, then for the next j. */
  lemma TablesMore(sp: Space, s1: Space, v: nat, k: nat, j: nat)
    requires s1.l1.Keys == sp.l1.Keys + Keys1(v, k) && s1.l0.Keys == sp.l0.Keys + Keys0(v, k)
    ensures NewTables(sp, v, k + j) == NewTables(sp, v, k) + NewTables(s1, v + k, j)
  {
    hide Keys0, Keys1;
    KeysMore(v, k, j);
    Apart(Keys1(v, k), Keys1(v + k, j), sp.l1.Keys);
    Apart(Keys0(v, k), Keys0(v + k, j), sp.l0.Keys);
  }

  lemma TookMore(sp: Space, s1: Space, s2: Space, v: nat, k: nat, j: nat, p: nat, q: nat, a: nat, b: nat, c: nat)
    requires Took(sp, s1, v, k, p, a, b) && Took(s1, s2, v + k, j, q, b, c)
    ensures Took(sp, s2, v, k + j, p + q, a, c)
  {
    hide Keys0, Keys1, NewTables;
    TablesMore(sp, s1, v, k, j);
    KeysMore(v, k, j);
    assert s2.l1.Keys == sp.l1.Keys + Keys1(v, k + j) && s2.l0.Keys == sp.l0.Keys + Keys0(v, k + j);
  }

  lemma TookEnough(sp: Space, sp': Space, v: nat, k: nat, pages: nat, before: nat, after: nat)
    requires Took(sp, sp', v, k, pages, before, after)
    ensures pages + NewTables(sp, v, k) <= before
  {
    hide NewTables;
  }

  /** Any space with the tables for k pages from v added. */
  ghost function WithTables(sp: Space, v: nat, k: nat): (s1: Space)
    ensures s1.l1.Keys == sp.l1.Keys + Keys1(v, k) && s1.l0.Keys == sp.l0.Keys + Keys0(v, k)
  {
    Space(sp.root, map x | x in sp.l1.Keys + Keys1(v, k) :: 0, map x | x in sp.l0.Keys + Keys0(v, k) :: 0)
  }

  /** The first of k pages needs no more tables than all of them. */
  lemma FewerTables(sp: Space, v: nat, k: nat)
    requires k > 0
    ensures NewTables(sp, v, 1) <= NewTables(sp, v, k)
  {
    hide Keys0, Keys1, NewTables;
    TablesMore(sp, WithTables(sp, v, 1), v, 1, k - 1);
    assert 1 + (k - 1) == k;
  }

  /** With too little for the next page there is too little for all of them: `each` is 1 if pages are
      taken besides tables. */
  lemma TooLittle(sp: Space, s1: Space, v: nat, k: nat, total: nat, p: nat, each: nat, a: nat, b: nat)
    requires Took(sp, s1, v, k, p, a, b) && b < each + NewTables(s1, v + k, 1) && k < total
    ensures a < p + each + NewTables(sp, v, total)
  {
    hide Keys0, Keys1, NewTables;
    TablesMore(sp, s1, v, k, total - k);
    FewerTables(s1, v + k, total - k);
  }

  lemma NoTables(sp: Space, v: nat)
    ensures NewTables(sp, v, 0) == 0
  {
    hide NewTables;
    TookNothing(sp, v, 0);
    TookEnough(sp, sp, v, 0, 0, 0, 0);
  }

  /** k pages need no more than two tables each. */
  lemma {:induction false} TablesBound(sp: Space, v: nat, k: nat)
    ensures NewTables(sp, v, k) <= 2 * k
  {
    hide Keys0, Keys1, NewTables;
    if k == 0 {
      NoTables(sp, v);
    } else {
      var s1 := WithTables(sp, v, k - 1);
      TablesBound(sp, v, k - 1);
      TablesMore(sp, s1, v, k - 1, 1);
      OnePage(s1, v + (k - 1));
      assert k - 1 + 1 == k;
    }
  }

  // ----- adding a table, writing a leaf -----

  ghost function AddL1(mem: Mem, sp: Space, i: nat, p: nat): Mem
    requires sp.root in mem && i < NPTE
  {
    mem[p := ZeroPage()][sp.root := mem[sp.root][i := Pte(p, PTE_V)]]
  }

  ghost function AddL0(mem: Mem, sp: Space, k: nat, p: nat): Mem
    requires k / NPTE in sp.l1 && sp.l1[k / NPTE] in mem
  {
    mem[p := ZeroPage()][sp.l1[k / NPTE] := mem[sp.l1[k / NPTE]][k % NPTE := Pte(p, PTE_V)]]
  }

  lemma ValuesAdd(m: map<nat, nat>, k: nat, p: nat)
    requires k !in m
    ensures m[k := p].Values == m.Values + {p}
  {
    assert k in m[k := p];
    assert forall x :: x in m ==> m[k := p][x] == m[x];
  }

  lemma AddL1Keeps(mem: Mem, sp: Space, i: nat, p: nat)
    requires Wf(mem, sp) && i < NPTE && i !in sp.l1 && p !in Tables(sp)
    ensures var sp' := Space(sp.root, sp.l1[i := p], sp.l0);
            && Wf(AddL1(mem, sp, i, p), sp') && Tables(sp') == Tables(sp) + {p}
            && forall vpn: nat :: Lookup(AddL1(mem, sp, i, p), sp', vpn) == Lookup(mem, sp, vpn)
  {
    var sp' := Space(sp.root, sp.l1[i := p], sp.l0);
    var mem' := AddL1(mem, sp, i, p);
    PteFields(p, PTE_V);
    assert forall x :: x in sp.l1 ==> x in sp'.l1 && sp'.l1[x] == sp.l1[x] && sp.l1[x] in Tables(sp);
    assert forall k :: k in sp.l0 ==> sp.l0[k] in Tables(sp);
    ValuesAdd(sp.l1, i, p);
    assert Tables(sp') == Tables(sp) + {p};
    forall k: nat
      ensures MidOk(mem', sp', k)
    {
      assert MidOk(mem, sp, k);
    }
    forall x: nat
      ensures RootOk(mem', sp', x)
    {
      assert RootOk(mem, sp, x);
    }
    forall vpn: nat
      ensures Lookup(mem', sp', vpn) == Lookup(mem, sp, vpn)
    {
      if vpn / NPTE in sp.l0 {
        var t := sp.l0[vpn / NPTE];
        assert t in Tables(sp) && t != p && t != sp.root && mem'[t] == mem[t];
      }
    }
  }

  lemma AddL0Keeps(mem: Mem, sp: Space, k: nat, p: nat)
    requires Wf(mem, sp) && k / NPTE in sp.l1 && k !in sp.l0 && p !in Tables(sp)
    ensures var sp' := Space(sp.root, sp.l1, sp.l0[k := p]);
            && sp.l1[k / NPTE] in mem
            && Wf(AddL0(mem, sp, k, p), sp') && Tables(sp') == Tables(sp) + {p}
            && forall vpn: nat :: Lookup(AddL0(mem, sp, k, p), sp', vpn) == Lookup(mem, sp, vpn)
  {
    var sp' := Space(sp.root, sp.l1, sp.l0[k := p]);
    var mem' := AddL0(mem, sp, k, p);
    PteFields(p, PTE_V);
    assert forall x :: x in sp.l1 ==> sp.l1[x] in Tables(sp);
    assert forall x :: x in sp.l0 ==> x in sp'.l0 && sp'.l0[x] == sp.l0[x] && sp.l0[x] in Tables(sp);
    ValuesAdd(sp.l0, k, p);
    assert Tables(sp') == Tables(sp) + {p};
    forall x: nat
      ensures MidOk(mem', sp', x)
    {
      assert MidOk(mem, sp, x);
    }
    forall x: nat
      ensures RootOk(mem', sp', x)
    {
      assert RootOk(mem, sp, x);
    }
    forall vpn: nat
      ensures Lookup(mem', sp', vpn) == Lookup(mem, sp, vpn)
    {
      if vpn / NPTE == k {
        assert Lookup(mem', sp', vpn) == 0;
      } else if vpn / NPTE in sp.l0 {
        var t := sp.l0[vpn / NPTE];
        assert t in Tables(sp) && t != p && t != sp.l1[k / NPTE] && mem'[t] == mem[t];
      }
    }
  }

  ghost function SetLeaf(mem: Mem, sp: Space, vpn: nat, w: nat): Mem
    requires vpn / NPTE in sp.l0 && sp.l0[vpn / NPTE] in mem
  {
    mem[sp.l0[vpn / NPTE] := mem[sp.l0[vpn / NPTE]][vpn % NPTE := w]]
  }

  /** Writing a leaf slot changes the flat map at that page number only. */
  lemma SetLeafKeeps(mem: Mem, sp: Space, vpn: nat, w: nat)
    requires Wf(mem, sp) && vpn / NPTE in sp.l0
    ensures sp.l0[vpn / NPTE] in mem && Wf(SetLeaf(mem, sp, vpn, w), sp)
    ensures forall v: nat :: Lookup(SetLeaf(mem, sp, vpn, w), sp, v) == if v == vpn then w else Lookup(mem, sp, v)
  {
    var mem' := SetLeaf(mem, sp, vpn, w);
    forall x: nat
      ensures MidOk(mem', sp, x)
    {
      assert MidOk(mem, sp, x);
    }
    forall x: nat
      ensures RootOk(mem', sp, x)
    {
      assert RootOk(mem, sp, x);
    }
    forall v: nat
      ensures Lookup(mem', sp, v) == if v == vpn then w else Lookup(mem, sp, v)
    {
      if v / NPTE == vpn / NPTE && v % NPTE == vpn % NPTE { assert v == vpn; }
    }
  }

  /** Pages outside the tree are irrelevant to it. */
  lemma FrameSpace(mem: Mem, mem': Mem, sp: Space)
    requires Wf(mem, sp) && forall p :: p in Tables(sp) ==> p in mem' && mem'[p] == mem[p]
    ensures Wf(mem', sp) && forall vpn: nat :: Lookup(mem', sp, vpn) == Lookup(mem, sp, vpn)
  {
    assert forall x :: x in sp.l1 ==> sp.l1[x] in Tables(sp);
    assert forall x :: x in sp.l0 ==> sp.l0[x] in Tables(sp);
    forall x: nat
      ensures MidOk(mem', sp, x)
    {
      assert MidOk(mem, sp, x);
    }
    forall x: nat
      ensures RootOk(mem', sp, x)
    {
      assert RootOk(mem, sp, x);
    }
  }
}
