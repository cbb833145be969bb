/** Making an empty address space and giving one back (kernel/vm.c uvmcreate, freewalk, uvmfree). */
module UserFree {
  import opened Common
  import opened PageTable
  import opened Vm
  import opened UserVm
  import opened UserGrow

  // ----- freewalk -----

  /** The table with the given key at a level: keys are the upper bits of the page number. */
  ghost function Table(sp: Space, level: nat, key: nat): Option<nat>
    requires level <= 2
  {
    if level == 2 then if key == 0 then Some(sp.root) else None
    else if level == 1 then if key in sp.l1 then Some(sp.l1[key]) else None
    else if key in sp.l0 then Some(sp.l0[key]) else None
  }

  /** The tables at and below that one. */
  ghost function Below(sp: Space, level: nat, key: nat): set<nat>
    requires level <= 2
  {
    if level == 2 then if key == 0 then Tables(sp) else {}
    else if level == 1 then (if key in sp.l1 then {sp.l1[key]} else {}) + set k | k in sp.l0
        && k / NPTE == key :: sp.l0[k]
    else if key in sp.l0 then {sp.l0[key]} else {}
  }

  /** The tables below the first i entries of that one. */
  ghost function Kids(sp: Space, level: nat, key: nat, i: nat): set<nat>
    requires level <= 2
  {
    if level == 0 || i == 0 then {} else Kids(sp, level, key, i - 1) + Below(sp, level - 1, key * NPTE + (i - 1))
  }

  lemma KidsMember(sp: Space, level: nat, key: nat, i: nat, j: nat)
    requires 1 <= level <= 2 && j < i
    ensures Below(sp, level - 1, key * NPTE + j) <= Kids(sp, level, key, i)
  {}

  lemma {:induction false} KidsFrom(sp: Space, level: nat, key: nat, i: nat, p: nat) returns (j: nat)
    requires 1 <= level <= 2 && p in Kids(sp, level, key, i)
    ensures j < i && p in Below(sp, level - 1, key * NPTE + j)
  {
    if p in Below(sp, level - 1, key * NPTE + (i - 1)) {
      j := i - 1;
    } else {
      j := KidsFrom(sp, level, key, i - 1, p);
    }
  }

  lemma BelowIsKid(mem: Mem, sp: Space, level: nat, key: nat, p: nat)
    requires Wf(mem, sp) && level <= 2 && Table(sp, level, key).Some?
    requires p in Below(sp, level, key) && p != Table(sp, level, key).value
    ensures p in Kids(sp, level, key, NPTE)
  {
    hide Kids;
    if level == 2 {
      if p in sp.l1.Values {
        var i :| i in sp.l1 && sp.l1[i] == p;
        KidsMember(sp, level, key, NPTE, i);
      } else {
        var k :| k in sp.l0 && sp.l0[k] == p;
        KidsMember(sp, level, key, NPTE, k / NPTE);
      }
    } else if level == 1 {
      var k :| k in sp.l0 && k / NPTE == key && sp.l0[k] == p;
      KidsMember(sp, level, key, NPTE, k % NPTE);
    }
  }

  /** A subtree is its table and the subtrees below its 512 entries. */
  lemma BelowSplit(mem: Mem, sp: Space, level: nat, key: nat)
    requires Wf(mem, sp) && level <= 2 && Table(sp, level, key).Some?
    ensures Below(sp, level, key) == {Table(sp, level, key).value} + Kids(sp, level, key, NPTE)
  {
    forall p | p in Below(sp, level, key) && p != Table(sp, level, key).value
      ensures p in Kids(sp, level, key, NPTE)
    {
      BelowIsKid(mem, sp, level, key, p);
    }
    forall p | p in Kids(sp, level, key, NPTE)
      ensures p in Below(sp, level, key)
    {
      var j := KidsFrom(sp, level, key, NPTE, p);
    }
  }

  /** Subtrees with different keys share no page, and none contains a table above. */
  lemma BelowDisjoint(mem: Mem, sp: Space, level: nat, a: nat, b: nat)
    requires Wf(mem, sp) && level <= 1 && a != b
    ensures Below(sp, level, a) !! Below(sp, level, b)
  {}

  lemma KidsDisjoint(mem: Mem, sp: Space, level: nat, key: nat, i: nat)
    requires Wf(mem, sp) && 1 <= level <= 2 && i < NPTE && Table(sp, level, key).Some?
    ensures Kids(sp, level, key, i) !! Below(sp, level - 1, key * NPTE + i)
    ensures Table(sp, level, key).value !in Below(sp, level - 1, key * NPTE + i)
    ensures Below(sp, level - 1, key * NPTE + i) <= Below(sp, level, key)
  {
    forall p | p in Kids(sp, level, key, i)
      ensures p !in Below(sp, level - 1, key * NPTE + i)
    {
      var j := KidsFrom(sp, level, key, i, p);
      BelowDisjoint(mem, sp, level - 1, key * NPTE + j, key * NPTE + i);
    }
    BelowSplit(mem, sp, level, key);
    KidsMember(sp, level, key, NPTE, i);
  }

  /** No leaf entry is valid. */
  ghost predicate NoLeaf(mem: Mem, sp: Space) { forall v: nat :: !IsV(Lookup(mem, sp, v)) }

  lemma EntryPoints(mem: Mem, sp: Space, level: nat, key: nat, i: nat)
    requires Wf(mem, sp) && 1 <= level <= 2 && i < NPTE && Table(sp, level, key).Some?
    ensures Table(sp, level, key).value in mem
    ensures var pte := mem[Table(sp, level, key).value][i];
            match Table(sp, level - 1, key * NPTE + i)
            case Some(child) => pte == Pte(child, PTE_V)
            case None => !IsV(pte) && Below(sp, level - 1, key * NPTE + i) == {}
  {
    if level == 2 {
      assert RootOk(mem, sp, i);
    } else {
      assert MidOk(mem, sp, key * NPTE + i);
    }
  }

  lemma LeafInvalid(mem: Mem, sp: Space, key: nat, i: nat)
    requires Wf(mem, sp) && NoLeaf(mem, sp) && key in sp.l0 && i < NPTE
    ensures sp.l0[key] in mem && !IsV(mem[sp.l0[key]][i])
  {
    assert !IsV(Lookup(mem, sp, key * NPTE + i));
  }

  /** What entry i of a table says about the table below it. */
  lemma EntryFacts(mem: Mem, sp: Space, level: nat, key: nat, i: nat)
    requires Wf(mem, sp) && NoLeaf(mem, sp) && level <= 2 && i < NPTE && Table(sp, level, key).Some?
    ensures Table(sp, level, key).value in mem
    ensures var pte := mem[Table(sp, level, key).value][i];
            if level > 0 && Table(sp, level - 1, key * NPTE + i).Some?
            then IsV(pte) && !IsLeaf(pte) && Ppn(pte) == Table(sp, level - 1, key * NPTE + i).value
            else !IsV(pte) && Kids(sp, level, key, i + 1) == Kids(sp, level, key, i)
  {
    hide Wf, NoLeaf, IsV, IsLeaf, Ppn, Pte, Below;
    if level == 0 {
      LeafInvalid(mem, sp, key, i);
    } else {
      EntryPoints(mem, sp, level, key, i);
      if Table(sp, level - 1, key * NPTE + i).Some? {
        PteFields(Table(sp, level - 1, key * NPTE + i).value, PTE_V);
        TableEntry(Table(sp, level - 1, key * NPTE + i).value);
      }
    }
  }

  /** A subtree as it was in m0, none of it free. */
  ghost predicate Intact(m0: Mem, mem: Mem, free: set<nat>, s: set<nat>) {
    forall p :: p in s ==> p in m0 && p in mem && mem[p] == m0[p] && p !in free
  }

  /** From (mem, free) the pages of s, and only they, have been freed. */
  ghost predicate Freed(mem: Mem, free: set<nat>, mem': Mem, free': set<nat>, s: set<nat>) {
    free' == free + s && mem'.Keys == mem.Keys && forall p :: p in mem && p !in s ==> mem'[p] == mem[p]
  }

  /** Where freewalk stands after i entries of a table, from (e0, f0) on. */
  ghost predicate Walked(m0: Mem, e0: Mem, f0: set<nat>, mem: Mem, free: set<nat>, sp: Space, level: nat, key: nat,
                         table: nat, i: nat)
    requires level <= 2
  {
    && free == f0 + Kids(sp, level, key, i) && mem.Keys == e0.Keys && table in mem && table in m0 && table !in free
    && (forall p :: p in e0 && p !in Kids(sp, level, key, i) && p != table ==> mem[p] == e0[p])
    && (forall j :: i <= j < NPTE ==> mem[table][j] == m0[table][j])
  }

  lemma WalkStart(m0: Mem, mem: Mem, free: set<nat>, sp: Space, level: nat, key: nat, table: nat)
    requires Wf(m0, sp) && level <= 2 && Table(sp, level, key) == Some(table)
             && Intact(m0, mem, free, Below(sp, level, key))
    ensures Walked(m0, mem, free, mem, free, sp, level, key, table, 0)
  {
    BelowSplit(m0, sp, level, key);
  }

  lemma ChildIntact(m0: Mem, e0: Mem, f0: set<nat>, mem: Mem, free: set<nat>, sp: Space, level: nat, key: nat,
                    table: nat, i: nat)
    requires Wf(m0, sp) && 1 <= level <= 2 && Table(sp, level, key) == Some(table) && i < NPTE
    requires Intact(m0, e0, f0, Below(sp, level, key)) && Walked(m0, e0, f0, mem, free, sp, level, key, table, i)
    ensures Intact(m0, mem, free, Below(sp, level - 1, key * NPTE + i))
  {
    KidsDisjoint(m0, sp, level, key, i);
  }

  lemma WalkStep(m0: Mem, e0: Mem, f0: set<nat>, m1: Mem, f1: set<nat>, m2: Mem, f2: set<nat>, sp: Space,
                 level: nat, key: nat, table: nat, i: nat)
    requires Wf(m0, sp) && 1 <= level <= 2 && Table(sp, level, key) == Some(table) && i < NPTE
    requires Walked(m0, e0, f0, m1, f1, sp, level, key, table, i)
    requires Freed(m1, f1, m2, f2, Below(sp, level - 1, key * NPTE + i))
    ensures table in m2 && Walked(m0, e0, f0, m2[table := m2[table][i := 0]], f2, sp, level, key, table, i + 1)
  {
    hide Wf, Below, Table;
    KidsDisjoint(m0, sp, level, key, i);
    var kid := Below(sp, level - 1, key * NPTE + i);
    assert Kids(sp, level, key, i + 1) == Kids(sp, level, key, i) + kid;
    assert m2[table] == m1[table];
  }

  /** One entry of freewalk's loop. */
  method FreeEntry(m: Machine, table: nat, i: nat, ghost level: nat, ghost key: nat, ghost sp: Space, ghost m0: Mem,
                   ghost e0: Mem, ghost f0: set<nat>)
    requires m.Valid() && Wf(m0, sp) && NoLeaf(m0, sp) && level <= 2 && Table(sp, level, key) == Some(table) && i < NPTE
    requires Intact(m0, e0, f0, Below(sp, level, key)) && Walked(m0, e0, f0, m.mem, m.Free(), sp, level, key, table, i)
    modifies m
    ensures m.Valid() && Walked(m0, e0, f0, m.mem, m.Free(), sp, level, key, table, i + 1)
    decreases level, 0
  {
    hide Wf, NoLeaf, NoDup, Intact, Freed, Kids, Below, Ppn, IsV, IsLeaf;
    EntryFacts(m0, sp, level, key, i);
    var pte := m.mem[table][i];
    if IsV(pte) && !IsLeaf(pte) {
      ChildIntact(m0, e0, f0, m.mem, m.Free(), sp, level, key, table, i);
      var child := Ppn(pte);
      ghost var m1, f1 := m.mem, m.Free();
      Freewalk(m, child, level - 1, key * NPTE + i, sp, m0);
      WalkStep(m0, e0, f0, m1, f1, m.mem, m.Free(), sp, level, key, table, i);
      m.mem := m.mem[table := m.mem[table][i := 0]];
    } else if IsV(pte) {
      assert false;
    }
  }

  /** freewalk: frees exactly the tables at and below `table`.  A valid leaf entry would be a
      panic; with none, that branch is never taken. */
  method Freewalk(m: Machine, table: nat, ghost level: nat, ghost key: nat, ghost sp: Space, ghost m0: Mem)
    requires m.Valid() && Wf(m0, sp) && NoLeaf(m0, sp) && level <= 2 && Table(sp, level, key) == Some(table)
    requires Intact(m0, m.mem, m.Free(), Below(sp, level, key))
    modifies m
    ensures m.Valid() && Freed(old(m.mem), old(m.Free()), m.mem, m.Free(), Below(sp, level, key))
    decreases level, 1
  {
    hide Wf, NoLeaf, NoDup, Intact, Kids, Below, JunkPage;
    WalkStart(m0, m.mem, m.Free(), sp, level, key, table);
    var i := 0;
    while i < NPTE
      invariant 0 <= i <= NPTE && m.Valid()
      invariant Walked(m0, old(m.mem), old(m.Free()), m.mem, m.Free(), sp, level, key, table, i)
    {
      FreeEntry(m, table, i, level, key, sp, m0, old(m.mem), old(m.Free()));
      i := i + 1;
    }
    BelowSplit(m0, sp, level, key);
    m.Kfree(table);
  }

  // ----- uvmcreate and uvmfree -----

  /** Nothing is mapped at page n or above. */
  ghost predicate Ends(mem: Mem, sp: Space, n: nat) { forall v: nat :: n <= v ==> Lookup(mem, sp, v) == 0 }

  /** uvmcreate: an address space with nothing mapped. */
  method Uvmcreate(m: Machine) returns (r: Option<nat>, ghost sp: Space)
    requires m.Valid()
    modifies m
    ensures m.Valid() && sp == Space(if r.Some? then r.value else 0, map[], map[])
    ensures r.None? <==> old(m.freelist) == []
    ensures r.None? ==> m.mem == old(m.mem) && m.freelist == old(m.freelist)
    ensures r.Some? ==> m.Holds(sp) && Ends(m.mem, sp, 0)
    ensures r.Some? ==> Conserves(old(m.mem), old(m.Free()), {}, m.mem, m.Free(), Tables(sp))
    ensures r.Some? ==> |m.freelist| == |old(m.freelist)| - 1
  {
    r := m.Kalloc();
    sp := Space(0, map[], map[]);
    if r.Some? {
      m.mem := m.mem[r.value := ZeroPage()];
      sp := Space(r.value, map[], map[]);
    }
  }

  lemma ReadyToWalk(m0: Mem, m: Machine, sp: Space, n: nat)
    requires m.Holds(sp) && Ends(m0, sp, n) && Clears(m0, m.mem, sp, 0, n)
    ensures NoLeaf(m.mem, sp) && Intact(m.mem, m.mem, m.Free(), Below(sp, 2, 0)) && Table(sp, 2, 0) == Some(sp.root)
  {
    forall v: nat
      ensures !IsV(Lookup(m.mem, sp, v))
    {
      assert Lookup(m.mem, sp, v) == if 0 <= v < 0 + n then 0 else Lookup(m0, sp, v);
    }
  }

  lemma FreedBoth(m0: Mem, f0: set<nat>, o0: set<nat>, m1: Mem, f1: set<nat>, o1: set<nat>, m2: Mem, f2: set<nat>)
    requires Conserves(m0, f0, o0, m1, f1, o1) && Freed(m1, f1, m2, f2, o1)
    ensures Conserves(m0, f0, o0, m2, f2, {})
  {
    forall p | p in m0 && p !in f0 && p !in o0
      ensures m2[p] == m0[p]
    {
      assert p !in f1 + o1;
    }
  }

  lemma ClearsNothing(m: Machine, sp: Space)
    requires m.Holds(sp)
    ensures Clears(m.mem, m.mem, sp, 0, 0) && Conserves(m.mem, m.Free(), Own(m.mem, sp, 0), m.mem, m.Free(), Tables(sp))
  {}

  /** uvmfree: every table and every page of memory is freed, and no other page is touched. */
  method Uvmfree(m: Machine, root: nat, sz: nat, ghost sp: Space)
    requires m.Holds(sp) && sp.root == root && Pg(sz) * PGSIZE <= MAXVA
    requires User(m.mem, m.Free(), sp, Pg(sz)) && Ends(m.mem, sp, Pg(sz))
    modifies m
    ensures m.Valid() && Conserves(old(m.mem), old(m.Free()), Own(old(m.mem), sp, Pg(sz)), m.mem, m.Free(), {})
  {
    hide Machine.Free, User, Present, Exclusive, Clears, Conserves, Range, Pg, Tables, Intact, NoLeaf, Wf, Freed,
         Ends, NoDup;
    PgRound(0, sz);
    CutReady(m, sp, 0, Pg(sz));
    ClearsNothing(m, sp);
    if sz > 0 {
      var _ := Uvmunmap(m, root, 0, Pg(sz), true, sp, Pg(sz));
    }
    ReadyToWalk(old(m.mem), m, sp, Pg(sz));
    ghost var m1, f1 := m.mem, m.Free();
    Freewalk(m, root, 2, 0, sp, m.mem);
    FreedBoth(old(m.mem), old(m.Free()), Own(old(m.mem), sp, Pg(sz)), m1, f1, Tables(sp), m.mem, m.Free());
  }

  /** uvmdealloc of an empty address space from an old size of one page panics. */
  method DeallocPanics() returns (sz: Option<nat>)
    ensures sz.None?
  {
    hide Wf, Tables, Lookup;
    var m := new Machine(map[1 := ZeroPage()]);
    m.Freerange(1, 2);
    assert 1 in m.freelist;
    var r;
    ghost var sp;
    r, sp := Uvmcreate(m);
    PgOf(0);
    PgOf(1);
    sz := Uvmdealloc(m, r.value, PGSIZE, 0, sp, 0);
  }
}
