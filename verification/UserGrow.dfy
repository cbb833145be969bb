/** Growing address spaces (kernel/vm.c uvmalloc, uvmcopy): page after page is taken from the
    free list, filled and mapped; when memory runs out everything taken so far goes back. */
module UserGrow {
  import opened Common
  import opened PageTable
  import opened Vm
  import opened UserVm

  /** What a new page is to hold: its flags and its contents. */
  datatype Want = Want(flags: nat, data: Page)

  ghost predicate IsWanted(mem: Mem, pte: nat, w: Want) {
    Flags(pte) == w.flags && Ppn(pte) in mem && mem[Ppn(pte)] == w.data
  }

  /** The wanted pages are mapped from v0; the rest of the flat map is unchanged. */
  ghost predicate Placed(m0: Mem, s0: Space, m1: Mem, s1: Space, v0: nat, want: seq<Want>) {
    && (forall v: nat :: !(v0 <= v < v0 + |want|) ==> Lookup(m1, s1, v) == Lookup(m0, s0, v))
    && (forall i: nat :: i < |want| ==> IsWanted(m1, Lookup(m1, s1, v0 + i), want[i]))
  }

  /** An address space of n0 pages has grown by the wanted ones. */
  ghost predicate Placing(m0: Mem, f0: set<nat>, s0: Space, m1: Mem, f1: set<nat>, s1: Space, n0: nat,
                          want: seq<Want>) {
    Grown(m0, f0, s0, m1, f1, s1, n0, n0 + |want|) && Placed(m0, s0, m1, s1, n0, want)
  }

  lemma GrownTwice(m0: Mem, f0: set<nat>, s0: Space, m1: Mem, f1: set<nat>, s1: Space, m2: Mem, f2: set<nat>,
                   s2: Space, n: nat, k: nat, j: nat)
    requires Grown(m0, f0, s0, m1, f1, s1, n, k) && Grown(m1, f1, s1, m2, f2, s2, k, j)
    requires Range(m0, s0, 0, n) <= Range(m1, s1, 0, k)
    ensures Grown(m0, f0, s0, m2, f2, s2, n, j)
  {
    ConservesTwice(m0, f0, Own(m0, s0, n), m1, f1, Own(m1, s1, k), m2, f2, Own(m2, s2, j));
  }

  lemma KeptRange(m0: Mem, s0: Space, m1: Mem, s1: Space, n: nat, want: seq<Want>)
    requires Placed(m0, s0, m1, s1, n, want)
    ensures Range(m0, s0, 0, n) == Range(m1, s1, 0, n) <= Range(m1, s1, 0, n + |want|)
  {
    SameRange(m0, s0, m1, s1, 0, n);
    RangeConcat(m1, s1, n, |want|);
  }

  lemma PlacedMore(m0: Mem, s0: Space, m1: Mem, f1: set<nat>, s1: Space, m2: Mem, f2: set<nat>, s2: Space, v0: nat,
                   want: seq<Want>, p: nat, w: Want)
    requires Placed(m0, s0, m1, s1, v0, want) && MapsRange(m1, s1, m2, s2, v0 + |want|, 1, p, w.flags) && w.flags < 1024
    requires Grown(m1, f1, s1, m2, f2, s2, v0 + |want|, v0 + |want| + 1) && p in m2 && m2[p] == w.data
    ensures Placed(m0, s0, m2, s2, v0, want + [w])
  {
    PteFields(p, w.flags);
    forall i: nat | i < |want + [w]|
      ensures IsWanted(m2, Lookup(m2, s2, v0 + i), (want + [w])[i])
    {
      if i < |want| {
        assert IsWanted(m1, Lookup(m1, s1, v0 + i), want[i]);
        assert Ppn(Lookup(m1, s1, v0 + i)) in Range(m1, s1, 0, v0 + |want|);
      } else {
        assert Lookup(m2, s2, v0 + i) == Pte(p, w.flags);
      }
    }
  }

  lemma PlacedKept(m0: Mem, s0: Space, m1: Mem, f1: set<nat>, s1: Space, m2: Mem, f2: set<nat>, s2: Space, v0: nat,
                   want: seq<Want>)
    requires Placed(m0, s0, m1, s1, v0, want) && SameMap(m1, s1, m2, s2)
             && Grown(m1, f1, s1, m2, f2, s2, v0 + |want|, v0 + |want|)
    ensures Placed(m0, s0, m2, s2, v0, want)
  {
    forall i: nat | i < |want|
      ensures IsWanted(m2, Lookup(m2, s2, v0 + i), want[i])
    {
      assert IsWanted(m1, Lookup(m1, s1, v0 + i), want[i]);
      assert Ppn(Lookup(m1, s1, v0 + i)) in Range(m1, s1, 0, v0 + |want|);
    }
  }

  lemma PlacingTook(m0: Mem, f0: set<nat>, s0: Space, m1: Mem, f1: set<nat>, s1: Space, m2: Mem, f2: set<nat>,
                    s2: Space, n0: nat, want: seq<Want>, p: nat, w: Want)
    requires Placing(m0, f0, s0, m1, f1, s1, n0, want) && w.flags < 1024
    requires Grown(m1, f1, s1, m2, f2, s2, n0 + |want|, n0 + |want| + 1) && p in m2 && m2[p] == w.data
    requires MapsRange(m1, s1, m2, s2, n0 + |want|, 1, p, w.flags)
    ensures Placing(m0, f0, s0, m2, f2, s2, n0, want + [w])
  {
    hide Grown, Placed, Range, MapsRange;
    KeptRange(m0, s0, m1, s1, n0, want);
    GrownTwice(m0, f0, s0, m1, f1, s1, m2, f2, s2, n0, n0 + |want|, n0 + |want| + 1);
    PlacedMore(m0, s0, m1, f1, s1, m2, f2, s2, n0, want, p, w);
  }

  lemma PlacingRefused(m0: Mem, f0: set<nat>, s0: Space, m1: Mem, f1: set<nat>, s1: Space, m2: Mem, f2: set<nat>,
                       s2: Space, n0: nat, want: seq<Want>)
    requires Placing(m0, f0, s0, m1, f1, s1, n0, want)
    requires Grown(m1, f1, s1, m2, f2, s2, n0 + |want|, n0 + |want|) && SameMap(m1, s1, m2, s2)
    ensures Placing(m0, f0, s0, m2, f2, s2, n0, want)
  {
    hide Grown, Placed, Range, SameMap;
    KeptRange(m0, s0, m1, s1, n0, want);
    GrownTwice(m0, f0, s0, m1, f1, s1, m2, f2, s2, n0, n0 + |want|, n0 + |want|);
    PlacedKept(m0, s0, m1, f1, s1, m2, f2, s2, n0, want);
  }

  lemma PlacingReady(m0: Mem, f0: set<nat>, s0: Space, m1: Mem, f1: set<nat>, s1: Space, n0: nat, want: seq<Want>,
                     total: nat)
    requires Placing(m0, f0, s0, m1, f1, s1, n0, want) && |want| < total && Absent(m0, s0, n0, total)
    ensures User(m1, f1, s1, n0 + |want|) && !IsV(Lookup(m1, s1, n0 + |want|))
  {
    assert Lookup(m0, s0, n0 + |want|) == 0;
  }

  lemma PlacingNothing(m: Machine, sp: Space, n: nat)
    requires m.Holds(sp) && User(m.mem, m.Free(), sp, n)
    ensures Placing(m.mem, m.Free(), sp, m.mem, m.Free(), sp, n, [])
  {}

  /** One round of the loop in uvmalloc and in uvmcopy. */
  method PlaceOne(m: Machine, root: nat, n: nat, d: Page, perm: nat,
                  ghost m0: Mem, ghost f0: set<nat>, ghost s0: Space, ghost s1: Space, ghost n0: nat,
                      ghost want: seq<Want>, ghost total: nat)
    returns (ok: bool, ghost s2: Space)
    requires m.Holds(s1) && s1.root == root && n == n0 + |want| && |want| < total && (n + 1) * PGSIZE <= MAXVA
    requires perm < 1024 && OrV(perm) != PTE_V && Absent(m0, s0, n0, total)
    requires Placing(m0, f0, s0, m.mem, m.Free(), s1, n0, want)
    modifies m
    ensures m.Holds(s2) && s2.root == root
    ensures ok ==> Placing(m0, f0, s0, m.mem, m.Free(), s2, n0, want + [Want(OrV(perm), d)])
    ensures !ok ==> Placing(m0, f0, s0, m.mem, m.Free(), s2, n0, want)
    ensures ok <==> 1 + NewTables(s1, n, 1) <= |old(m.freelist)|
    ensures ok ==> Took(s1, s2, n, 1, 1, |old(m.freelist)|, |m.freelist|)
  {
    hide NewTables, Took, Machine.Holds, Machine.Free, Machine.Valid, Placing, Grown, User, SameMap, MapsRange, OrV,
      IsV, Lookup, Absent;
    PlacingReady(m0, f0, s0, m.mem, m.Free(), s1, n0, want, total);
    OrVFacts(perm);
    var r;
    r, s2 := GrowOne(m, root, n, d, perm, s1);
    ok := r.Some?;
    if ok {
      PlacingTook(m0, f0, s0, old(m.mem), old(m.Free()), s1, m.mem, m.Free(), s2, n0, want, r.value,
          Want(OrV(perm), d));
    } else {
      PlacingRefused(m0, f0, s0, old(m.mem), old(m.Free()), s1, m.mem, m.Free(), s2, n0, want);
    }
  }

  /** Growing and then cutting back to the old size leaves the flat map as it was. */
  lemma RolledBack(m0: Mem, f0: set<nat>, s0: Space, m1: Mem, f1: set<nat>, s1: Space, m2: Mem, f2: set<nat>,
                   n: nat, want: seq<Want>)
    requires Placing(m0, f0, s0, m1, f1, s1, n, want) && Absent(m0, s0, n, |want|)
    requires Clears(m1, m2, s1, n, |want|) && User(m2, f2, s1, n)
    requires Conserves(m1, f1, Own(m1, s1, n + |want|), m2, f2, Own(m2, s1, n))
    requires forall p :: p in Range(m1, s1, 0, n) ==> p in m1 && m2[p] == m1[p]
    ensures SameMap(m0, s0, m2, s1) && Grown(m0, f0, s0, m2, f2, s1, n, n)
  {
    forall v: nat
      ensures Lookup(m2, s1, v) == Lookup(m0, s0, v)
    {
      assert Lookup(m2, s1, v) == if n <= v < n + |want| then 0 else Lookup(m1, s1, v);
    }
    KeptRange(m0, s0, m1, s1, n, want);
    ConservesTwice(m0, f0, Own(m0, s0, n), m1, f1, Own(m1, s1, n + |want|), m2, f2, Own(m2, s1, n));
  }

  // ----- uvmalloc -----

  /** PTE_R | PTE_U | xperm | PTE_V, for an xperm made of PTE_W and PTE_X. */
  function Perm(xperm: nat): nat { PTE_R + PTE_U + xperm + PTE_V }

  ghost predicate XPerm(xperm: nat) { xperm == 0 || xperm == PTE_W || xperm == PTE_X || xperm == PTE_W + PTE_X }

  lemma PermFacts(xperm: nat)
    requires XPerm(xperm)
    ensures 0 <= PTE_R + PTE_U + xperm < 1024 && OrV(PTE_R + PTE_U + xperm) == Perm(xperm) && Perm(xperm) != PTE_V
  {}

  /** k zeroed pages with the given flags. */
  ghost function Blank(k: nat, flags: nat): (s: seq<Want>)
    ensures |s| == k && forall i :: 0 <= i < k ==> s[i] == Want(flags, ZeroPage())
  {
    if k == 0 then [] else Blank(k - 1, flags) + [Want(flags, ZeroPage())]
  }

  /** The failure path of uvmalloc: uvmdealloc(pagetable, a, oldsz). */
  method AllocUndo(m: Machine, root: nat, n0: nat, n: nat, ghost m0: Mem, ghost f0: set<nat>, ghost s0: Space,
                   ghost s1: Space, ghost want: seq<Want>, ghost room: nat)
    requires m.Holds(s1) && s1.root == root && n == n0 + |want| && n * PGSIZE <= MAXVA
    requires Placing(m0, f0, s0, m.mem, m.Free(), s1, n0, want) && Absent(m0, s0, n0, room) && |want| <= room
    modifies m
    ensures m.Holds(s1) && Grown(m0, f0, s0, m.mem, m.Free(), s1, n0, n0) && SameMap(m0, s0, m.mem, s1)
  {
    hide Machine.Holds, Machine.Free, Machine.Valid, Placing, Pg, Clears, User, Absent, SameMap, Grown, Range,
         Conserves, Own;
    AbsentPrefix(m0, s0, n0, |want|, room);
    PlacingUser(m0, f0, s0, m.mem, m.Free(), s1, n0, want);
    PgOf(n);
    PgOf(n0);
    AbsentNone(m.mem, s1, n);
    var _ := Uvmdealloc(m, root, n * PGSIZE, n0 * PGSIZE, s1, n);
    RolledBack(m0, f0, s0, old(m.mem), old(m.Free()), s1, m.mem, m.Free(), n0, want);
  }

  lemma AbsentPrefix(mem: Mem, sp: Space, v0: nat, k: nat, total: nat)
    requires Absent(mem, sp, v0, total) && k <= total
    ensures Absent(mem, sp, v0, k)
  {}

  lemma PlacingUser(m0: Mem, f0: set<nat>, s0: Space, m1: Mem, f1: set<nat>, s1: Space, n0: nat, want: seq<Want>)
    requires Placing(m0, f0, s0, m1, f1, s1, n0, want)
    ensures User(m1, f1, s1, n0 + |want|)
  {}

  lemma RangeNone(mem: Mem, sp: Space)
    ensures Range(mem, sp, 0, 0) == {}
  {}

  /** An address space has no more pages than there is memory. */
  lemma {:induction false} UserCount(mem: Mem, free: set<nat>, sp: Space, n: nat)
    requires Exclusive(mem, free, sp, 0, n)
    ensures |Range(mem, sp, 0, n)| == n <= |mem.Keys|
  {
    hide Lookup, Ppn, Exclusive, Tables, Range;
    if n == 0 {
      RangeNone(mem, sp);
    } else {
      RangesDisjoint(mem, free, sp, n - 1, 1);
      UserCount(mem, free, sp, n - 1);
      RangeConcat(mem, sp, n - 1, 1);
      RangeOne(mem, sp, n - 1);
      RangeDisjoint(mem, free, sp, 0, n);
      SubsetSize(Range(mem, sp, 0, n), mem.Keys);
    }
  }

  lemma RoomLeft(m0: Mem, f0: set<nat>, s0: Space, m1: Mem, f1: set<nat>, s1: Space, n0: nat, want: seq<Want>)
    requires Placing(m0, f0, s0, m1, f1, s1, n0, want)
    ensures n0 + |want| <= |m0.Keys|
  {
    hide Lookup, Ppn, Range, Tables, Placed, Present, Own, Exclusive;
    UserCount(m1, f1, s1, n0 + |want|);
    assert m1.Keys == m0.Keys;
  }

  /** The free pages it takes to map k new pages from v: themselves, and the tables that are missing. */
  ghost function Cost(sp: Space, v: nat, k: nat): nat { k + NewTables(sp, v, k) }

  /** The cost depends on which tables there are, not on where they are. */
  lemma SameCost(s0: Space, s1: Space, v: nat, k: nat)
    requires s1.l1.Keys == s0.l1.Keys && s1.l0.Keys == s0.l0.Keys
    ensures Cost(s1, v, k) == Cost(s0, v, k)
  {}

  /** Where uvmalloc stands after k pages. */
  ghost predicate Growing(m0: Mem, f0: set<nat>, before: nat, m: Machine, sp: Space, sp': Space, n0: nat, k: nat,
                          flags: nat)
    reads m
  {
    && m.Holds(sp') && sp'.root == sp.root && Placing(m0, f0, sp, m.mem, m.Free(), sp', n0, Blank(k, flags))
    && Took(sp, sp', n0, k, k, before, |m.freelist|)
  }

  lemma GrowingNothing(m: Machine, sp: Space, n0: nat, flags: nat)
    requires m.Holds(sp) && User(m.mem, m.Free(), sp, n0)
    ensures Growing(m.mem, m.Free(), |m.freelist|, m, sp, sp, n0, 0, flags) && n0 <= |m.mem.Keys|
  {
    hide Placing, Took, User;
    PlacingNothing(m, sp, n0);
    TookNothing(sp, n0, |m.freelist|);
    RoomLeft(m.mem, m.Free(), sp, m.mem, m.Free(), sp, n0, []);
  }

  /** One round of uvmalloc, of which there are to be `total`; on failure, all that is undone. */
  method AllocOne(m: Machine, root: nat, n0: nat, n: nat, xperm: nat, ghost m0: Mem, ghost f0: set<nat>,
                  ghost before: nat, ghost sp: Space, ghost s1: Space, ghost total: nat, ghost room: nat)
    returns (ok: bool, ghost s2: Space)
    requires n0 <= n < n0 + total && Growing(m0, f0, before, m, sp, s1, n0, n - n0, Perm(xperm)) && sp.root == root
    requires XPerm(xperm) && (n0 + room) * PGSIZE <= MAXVA && Absent(m0, sp, n0, room) && n < n0 + room
    modifies m
    ensures ok ==> Growing(m0, f0, before, m, sp, s2, n0, n - n0 + 1, Perm(xperm)) && n < |m0.Keys|
    ensures !ok ==> before < Cost(sp, n0, total) && m.Holds(s2) && s2.root == root
    ensures !ok ==> Grown(m0, f0, sp, m.mem, m.Free(), s2, n0, n0) && SameMap(m0, sp, m.mem, s2)
  {
    hide Machine.Holds, Machine.Free, Machine.Valid, Placing, Grown, User, Absent, SameMap, Perm, XPerm, OrV, NewTables,
         Took;
    ghost var k, flags, left := n - n0, Perm(xperm), |m.freelist|;
    PermFacts(xperm);
    ok, s2 := PlaceOne(m, root, n, ZeroPage(), PTE_R + PTE_U + xperm, m0, f0, sp, s1, n0, Blank(k, flags), room);
    if ok {
      TookMore(sp, s1, s2, n0, k, 1, k, 1, before, left, |m.freelist|);
      RoomLeft(m0, f0, sp, m.mem, m.Free(), s2, n0, Blank(k + 1, flags));
    } else {
      TooLittle(sp, s1, n0, k, total, k, 1, before, left);
      AllocUndo(m, root, n0, n, m0, f0, sp, s2, Blank(k, flags), room);
    }
  }

  /** uvmalloc: grows by fresh zeroed pages if and only if there are enough free ones for them and the
      tables they need; otherwise every page it took for memory is back on the free list and the flat
      map is as before (tables it added may remain).  Above the old size `room` pages are unmapped, enough
      for the new size or for all of memory. */
  method Uvmalloc(m: Machine, root: nat, oldsz: nat, newsz: nat, xperm: nat, ghost sp: Space, ghost room: nat)
    returns (sz: Option<nat>, ghost sp': Space)
    requires m.Holds(sp) && sp.root == root && User(m.mem, m.Free(), sp, Pg(oldsz)) && XPerm(xperm)
    requires (Pg(oldsz) + room) * PGSIZE <= MAXVA && Absent(m.mem, sp, Pg(oldsz), room)
    requires Pg(newsz) <= Pg(oldsz) + room || |m.mem.Keys| < Pg(oldsz) + room
    modifies m
    ensures m.Holds(sp') && sp'.root == root
    ensures newsz < oldsz ==> sz == Some(oldsz) && m.mem == old(m.mem) && m.freelist == old(m.freelist) && sp' == sp
    ensures newsz >= oldsz ==> Pg(oldsz) <= Pg(newsz)
    ensures newsz >= oldsz ==> (sz.Some? <==> Cost(sp, Pg(oldsz), Pg(newsz) - Pg(oldsz)) <= |old(m.freelist)|)
    ensures newsz >= oldsz && sz.Some? ==> sz == Some(newsz) && Pg(newsz) <= Pg(oldsz) + room
    ensures newsz >= oldsz && sz.Some? ==>
              Placing(old(m.mem), old(m.Free()), sp, m.mem, m.Free(), sp', Pg(oldsz),
                  Blank(Pg(newsz) - Pg(oldsz), Perm(xperm)))
    ensures newsz >= oldsz && sz.None? ==>
              Grown(old(m.mem), old(m.Free()), sp, m.mem, m.Free(), sp', Pg(oldsz), Pg(oldsz))
                  && SameMap(old(m.mem), sp, m.mem, sp')
  {
    hide Machine.Holds, Machine.Free, Machine.Valid, Placing, Grown, User, Absent, SameMap, Pg, Perm, XPerm, NewTables,
         Took;
    sp' := sp;
    if newsz < oldsz {
      return Some(oldsz), sp;
    }
    var n0 := Pg(oldsz);
    PgMonotone(oldsz, newsz);
    GrowingNothing(m, sp, n0, Perm(xperm));
    var n := n0;
    PgRound(n, newsz);
    while n * PGSIZE < newsz
      invariant n0 <= n <= Pg(newsz) && n <= |old(m.mem).Keys| && n <= n0 + room
                && (n * PGSIZE < newsz <==> n < Pg(newsz))
      invariant Growing(old(m.mem), old(m.Free()), |old(m.freelist)|, m, sp, sp', n0, n - n0, Perm(xperm))
      decreases Pg(newsz) - n
    {
      var ok;
      ok, sp' := AllocOne(m, root, n0, n, xperm, old(m.mem), old(m.Free()), |old(m.freelist)|, sp, sp', Pg(newsz) - n0,
          room);
      if !ok {
        return None, sp';
      }
      n := n + 1;
      PgRound(n, newsz);
    }
    TookEnough(sp, sp', n0, n - n0, n - n0, |old(m.freelist)|, |m.freelist|);
    return Some(newsz), sp';
  }

  // ----- uvmcopy -----

  /** What page v of an address space holds. */
  ghost function PageAt(mem: Mem, sp: Space, v: nat): Want {
    var pte := Lookup(mem, sp, v);
    Want(Flags(pte), if Ppn(pte) in mem then mem[Ppn(pte)] else ZeroPage())
  }

  ghost function Image(mem: Mem, sp: Space, n: nat): (s: seq<Want>)
    ensures |s| == n && forall v: nat :: v < n ==> s[v] == PageAt(mem, sp, v)
  {
    if n == 0 then [] else Image(mem, sp, n - 1) + [PageAt(mem, sp, n - 1)]
  }

  /** The pages of one address space are as they were and still its own. */
  ghost predicate Untouched(m0: Mem, m: Machine, sp: Space, n: nat)
    reads m
  {
    && m.Holds(sp) && User(m.mem, m.Free(), sp, n) && SameMap(m0, sp, m.mem, sp)
    && forall p :: p in Own(m0, sp, n) ==> p in m0 && p in m.mem && m.mem[p] == m0[p]
  }

  /** Whatever conserves the pages of others leaves this address space untouched. */
  lemma OthersUntouched(m0: Mem, f0: set<nat>, m: Machine, own0: set<nat>, own1: set<nat>, sp: Space, n: nat)
    requires Wf(m0, sp) && User(m0, f0, sp, n) && Tables(sp) !! f0
    requires m.Valid() && Own(m0, sp, n) !! own0 && Conserves(m0, f0, own0, m.mem, m.Free(), own1)
    ensures Untouched(m0, m, sp, n) && Own(m0, sp, n) !! own1
  {
    var mine := Own(m0, sp, n);
    assert forall p :: p in mine ==> p !in f0 + own0;
    assert mine !! m.Free() + own1;
    assert forall p :: p in mine ==> p in m0 && m.mem[p] == m0[p];
    FrameSpace(m0, m.mem, sp);
    assert forall v: nat :: v < n ==> Ppn(Lookup(m0, sp, v)) in mine;
  }

  /** Reading page v of an address space that is untouched gives its old contents. */
  method ReadPage(m: Machine, root: nat, v: nat, ghost m0: Mem, ghost sp: Space, ghost n: nat)
    returns (flags: nat, d: Page)
    requires Untouched(m0, m, sp, n) && sp.root == root && v < n && n * PGSIZE <= MAXVA
    modifies m
    ensures m.mem == old(m.mem) && m.freelist == old(m.freelist)
    ensures PageAt(m0, sp, v) == Want(flags, d) && flags < 1024 && OrV(flags) == flags && flags != PTE_V
  {
    hide Wf, NoDup, Points, OrV, Conserves;
    PageStep(0, v);
    ReadFacts(m0, m, sp, n, v);
    var r;
    ghost var sp1;
    r, sp1 := m.Walk(root, v * PGSIZE, false, sp);
    var (page, ix) := r.value;
    var pte := m.mem[page][ix];
    return Flags(pte), m.mem[Ppn(pte)];
  }

  lemma ReadFacts(m0: Mem, m: Machine, sp: Space, n: nat, v: nat)
    requires Untouched(m0, m, sp, n) && v < n
    ensures v / NPTE in sp.l0 && sp.l0[v / NPTE] in m.mem && m.mem[sp.l0[v / NPTE]][v % NPTE] == Lookup(m0, sp, v)
    ensures var pte := Lookup(m0, sp, v);
            && Ppn(pte) in m.mem && PageAt(m0, sp, v) == Want(Flags(pte), m.mem[Ppn(pte)])
            && OrV(Flags(pte)) == Flags(pte) && Flags(pte) != PTE_V
  {
    assert Lookup(m.mem, sp, v) == Lookup(m0, sp, v);
    assert IsV(Lookup(m.mem, sp, v));
    assert Ppn(Lookup(m0, sp, v)) in Own(m0, sp, n);
  }

  /** Where uvmcopy stands after n of total pages. */
  ghost predicate Copying(m0: Mem, f0: set<nat>, m: Machine, parent: Space, c0: Space, c1: Space, total: nat, n: nat)
    reads m
  {
    && m.Holds(c1) && n <= total && Placing(m0, f0, c0, m.mem, m.Free(), c1, 0, Image(m0, parent, n))
    && Untouched(m0, m, parent, total)
  }

  lemma CopyStart(m: Machine, parent: Space, c0: Space, total: nat)
    requires m.Holds(c0) && m.Holds(parent) && User(m.mem, m.Free(), parent, total)
    ensures Copying(m.mem, m.Free(), m, parent, c0, c0, total, 0)
  {
    PlacingNothing(m, c0, 0);
  }

  lemma CopyOn(m0: Mem, f0: set<nat>, m: Machine, parent: Space, c0: Space, c1: Space, total: nat, want: seq<Want>)
    requires Wf(m0, parent) && User(m0, f0, parent, total) && Tables(parent) !! f0
             && Own(m0, parent, total) !! Tables(c0)
    requires m.Valid() && Placing(m0, f0, c0, m.mem, m.Free(), c1, 0, want)
    ensures Untouched(m0, m, parent, total)
  {
    assert Own(m0, c0, 0) == Tables(c0);
    OthersUntouched(m0, f0, m, Own(m0, c0, 0), Own(m.mem, c1, |want|), parent, total);
  }

  /** One round of uvmcopy. */
  method CopyOne(m: Machine, pold: nat, pnew: nat, n: nat, ghost total: nat, ghost m0: Mem, ghost f0: set<nat>,
                 ghost parent: Space, ghost c0: Space, ghost c1: Space)
    returns (ok: bool, ghost c2: Space)
    requires Copying(m0, f0, m, parent, c0, c1, total, n) && n < total && total * PGSIZE <= MAXVA
    requires pold == parent.root && pnew == c1.root && Absent(m0, c0, 0, total)
    requires Wf(m0, parent) && User(m0, f0, parent, total) && Tables(parent) !! f0
             && Own(m0, parent, total) !! Tables(c0)
    modifies m
    ensures c2.root == pnew
    ensures ok ==> Copying(m0, f0, m, parent, c0, c2, total, n + 1)
    ensures !ok ==> Copying(m0, f0, m, parent, c0, c2, total, n)
    ensures ok <==> 1 + NewTables(c1, n, 1) <= |old(m.freelist)|
    ensures ok ==> Took(c1, c2, n, 1, 1, |old(m.freelist)|, |m.freelist|)
  {
    hide NewTables, Took, NoDup, Placing, User, Absent, Untouched, Wf, PageAt, OrV, Own, Tables;
    var flags, d := ReadPage(m, pold, n, m0, parent, total);
    ok, c2 := PlaceOne(m, pnew, n, d, flags, m0, f0, c0, c1, 0, Image(m0, parent, n), total);
    CopyOn(m0, f0, m, parent, c0, c2, total, if ok then Image(m0, parent, n + 1) else Image(m0, parent, n));
  }

  /** uvmcopy: the child gets pages of its own with the parent's flags and contents, if and only if there are
      enough free ones for them and the tables they need; the parent is untouched.  On failure the child is
      as it was (tables may remain). */
  method Uvmcopy(m: Machine, pold: nat, pnew: nat, sz: nat, ghost parent: Space, ghost child: Space)
    returns (ok: bool, ghost child': Space)
    requires m.Holds(parent) && m.Holds(child) && parent.root == pold && child.root == pnew && Pg(sz) * PGSIZE <= MAXVA
    requires User(m.mem, m.Free(), parent, Pg(sz)) && Own(m.mem, parent, Pg(sz)) !! Tables(child)
    requires Absent(m.mem, child, 0, Pg(sz))
    modifies m
    ensures m.Holds(child') && child'.root == pnew && Untouched(old(m.mem), m, parent, Pg(sz))
    ensures ok ==>
              Placing(old(m.mem), old(m.Free()), child, m.mem, m.Free(), child', 0, Image(old(m.mem), parent, Pg(sz)))
    ensures !ok ==>
              Grown(old(m.mem), old(m.Free()), child, m.mem, m.Free(), child', 0, 0)
                  && SameMap(old(m.mem), child, m.mem, child')
    ensures ok <==> Cost(child, 0, Pg(sz)) <= |old(m.freelist)|
    ensures ok ==> Took(child, child', 0, Pg(sz), Pg(sz), |old(m.freelist)|, |m.freelist|)
  {
    hide Machine.Free, Machine.Valid, Placing, Grown, User, Absent, Untouched, SameMap, Pg, Own, Tables, Wf, Image,
         NewTables, Took;
    var n := 0;
    child' := child;
    TookNothing(child, 0, |m.freelist|);
    ghost var total := Pg(sz);
    CopyStart(m, parent, child, total);
    PgRound(0, sz);
    while n * PGSIZE < sz
      invariant Copying(old(m.mem), old(m.Free()), m, parent, child, child', total, n) && child'.root == pnew
      invariant n * PGSIZE < sz <==> n < total
      invariant Took(child, child', 0, n, n, |old(m.freelist)|, |m.freelist|)
      decreases total - n
    {
      ghost var s1, left := child', |m.freelist|;
      ok, child' := CopyOne(m, pold, pnew, n, total, old(m.mem), old(m.Free()), parent, child, child');
      if !ok {
        TooLittle(child, s1, 0, n, total, n, 1, |old(m.freelist)|, left);
        CopyUndo(m, pnew, n, total, old(m.mem), old(m.Free()), parent, child, child');
        return;
      }
      TookMore(child, s1, child', 0, n, 1, n, 1, |old(m.freelist)|, left, |m.freelist|);
      n := n + 1;
      PgRound(n, sz);
    }
    TookEnough(child, child', 0, n, n, |old(m.freelist)|, |m.freelist|);
    ok := true;
  }

  /** The failure path of uvmcopy. */
  method CopyUndo(m: Machine, pnew: nat, n: nat, ghost total: nat, ghost m0: Mem, ghost f0: set<nat>,
                  ghost parent: Space, ghost c0: Space, ghost c1: Space)
    requires Copying(m0, f0, m, parent, c0, c1, total, n) && total * PGSIZE <= MAXVA && pnew == c1.root
             && Absent(m0, c0, 0, total)
    requires Wf(m0, parent) && User(m0, f0, parent, total) && Tables(parent) !! f0
             && Own(m0, parent, total) !! Tables(c0)
    modifies m
    ensures m.Holds(c1) && Untouched(m0, m, parent, total)
    ensures Grown(m0, f0, c0, m.mem, m.Free(), c1, 0, 0) && SameMap(m0, c0, m.mem, c1)
  {
    hide Machine.Free, Machine.Valid, Placing, Grown, User, Present, Exclusive, Conserves, Absent, Untouched,
         SameMap, Own, Tables, Wf, Range, Clears;
    PlacingUser(m0, f0, c0, m.mem, m.Free(), c1, 0, Image(m0, parent, n));
    CutReady(m, c1, 0, n);
    var _ := Uvmunmap(m, pnew, 0, n, true, c1, n);
    CutFacts(old(m.mem), old(m.Free()), m.mem, m.Free(), c1, 0, n);
    AbsentPrefix(m0, c0, 0, n, total);
    RolledBack(m0, f0, c0, old(m.mem), old(m.Free()), c1, m.mem, m.Free(), 0, Image(m0, parent, n));
    UndoUntouched(m0, f0, m, parent, c0, c1, total);
  }

  lemma UndoUntouched(m0: Mem, f0: set<nat>, m: Machine, parent: Space, c0: Space, c1: Space, total: nat)
    requires Wf(m0, parent) && User(m0, f0, parent, total) && Tables(parent) !! f0
             && Own(m0, parent, total) !! Tables(c0)
    requires m.Valid() && Grown(m0, f0, c0, m.mem, m.Free(), c1, 0, 0)
    ensures Untouched(m0, m, parent, total)
  {
    assert Own(m0, c0, 0) == Tables(c0);
    OthersUntouched(m0, f0, m, Own(m0, c0, 0), Own(m.mem, c1, 0), parent, total);
  }
}
