/** The virtio disk driver (kernel/virtio_disk.c): descriptors, the available and used rings with
    their 16-bit indexes, and a device that may take and finish requests in any order, also
    while the driver is in the middle of posting one or of handling an interrupt. */
module Virtio {
  import opened Common

  const NUM := 8
  const WORD := 0x1_0000

  // ----- what driver and device share -----

  /** Where a descriptor points: a request header, a buffer's data, or a status byte. */
  datatype Addr = Nowhere | Header(i: nat) | Data(buf: nat) | Status(i: nat)
  datatype Desc = Desc(addr: Addr, write: bool, more: bool, next: nat)
  datatype Op = Op(out: bool, sector: nat)
  datatype Info = Info(buf: Option<nat>, status: nat)

  /** The fields of struct disk and of the rings; `usedIdx` is the driver's, `doneIdx` the device's. */
  datatype Queue = Queue(free: seq<bool>, desc: seq<Desc>, ops: seq<Op>, info: seq<Info>,
                         availIdx: nat, avail: seq<nat>, usedIdx: nat, doneIdx: nat, used: seq<nat>)

  // ----- ghost view -----

  /** A request is on the available ring, with the device, on the used ring, or seen by the
      interrupt handler; the numbers are ring entries and positions in the transfer log. */
  datatype Phase = Posted(k: nat) | Running | Done(k: nat, at: nat) | Seen(at: nat)

  /** What each descriptor is for.  A held one is claimed for a request not posted yet.  A head carries its
      request; `since` is the length of the
      transfer log when it was posted. */
  datatype Role = Free | Held | Head(mid: nat, tail: nat, buf: nat, out: bool, sector: nat, since: nat,
      phase: Phase) | Mid(head: nat) | Tail(head: nat)

  datatype Transfer<D> = Transfer(out: bool, sector: nat, data: D)

  /** Entries of the available ring posted and taken, of the used ring written and seen. */
  datatype Counts = Counts(posted: nat, taken: nat, done: nat, seen: nat)

  // ----- 16-bit indexes -----

  /** NUM divides 2^16, so the ring position survives the wrap-around of an index. */
  lemma IndexWraps(x: nat)
    ensures x % WORD % NUM == x % NUM
  {
    assert x == (x / WORD * 8192) * NUM + x % WORD;
  }

  lemma IndexNext(x: nat)
    ensures (x % WORD + 1) % WORD == (x + 1) % WORD
  {}

  lemma IndexTest(a: nat, b: nat)
    requires a <= b <= a + NUM
    ensures a % WORD == b % WORD <==> a == b
  {}

  lemma SlotsDiffer(a: nat, b: nat)
    requires a < b < a + NUM
    ensures a % NUM != b % NUM
  {}

  // ----- the invariant -----

  ghost predicate Shape(q: Queue) {
    |q.free| == NUM && |q.desc| == NUM && |q.ops| == NUM && |q.info| == NUM && |q.avail| == NUM && |q.used| == NUM
  }

  /** The roles form chains of three, every descriptor in exactly one place. */
  ghost predicate RoleOk(roles: seq<Role>, i: nat)
    requires |roles| == NUM && i < NUM
  {
    match roles[i]
    case Free => true
    case Held => true
    case Head(m, t, _, _, _, _, _) => m < NUM && t < NUM && roles[m] == Mid(i) && roles[t] == Tail(i)
    case Mid(h) => h < NUM && roles[h].Head? && roles[h].mid == i
    case Tail(h) => h < NUM && roles[h].Head? && roles[h].tail == i
  }

  /** The descriptors of a chain say what the request is. */
  ghost predicate ChainOk(q: Queue, r: Role, h: nat)
    requires Shape(q) && h < NUM && r.Head? && r.mid < NUM && r.tail < NUM
  {
    && q.desc[h] == Desc(Header(h), false, true, r.mid)
    && q.desc[r.mid] == Desc(Data(r.buf), !r.out, true, r.tail)
    && q.desc[r.tail] == Desc(Status(h), true, false, 0)
    && q.ops[h] == Op(r.out, r.sector)
    && q.info[h] == Info(Some(r.buf), if r.phase.Posted? || r.phase.Running? then 0xff else 0)
  }

  ghost predicate DescOk(q: Queue, roles: seq<Role>, i: nat)
    requires Shape(q) && |roles| == NUM && i < NUM
  {
    RoleOk(roles, i) && (q.free[i] <==> roles[i].Free?) && (roles[i].Head? ==> ChainOk(q, roles[i], i))
  }

  /** Ring entry k belongs to a request that knows it. */
  ghost predicate AvailAt(q: Queue, roles: seq<Role>, k: nat)
    requires Shape(q) && |roles| == NUM
  {
    var h := q.avail[k % NUM];
    h < NUM && roles[h].Head? && roles[h].phase == Posted(k)
  }

  ghost predicate UsedAt(q: Queue, roles: seq<Role>, k: nat)
    requires Shape(q) && |roles| == NUM
  {
    var h := q.used[k % NUM];
    h < NUM && roles[h].Head? && roles[h].phase.Done? && roles[h].phase.k == k
  }

  /** A request's phase agrees with the rings, the log and the buffer. */
  ghost predicate PhaseOk<D>(c: Counts, r: Role, busy: set<nat>, bufs: map<nat, D>, log: seq<Transfer<D>>) {
    r.Head? ==>
      && r.since <= |log| && (r.buf in busy <==> !r.phase.Seen?) && r.buf in bufs
      && (r.phase.Posted? ==> c.taken <= r.phase.k < c.posted)
      && (r.phase.Done? ==> c.seen <= r.phase.k < c.done)
      && (r.phase.Done? || r.phase.Seen? ==>
            r.since <= r.phase.at < |log| && log[r.phase.at] == Transfer(r.out, r.sector, bufs[r.buf]))
  }

  /** A request's ring entry names it. */
  ghost predicate EntryOk(q: Queue, r: Role, h: nat)
    requires Shape(q)
  {
    r.Head? ==> (r.phase.Posted? ==> q.avail[r.phase.k % NUM] == h) && (r.phase.Done? ==> q.used[r.phase.k % NUM] == h)
  }

  /** No two requests share a buffer. */
  ghost predicate BufsDiffer(roles: seq<Role>) {
    forall i, j ::
      0 <= i < |roles| && 0 <= j < |roles| && roles[i].Head? && roles[j].Head? && roles[i].buf == roles[j].buf ==>
      i == j
  }

  ghost predicate RingsOk(q: Queue, roles: seq<Role>, c: Counts)
    requires Shape(q) && |roles| == NUM
  {
    && c.taken <= c.posted <= c.taken + NUM && c.seen <= c.done <= c.seen + NUM
    && q.availIdx == c.posted % WORD && q.usedIdx == c.seen % WORD && q.doneIdx == c.done % WORD
    && (forall k: nat :: c.taken <= k < c.posted ==> AvailAt(q, roles, k))
    && (forall k: nat :: c.seen <= k < c.done ==> UsedAt(q, roles, k))
  }

  ghost predicate Inv<D>(q: Queue, roles: seq<Role>, c: Counts, busy: set<nat>, bufs: map<nat, D>,
                         log: seq<Transfer<D>>) {
    && Shape(q) && |roles| == NUM && RingsOk(q, roles, c) && BufsDiffer(roles)
    && (forall i: nat :: i < NUM ==> DescOk(q, roles, i) && EntryOk(q, roles[i], i))
    && (forall i: nat :: i < NUM ==> PhaseOk(c, roles[i], busy, bufs, log))
  }

  // ----- at most NUM entries are outstanding -----

  /** Different numbers below n: at most n of them. */
  lemma AtMost(s: seq<nat>, n: nat)
    requires NoDup(s) && forall i :: 0 <= i < |s| ==> s[i] < n
    ensures |s| <= n
  {
    SeqSize(s);
    SubsetSize(Members(s), Upto(n));
  }

  ghost function Upto(n: nat): (s: set<nat>)
    ensures |s| == n && forall x: nat :: x in s <==> x < n
  {
    if n == 0 then {} else Upto(n - 1) + {n - 1}
  }

  // ----- posting a request -----

  /** Three free descriptors, all different. */
  ghost predicate Three(roles: seq<Role>, a: nat, b: nat, d: nat) {
    && |roles| == NUM && a < NUM && b < NUM && d < NUM && a != b && a != d && b != d
    && roles[a].Free? && roles[b].Free? && roles[d].Free?
  }

  /** Three held descriptors, all different. */
  ghost predicate HeldThree(roles: seq<Role>, a: nat, b: nat, d: nat) {
    && |roles| == NUM && a < NUM && b < NUM && d < NUM && a != b && a != d && b != d
    && roles[a].Held? && roles[b].Held? && roles[d].Held?
  }

  ghost function WithHeld(roles: seq<Role>, a: nat, b: nat, d: nat): seq<Role>
    requires Three(roles, a, b, d)
  {
    roles[a := Held][b := Held][d := Held]
  }

  /** The roles with the new request. */
  ghost function WithRequest(roles: seq<Role>, a: nat, b: nat, d: nat, r: Role): seq<Role>
    requires HeldThree(roles, a, b, d)
  {
    roles[a := r][b := Mid(a)][d := Tail(a)]
  }

  /** The request stands in its descriptors and in the next entry of the available ring. */
  ghost predicate Ready(q: Queue, a: nat, b: nat, d: nat, r: Role, posted: nat) {
    && Shape(q) && a < NUM && b < NUM && d < NUM && r.Head? && r.mid == b && r.tail == d
        && (r.phase.Posted? || r.phase.Running?)
    && ChainOk(q, r, a) && q.avail[posted % NUM] == a
  }

  /** The shared memory after the request has been written out but not announced. */
  ghost predicate Written(q: Queue, q': Queue, a: nat, b: nat, d: nat, r: Role, posted: nat) {
    && Shape(q) && Ready(q', a, b, d, r, posted)
    && (forall i :: 0 <= i < NUM ==> q'.free[i] == (q.free[i] && i != a && i != b && i != d))
    && (forall i :: 0 <= i < NUM && i != a && i != b && i != d && !q.free[i] ==> q'.desc[i] == q.desc[i])
    && (forall i :: 0 <= i < NUM && i != a ==> q'.ops[i] == q.ops[i] && q'.info[i] == q.info[i])
    && q'.avail == q.avail[posted % NUM := a] && q'.availIdx == q.availIdx
    && q'.used == q.used && q'.usedIdx == q.usedIdx && q'.doneIdx == q.doneIdx
  }

  /** With a descriptor that is no head the available ring is not full. */
  lemma AvailRoom(q: Queue, roles: seq<Role>, c: Counts, a: nat)
    requires Shape(q) && |roles| == NUM && RingsOk(q, roles, c) && a < NUM && !roles[a].Head?
    ensures c.posted < c.taken + NUM
  {
    var s := seq(c.posted - c.taken, j requires 0 <= j < c.posted - c.taken => q.avail[(c.taken + j) % NUM]) + [a];
    forall i, j | 0 <= i < j < |s|
      ensures s[i] != s[j]
    {
      assert AvailAt(q, roles, c.taken + i);
      if j < |s| - 1 { assert AvailAt(q, roles, c.taken + j); }
    }
    forall i | 0 <= i < |s|
      ensures s[i] < NUM
    {
      if i < |s| - 1 { assert AvailAt(q, roles, c.taken + i); }
    }
    AtMost(s, NUM);
  }

  lemma WriteDesc(q: Queue, q': Queue, roles: seq<Role>, a: nat, b: nat, d: nat, r: Role, posted: nat, i: nat)
    requires Shape(q) && Three(roles, a, b, d) && Written(q, q', a, b, d, r, posted) && i < NUM && DescOk(q, roles, i)
    requires roles[i].Head? ==> DescOk(q, roles, roles[i].mid) && DescOk(q, roles, roles[i].tail)
    ensures DescOk(q', WithHeld(roles, a, b, d), i)
  {}

  lemma WriteRings(q: Queue, q': Queue, roles: seq<Role>, c: Counts, a: nat, b: nat, d: nat, r: Role)
    requires Shape(q) && Three(roles, a, b, d) && Written(q, q', a, b, d, r, c.posted) && RingsOk(q, roles, c)
    ensures RingsOk(q', WithHeld(roles, a, b, d), c) && c.taken <= c.posted < c.taken + NUM
  {
    AvailRoom(q, roles, c, a);
    var roles' := WithHeld(roles, a, b, d);
    forall k: nat | c.taken <= k < c.posted
      ensures AvailAt(q', roles', k)
    {
      SlotsDiffer(k, c.posted);
      assert AvailAt(q, roles, k);
    }
    forall k: nat | c.seen <= k < c.done
      ensures UsedAt(q', roles', k)
    {
      assert UsedAt(q, roles, k);
    }
  }

  /** Writing out a request, the ring entry included, shows the device nothing. */
  lemma WriteKeeps<D>(q: Queue, q': Queue, roles: seq<Role>, c: Counts, busy: set<nat>, bufs: map<nat, D>,
                      log: seq<Transfer<D>>,
                      a: nat, b: nat, d: nat, r: Role)
    requires Inv(q, roles, c, busy, bufs, log) && Three(roles, a, b, d) && Written(q, q', a, b, d, r, c.posted)
    requires forall i :: 0 <= i < NUM && roles[i].Head? ==> roles[i].buf != r.buf
    ensures Inv(q', WithHeld(roles, a, b, d), c, busy + {r.buf}, bufs, log)
  {
    hide RingsOk, DescOk;
    var roles' := WithHeld(roles, a, b, d);
    WriteRings(q, q', roles, c, a, b, d, r);
    forall i: nat | i < NUM
      ensures DescOk(q', roles', i) && EntryOk(q', roles'[i], i) && PhaseOk(c, roles'[i], busy + {r.buf}, bufs, log)
    {
      assert DescOk(q, roles, i) && EntryOk(q, roles[i], i) && PhaseOk(c, roles[i], busy, bufs, log);
      if roles[i].Head? && roles[i].phase.Posted? { SlotsDiffer(roles[i].phase.k, c.posted); }
      ChainDescs(q, roles, i);
      WriteDesc(q, q', roles, a, b, d, r, c.posted, i);
    }
  }

  /** The shared memory with one more entry announced. */
  ghost function Announced(q: Queue, posted: nat): Queue {
    Queue(q.free, q.desc, q.ops, q.info, (posted + 1) % WORD, q.avail, q.usedIdx, q.doneIdx, q.used)
  }

  lemma PostRings(q: Queue, roles: seq<Role>, c: Counts, a: nat, b: nat, d: nat, r: Role)
    requires HeldThree(roles, a, b, d) && Ready(q, a, b, d, r, c.posted) && r.phase == Posted(c.posted)
             && RingsOk(q, roles, c)
    ensures RingsOk(Announced(q, c.posted), WithRequest(roles, a, b, d, r),
            Counts(c.posted + 1, c.taken, c.done, c.seen))
  {
    AvailRoom(q, roles, c, a);
    var q', roles', c' := Announced(q, c.posted), WithRequest(roles, a, b, d, r),
        Counts(c.posted + 1, c.taken, c.done, c.seen);
    forall k: nat | c'.taken <= k < c'.posted
      ensures AvailAt(q', roles', k)
    {
      if k < c.posted { assert AvailAt(q, roles, k); }
    }
    forall k: nat | c.seen <= k < c.done
      ensures UsedAt(q', roles', k)
    {
      assert UsedAt(q, roles, k);
    }
  }

  lemma PostDesc(q: Queue, roles: seq<Role>, a: nat, b: nat, d: nat, r: Role, posted: nat, i: nat)
    requires HeldThree(roles, a, b, d) && Ready(q, a, b, d, r, posted) && i < NUM && DescOk(q, roles, i)
    requires DescOk(q, roles, a) && DescOk(q, roles, b) && DescOk(q, roles, d)
    requires roles[i].Head? ==> DescOk(q, roles, roles[i].mid) && DescOk(q, roles, roles[i].tail)
    ensures DescOk(Announced(q, posted), WithRequest(roles, a, b, d, r), i)
  {}

  /** Incrementing the index hands the request to the device. */
  lemma PostKeeps<D>(q: Queue, roles: seq<Role>, c: Counts, busy: set<nat>, bufs: map<nat, D>, log: seq<Transfer<D>>,
                     a: nat, b: nat, d: nat, r: Role)
    requires Inv(q, roles, c, busy, bufs, log) && HeldThree(roles, a, b, d) && Ready(q, a, b, d, r, c.posted)
    requires r.phase == Posted(c.posted) && r.since == |log| && r.buf in bufs && r.buf in busy
    requires forall i :: 0 <= i < NUM && roles[i].Head? ==> roles[i].buf != r.buf
    ensures Inv(Announced(q, c.posted), WithRequest(roles, a, b, d, r),
            Counts(c.posted + 1, c.taken, c.done, c.seen), busy, bufs, log)
  {
    hide RingsOk, DescOk;
    var q', roles', c' := Announced(q, c.posted), WithRequest(roles, a, b, d, r),
        Counts(c.posted + 1, c.taken, c.done, c.seen);
    PostRings(q, roles, c, a, b, d, r);
    InRange(q, roles, c);
    forall i: nat | i < NUM
      ensures DescOk(q', roles', i) && EntryOk(q', roles'[i], i) && PhaseOk(c', roles'[i], busy, bufs, log)
    {
      assert DescOk(q, roles, i) && EntryOk(q, roles[i], i) && PhaseOk(c, roles[i], busy, bufs, log);
      ChainDescs(q, roles, i);
      PostDesc(q, roles, a, b, d, r, c.posted, i);
    }
  }

  lemma InRange(q: Queue, roles: seq<Role>, c: Counts)
    requires Shape(q) && |roles| == NUM && RingsOk(q, roles, c)
    ensures c.taken <= c.posted
  {}

  lemma ChainDescs(q: Queue, roles: seq<Role>, i: nat)
    requires Shape(q) && |roles| == NUM && i < NUM && forall j: nat :: j < NUM ==>
               DescOk(q, roles, j) && EntryOk(q, roles[j], j)
    ensures roles[i].Head? ==>
              roles[i].mid < NUM && roles[i].tail < NUM && DescOk(q, roles, roles[i].mid)
                  && DescOk(q, roles, roles[i].tail)
  {
    assert DescOk(q, roles, i);
  }

  // ----- the device takes and finishes requests -----

  ghost function WithPhase(roles: seq<Role>, h: nat, phase: Phase): seq<Role>
    requires h < |roles| && roles[h].Head?
  {
    var r := roles[h];
    roles[h := Head(r.mid, r.tail, r.buf, r.out, r.sector, r.since, phase)]
  }

  lemma TakeKeeps<D>(q: Queue, roles: seq<Role>, c: Counts, busy: set<nat>, bufs: map<nat, D>,
                     log: seq<Transfer<D>>, h: nat)
    requires Inv(q, roles, c, busy, bufs, log) && c.taken < c.posted && h == q.avail[c.taken % NUM]
    ensures h < NUM && roles[h].Head? && roles[h].phase == Posted(c.taken)
    ensures Inv(q, WithPhase(roles, h, Running), Counts(c.posted, c.taken + 1, c.done, c.seen), busy, bufs, log)
  {
    assert AvailAt(q, roles, c.taken);
    var roles', c' := WithPhase(roles, h, Running), Counts(c.posted, c.taken + 1, c.done, c.seen);
    forall k: nat | c'.taken <= k < c'.posted
      ensures AvailAt(q, roles', k)
    {
      assert AvailAt(q, roles, k);
    }
    forall k: nat | c.seen <= k < c.done
      ensures UsedAt(q, roles', k)
    {
      assert UsedAt(q, roles, k);
    }
    forall i: nat | i < NUM
      ensures DescOk(q, roles', i) && EntryOk(q, roles'[i], i) && PhaseOk(c', roles'[i], busy, bufs, log)
    {
      assert DescOk(q, roles, i) && EntryOk(q, roles[i], i) && PhaseOk(c, roles[i], busy, bufs, log);
    }
  }

  /** n entries of the used ring. */
  ghost function UsedSince(q: Queue, from: nat, n: nat): (s: seq<nat>)
    requires Shape(q)
    ensures |s| == n && forall j :: 0 <= j < n ==> s[j] == q.used[(from + j) % NUM]
  {
    seq(n, j requires 0 <= j < n => q.used[(from + j) % NUM])
  }

  lemma UsedDiffer(q: Queue, roles: seq<Role>, c: Counts, h: nat, i: nat, j: nat)
    requires Shape(q) && |roles| == NUM && RingsOk(q, roles, c) && h < NUM && roles[h].Head? && roles[h].phase.Running?
    requires i < j <= c.done - c.seen
    ensures var a := q.used[(c.seen + i) % NUM];
            a < NUM && (if j < c.done - c.seen then a != q.used[(c.seen + j) % NUM] else a != h)
  {
    assert UsedAt(q, roles, c.seen + i);
    if j < c.done - c.seen { assert UsedAt(q, roles, c.seen + j); }
  }

  lemma UsedRoom(q: Queue, roles: seq<Role>, c: Counts, h: nat)
    requires Shape(q) && |roles| == NUM && RingsOk(q, roles, c) && h < NUM && roles[h].Head? && roles[h].phase.Running?
    ensures c.done < c.seen + NUM
  {
    SeenFirst(q, roles, c);
    hide RingsOk, UsedSince;
    var n := c.done - c.seen;
    var s := UsedSince(q, c.seen, n) + [h];
    forall i, j | 0 <= i < j < |s|
      ensures s[i] != s[j]
    {
      UsedDiffer(q, roles, c, h, i, j);
    }
    forall i | 0 <= i < |s|
      ensures s[i] < NUM
    {
      if i < n { UsedDiffer(q, roles, c, h, i, n); }
    }
    AtMost(s, NUM);
  }

  lemma SeenFirst(q: Queue, roles: seq<Role>, c: Counts)
    requires Shape(q) && |roles| == NUM && RingsOk(q, roles, c)
    ensures c.seen <= c.done
  {}

  /** The shared memory after the device has finished request h. */
  ghost function Finished(q: Queue, h: nat, done: nat): Queue
    requires Shape(q) && h < NUM
  {
    Queue(q.free, q.desc, q.ops, q.info[h := Info(q.info[h].buf, 0)], q.availIdx, q.avail, q.usedIdx,
        (done + 1) % WORD, q.used[done % NUM := h])
  }

  lemma FinishRings(q: Queue, roles: seq<Role>, c: Counts, h: nat, at: nat)
    requires Shape(q) && |roles| == NUM && RingsOk(q, roles, c) && h < NUM && roles[h].Head? && roles[h].phase.Running?
    ensures RingsOk(Finished(q, h, c.done), WithPhase(roles, h, Done(c.done, at)),
            Counts(c.posted, c.taken, c.done + 1, c.seen)) && c.seen <= c.done < c.seen + NUM
  {
    UsedRoom(q, roles, c, h);
    var q', roles', c' := Finished(q, h, c.done), WithPhase(roles, h, Done(c.done, at)),
        Counts(c.posted, c.taken, c.done + 1, c.seen);
    forall k: nat | c.taken <= k < c.posted
      ensures AvailAt(q', roles', k)
    {
      assert AvailAt(q, roles, k);
    }
    forall k: nat | c'.seen <= k < c'.done
      ensures UsedAt(q', roles', k)
    {
      if k < c.done {
        SlotsDiffer(k, c.done);
        assert UsedAt(q, roles, k);
      }
    }
  }

  lemma FinishKeeps<D>(q: Queue, roles: seq<Role>, c: Counts, busy: set<nat>, bufs: map<nat, D>,
                       log: seq<Transfer<D>>, h: nat, data: D)
    requires Inv(q, roles, c, busy, bufs, log) && h < NUM && roles[h].Head? && roles[h].phase.Running?
    ensures var r := roles[h];
            Inv(Finished(q, h, c.done), WithPhase(roles, h, Done(c.done, |log|)),
                Counts(c.posted, c.taken, c.done + 1, c.seen), busy,
                bufs[r.buf := data], log + [Transfer(r.out, r.sector, data)])
  {
    hide RingsOk;
    var q', roles', c' := Finished(q, h, c.done), WithPhase(roles, h, Done(c.done, |log|)),
        Counts(c.posted, c.taken, c.done + 1, c.seen);
    var r := roles[h];
    FinishRings(q, roles, c, h, |log|);
    assert DescOk(q, roles, h);
    forall i: nat | i < NUM
      ensures DescOk(q', roles', i) && EntryOk(q', roles'[i], i)
              && PhaseOk(c', roles'[i], busy, bufs[r.buf := data], log + [Transfer(r.out, r.sector, data)])
    {
      assert DescOk(q, roles, i) && EntryOk(q, roles[i], i) && PhaseOk(c, roles[i], busy, bufs, log);
      if i != h && roles[i].Head? && roles[i].phase.Done? { SlotsDiffer(roles[i].phase.k, c.done); }
    }
  }

  /** The chain of a request, as the device follows it from its head. */
  lemma DeviceView<D>(q: Queue, roles: seq<Role>, c: Counts, busy: set<nat>, bufs: map<nat, D>,
                      log: seq<Transfer<D>>, h: nat)
    requires Inv(q, roles, c, busy, bufs, log) && h < NUM && roles[h].Head?
    ensures var r, d0 := roles[h], q.desc[h];
            && d0 == Desc(Header(h), false, true, r.mid) && r.mid < NUM
                && q.desc[r.mid] == Desc(Data(r.buf), !r.out, true, r.tail)
            && r.tail < NUM && q.desc[r.tail] == Desc(Status(h), true, false, 0) && q.ops[h] == Op(r.out, r.sector)
                && r.buf in bufs
            && q.info[h].buf == Some(r.buf)
  {
    assert DescOk(q, roles, h) && PhaseOk(c, roles[h], busy, bufs, log);
  }

  // ----- the interrupt handler and the end of a request -----

  ghost function Noticed(q: Queue, seen: nat): Queue {
    Queue(q.free, q.desc, q.ops, q.info, q.availIdx, q.avail, (seen + 1) % WORD, q.doneIdx, q.used)
  }

  lemma SeeRings(q: Queue, roles: seq<Role>, c: Counts)
    requires Shape(q) && |roles| == NUM && RingsOk(q, roles, c) && c.seen < c.done
    ensures var h := q.used[c.seen % NUM];
            && h < NUM && roles[h].Head? && roles[h].phase.Done? && roles[h].phase.k == c.seen
            && RingsOk(Noticed(q, c.seen), WithPhase(roles, h, Seen(roles[h].phase.at)),
                Counts(c.posted, c.taken, c.done, c.seen + 1))
  {
    assert UsedAt(q, roles, c.seen);
    var h := q.used[c.seen % NUM];
    var q', roles' := Noticed(q, c.seen), WithPhase(roles, h, Seen(roles[h].phase.at));
    forall k: nat | c.taken <= k < c.posted
      ensures AvailAt(q', roles', k)
    {
      assert AvailAt(q, roles, k);
    }
    forall k: nat | c.seen + 1 <= k < c.done
      ensures UsedAt(q', roles', k)
    {
      assert UsedAt(q, roles, k);
    }
  }

  lemma SeeKeeps<D>(q: Queue, roles: seq<Role>, c: Counts, busy: set<nat>, bufs: map<nat, D>, log: seq<Transfer<D>>)
    requires Inv(q, roles, c, busy, bufs, log) && c.seen < c.done
    ensures var h := q.used[c.seen % NUM];
            && h < NUM && roles[h].Head? && roles[h].phase.Done? && q.info[h] == Info(Some(roles[h].buf), 0)
            && Inv(Noticed(q, c.seen), WithPhase(roles, h, Seen(roles[h].phase.at)),
                Counts(c.posted, c.taken, c.done, c.seen + 1),
                   busy - {roles[h].buf}, bufs, log)
  {
    hide RingsOk;
    SeeRings(q, roles, c);
    var h := q.used[c.seen % NUM];
    var r := roles[h];
    var q', roles', c' := Noticed(q, c.seen), WithPhase(roles, h, Seen(r.phase.at)),
        Counts(c.posted, c.taken, c.done, c.seen + 1);
    assert DescOk(q, roles, h);
    forall i: nat | i < NUM
      ensures DescOk(q', roles', i) && EntryOk(q', roles'[i], i) && PhaseOk(c', roles'[i], busy - {r.buf}, bufs, log)
    {
      assert DescOk(q, roles, i) && EntryOk(q, roles[i], i) && PhaseOk(c, roles[i], busy, bufs, log);
      SeeOne(q, roles, c, h, i);
    }
  }

  /** The entry noticed was this request's alone. */
  lemma SeeOne(q: Queue, roles: seq<Role>, c: Counts, h: nat, i: nat)
    requires Shape(q) && |roles| == NUM && h < NUM && i < NUM && h == q.used[c.seen % NUM] && EntryOk(q, roles[i], i)
    ensures i != h && roles[i].Head? && roles[i].phase.Done? ==> roles[i].phase.k != c.seen
  {}

  /** The shared memory after the request's three descriptors have been given back. */
  ghost predicate GivenBack(q: Queue, q': Queue, h: nat, m: nat, t: nat) {
    && Shape(q) && Shape(q')
    && (forall i :: 0 <= i < NUM ==> q'.free[i] == (q.free[i] || i == h || i == m || i == t))
    && (forall i :: 0 <= i < NUM && i != h && i != m && i != t ==> q'.desc[i] == q.desc[i] && q'.info[i] == q.info[i])
    && q'.ops == q.ops && q'.availIdx == q.availIdx && q'.avail == q.avail
    && q'.used == q.used && q'.usedIdx == q.usedIdx && q'.doneIdx == q.doneIdx
  }

  ghost function Without(roles: seq<Role>, h: nat): seq<Role>
    requires |roles| == NUM && h < NUM && roles[h].Head? && roles[h].mid < NUM && roles[h].tail < NUM
  {
    roles[h := Free][roles[h].mid := Free][roles[h].tail := Free]
  }

  lemma GiveBackRings(q: Queue, q': Queue, roles: seq<Role>, c: Counts, h: nat)
    requires Shape(q) && |roles| == NUM && RingsOk(q, roles, c) && h < NUM && roles[h].Head? && roles[h].phase.Seen?
    requires roles[h].mid < NUM && roles[h].tail < NUM && !roles[roles[h].mid].Head? && !roles[roles[h].tail].Head?
    requires GivenBack(q, q', h, roles[h].mid, roles[h].tail)
    ensures RingsOk(q', Without(roles, h), c)
  {
    var roles' := Without(roles, h);
    forall k: nat | c.taken <= k < c.posted
      ensures AvailAt(q', roles', k)
    {
      assert AvailAt(q, roles, k);
    }
    forall k: nat | c.seen <= k < c.done
      ensures UsedAt(q', roles', k)
    {
      assert UsedAt(q, roles, k);
    }
  }

  lemma GiveBackKeeps<D>(q: Queue, q': Queue, roles: seq<Role>, c: Counts, busy: set<nat>, bufs: map<nat, D>,
                         log: seq<Transfer<D>>, h: nat)
    requires Inv(q, roles, c, busy, bufs, log) && h < NUM && roles[h].Head? && roles[h].phase.Seen?
             && roles[h].mid < NUM && roles[h].tail < NUM
    requires GivenBack(q, q', h, roles[h].mid, roles[h].tail)
    ensures Inv(q', Without(roles, h), c, busy, bufs, log)
  {
    hide RingsOk;
    var roles' := Without(roles, h);
    assert DescOk(q, roles, h);
    GiveBackRings(q, q', roles, c, h);
    forall i: nat | i < NUM
      ensures DescOk(q', roles', i) && EntryOk(q', roles'[i], i) && PhaseOk(c, roles'[i], busy, bufs, log)
    {
      assert DescOk(q, roles, i) && EntryOk(q, roles[i], i) && PhaseOk(c, roles[i], busy, bufs, log);
      ChainDescs(q, roles, i);
    }
  }

  /** Descriptors not in use may be scribbled on. */
  ghost predicate SameUsed(q: Queue, q': Queue) {
    && Shape(q) && Shape(q') && q' == Queue(q.free, q'.desc, q.ops, q.info, q.availIdx, q.avail, q.usedIdx,
        q.doneIdx, q.used)
    && forall i :: 0 <= i < NUM && !q.free[i] ==> q'.desc[i] == q.desc[i]
  }

  lemma SameUsedKeeps<D>(q: Queue, q': Queue, roles: seq<Role>, c: Counts, busy: set<nat>, bufs: map<nat, D>,
                         log: seq<Transfer<D>>)
    requires Inv(q, roles, c, busy, bufs, log) && SameUsed(q, q')
    ensures Inv(q', roles, c, busy, bufs, log)
  {
    forall k: nat | c.taken <= k < c.posted
      ensures AvailAt(q', roles, k)
    {
      assert AvailAt(q, roles, k);
    }
    forall k: nat | c.seen <= k < c.done
      ensures UsedAt(q', roles, k)
    {
      assert UsedAt(q, roles, k);
    }
    forall i: nat | i < NUM
      ensures DescOk(q', roles, i) && EntryOk(q', roles[i], i)
    {
      assert DescOk(q, roles, i) && EntryOk(q, roles[i], i);
      ChainDescs(q, roles, i);
    }
  }

  // ----- how requests move on -----

  /** Later in the life of a request; a transfer once made stays the same. */
  ghost predicate Later(p: Phase, p': Phase) {
    match p
    case Posted(_) => p'.Posted? ==> p' == p
    case Running => !p'.Posted?
    case Done(_, at) => p' == p || p' == Seen(at)
    case Seen(_) => p' == p
  }

  /** The same descriptor role, with its request at the same point or a later one. */
  ghost predicate Onward(r: Role, r': Role) {
    if r.Head?
    then r'.Head? && r' == Head(r.mid, r.tail, r.buf, r.out, r.sector, r.since, r'.phase) && Later(r.phase, r'.phase)
    else r' == r
  }

  ghost predicate AllOnward(roles: seq<Role>, roles': seq<Role>) {
    |roles| == |roles'| == NUM && forall i :: 0 <= i < NUM ==> Onward(roles[i], roles'[i])
  }

  lemma OnwardTwice(r0: seq<Role>, r1: seq<Role>, r2: seq<Role>)
    requires AllOnward(r0, r1) && AllOnward(r1, r2)
    ensures AllOnward(r0, r2)
  {
    forall i | 0 <= i < NUM
      ensures Onward(r0[i], r2[i])
    {
      assert Onward(r0[i], r1[i]) && Onward(r1[i], r2[i]);
    }
  }

  lemma OnwardOne(roles: seq<Role>, h: nat, phase: Phase)
    requires |roles| == NUM && h < NUM && roles[h].Head? && Later(roles[h].phase, phase)
    ensures AllOnward(roles, WithPhase(roles, h, phase))
  {}

  /** What the device leaves alone: everything the driver writes, and the entries of descriptors that
      are not heads. */
  ghost predicate DeviceOnly(q: Queue, q': Queue, roles: seq<Role>) {
    && Shape(q) && Shape(q') && |roles| == NUM
    && q'.free == q.free && q'.desc == q.desc && q'.ops == q.ops && q'.avail == q.avail
    && q'.availIdx == q.availIdx && q'.usedIdx == q.usedIdx
    && forall i :: 0 <= i < NUM && !roles[i].Head? ==> q'.info[i] == q.info[i]
  }

  /** A step of the device: take the next available entry, or finish a request it has taken. */
  datatype Act = Takes | Finishes(h: nat)

  // ----- the driver -----

  /** disk.free[] with three entries cleared. */
  ghost predicate Claimed(f: seq<bool>, f': seq<bool>, a: nat, b: nat, d: nat) {
    && |f| == NUM && a < NUM && b < NUM && d < NUM && a != b && a != d && b != d
    && f[a] && f[b] && f[d] && f' == f[a := false][b := false][d := false]
  }

  /** Fewer than three entries of disk.free[] are set. */
  ghost predicate TooFew(f: seq<bool>) {
    |f| == NUM && forall a: nat, b: nat, d: nat :: a < b < d < NUM ==> !(f[a] && f[b] && f[d])
  }

  ghost predicate NoThree(roles: seq<Role>) { forall a: nat, b: nat, d: nat :: !Three(roles, a, b, d) }

  lemma AllTaken(f: seq<bool>, idx: seq<nat>)
    requires |f| == NUM && |idx| < 3 && forall x: nat :: x < NUM && f[x] ==> x in idx
    ensures TooFew(f)
  {}

  lemma TooFewRoles(f: seq<bool>, roles: seq<Role>)
    requires TooFew(f) && |roles| == NUM && forall i: nat :: i < NUM ==> (f[i] <==> roles[i].Free?)
    ensures NoThree(roles)
  {}

  ghost predicate RunningOk(roles: seq<Role>, running: set<nat>) {
    forall h: nat :: h in running <==> h < |roles| && roles[h].Head? && roles[h].phase.Running?
  }

  ghost predicate Sectors(roles: seq<Role>, sectors: set<nat>) {
    forall i :: 0 <= i < |roles| && roles[i].Head? ==> roles[i].sector in sectors
  }

  class Disk<D(!new)> {
    var q: Queue
    /** Buffers whose `disk` field is 1, buffers' data, and the device's blocks. */
    var busy: set<nat>
    var bufs: map<nat, D>
    var store: map<nat, D>
    /** The device's own place in the available ring. */
    var lastAvail: nat
    /** The requests it has taken and not finished. */
    var running: set<nat>
    ghost var roles: seq<Role>
    ghost var c: Counts
    ghost var log: seq<Transfer<D>>

    ghost predicate Valid()
      reads this
    {
      && Inv(q, roles, c, busy, bufs, log) && lastAvail == c.taken % WORD && Sectors(roles, store.Keys)
          && RunningOk(roles, running)
    }

    /** virtio_disk_init: all descriptors free, both rings empty. */
    constructor (bufs: map<nat, D>, store: map<nat, D>)
      ensures Valid() && busy == {} && this.bufs == bufs && this.store == store && log == []
      ensures forall i :: 0 <= i < NUM ==> roles[i].Free?
    {
      hide Inv;
      var none := Desc(Nowhere, false, false, 0);
      var op, info := Op(false, 0), Info(None, 0);
      q := Queue([true, true, true, true, true, true, true, true], [none, none, none, none, none, none, none, none],
                 [op, op, op, op, op, op, op, op], [info, info, info, info, info, info, info, info],
                 0, [0, 0, 0, 0, 0, 0, 0, 0], 0, 0, [0, 0, 0, 0, 0, 0, 0, 0]);
      busy, lastAvail, running := {}, 0, {};
      this.bufs, this.store := bufs, store;
      roles, c, log := [Free, Free, Free, Free, Free, Free, Free, Free], Counts(0, 0, 0, 0), [];
      new;
      EmptyInv(q, roles, bufs);
    }

    /** alloc_desc: the first free descriptor, now in use. */
    method AllocDesc() returns (r: Option<nat>)
      requires Shape(q)
      modifies this`q
      ensures r.None? ==> q == old(q) && forall i :: 0 <= i < NUM ==> !q.free[i]
      ensures r.Some? ==> r.value < NUM && old(q).free[r.value] && q == old(q).(free := old(q).free[r.value := false])
      ensures r.Some? ==> forall i :: 0 <= i < r.value ==> !old(q).free[i]
    {
      var i := 0;
      while i < NUM
        invariant 0 <= i <= NUM && q == old(q) && forall j :: 0 <= j < i ==> !q.free[j]
      {
        if q.free[i] {
          q := q.(free := q.free[i := false]);
          return Some(i);
        }
        i := i + 1;
      }
      return None;
    }

    /** free_desc: never called on a free descriptor. */
    method FreeDesc(i: nat)
      requires Shape(q) && i < NUM && !q.free[i]
      modifies this`q
      ensures q == old(q).(free := old(q).free[i := true], desc := old(q).desc[i := Desc(Nowhere, false, false, 0)])
    {
      q := q.(desc := q.desc[i := Desc(Nowhere, false, false, 0)]);
      q := q.(free := q.free[i := true]);
    }

    /** q0 with the descriptors idx claimed. */
    ghost predicate Taking(idx: seq<nat>, q0: Queue)
      reads this`q
    {
      && Shape(q) && Shape(q0) && q == q0.(free := q.free, desc := q.desc)
      && (forall j :: 0 <= j < |idx| ==> idx[j] < NUM && q0.free[idx[j]])
      && (forall j, k :: 0 <= j < k < |idx| ==> idx[j] != idx[k])
      && (forall x :: 0 <= x < NUM ==> q.free[x] == (q0.free[x] && x !in idx))
      && (forall x :: 0 <= x < NUM && !q0.free[x] ==> q.desc[x] == q0.desc[x])
    }

    /** The failure path of alloc3_desc. */
    method Undo(idx: seq<nat>, ghost q0: Queue)
      requires Taking(idx, q0)
      modifies this`q
      ensures SameUsed(q0, q)
    {
      var j := 0;
      while j < |idx|
        invariant 0 <= j <= |idx| && Taking(idx[j..], q0)
      {
        assert idx[j..] == [idx[j]] + idx[j + 1..];
        FreeDesc(idx[j]);
        j := j + 1;
      }
      assert q.free == q0.free;
    }

    /** alloc3_desc: three descriptors, or none, when fewer than three are free, with the free ones as before. */
    method Alloc3() returns (r: Option<(nat, nat, nat)>)
      requires Shape(q)
      modifies this`q
      ensures r.Some? ==> Claimed(old(q).free, q.free, r.value.0, r.value.1, r.value.2) && q == old(q).(free := q.free)
      ensures r.None? ==> SameUsed(old(q), q) && TooFew(old(q).free)
    {
      hide TooFew;
      var idx: seq<nat> := [];
      var i := 0;
      while i < 3
        invariant 0 <= i <= 3 && |idx| == i && Taking(idx, old(q)) && q.desc == old(q).desc
      {
        var d := AllocDesc();
        if d.None? {
          AllTaken(old(q).free, idx);
          Undo(idx, old(q));
          return None;
        }
        idx := idx + [d.value];
        i := i + 1;
      }
      assert idx == [idx[0], idx[1], idx[2]];
      assert q.free == old(q).free[idx[0] := false][idx[1] := false][idx[2] := false];
      return Some((idx[0], idx[1], idx[2]));
    }

    /** Formats a request on three claimed descriptors and stores its head in the available ring. */
    method Format(buf: nat, out: bool, sector: nat, a: nat, b: nat, d: nat, ghost q0: Queue)
      requires Shape(q0) && Claimed(q0.free, q.free, a, b, d) && q == q0.(free := q.free)
               && q0.availIdx == c.posted % WORD
      modifies this`q
      ensures Written(q0, q, a, b, d, Head(b, d, buf, out, sector, 0, Running), c.posted)
    {
      q := q.(ops := q.ops[a := Op(out, sector)]);
      q := q.(desc := q.desc[a := Desc(Header(a), false, true, b)]);
      q := q.(desc := q.desc[b := Desc(Data(buf), !out, true, d)]);
      q := q.(info := q.info[a := Info(q.info[a].buf, 0xff)]);
      q := q.(desc := q.desc[d := Desc(Status(a), true, false, 0)]);
      q := q.(info := q.info[a := Info(Some(buf), q.info[a].status)]);
      IndexWraps(c.posted);
      q := q.(avail := q.avail[q.availIdx % NUM := a]);
    }

    /** virtio_disk_rw up to the first barrier: the request is written out, and the device has not
        been told of it. */
    method Prepare(buf: nat, out: bool, sector: nat) returns (r: Option<(nat, nat, nat)>)
      requires Valid() && buf in bufs && sector in store && forall i :: 0 <= i < NUM && roles[i].Head? ==>
                 roles[i].buf != buf
      modifies this`q, this`busy, this`roles
      ensures Valid()
      ensures r.None? ==> busy == old(busy) && roles == old(roles)
      ensures r.None? <==> NoThree(old(roles))
      ensures r.Some? ==> var (a, b, d) := r.value;
                && Three(old(roles), a, b, d) && roles == WithHeld(old(roles), a, b, d) && busy == old(busy) + {buf}
                && Ready(q, a, b, d, Head(b, d, buf, out, sector, 0, Running), c.posted)
    {
      hide Inv, Written, SameUsed;
      Facts(q, roles, c, busy, bufs, log);
      r := Alloc3();
      if r.None? {
        SameUsedKeeps(old(q), q, roles, c, busy, bufs, log);
        TooFewRoles(old(q).free, roles);
        return;
      }
      var (a, b, d) := r.value;
      Format(buf, out, sector, a, b, d, old(q));
      ghost var h := Head(b, d, buf, out, sector, 0, Running);
      WrittenReady(old(q), q, a, b, d, h, c.posted);
      WriteKeeps(old(q), q, roles, c, busy, bufs, log, a, b, d, h);
      busy := busy + {buf};
      roles := WithHeld(roles, a, b, d);
    }

    /** The index increment: the request is the device's. */
    method Announce(ghost a: nat, ghost b: nat, ghost d: nat, ghost buf: nat, ghost out: bool, ghost sector: nat)
      requires Valid() && HeldThree(roles, a, b, d)
               && Ready(q, a, b, d, Head(b, d, buf, out, sector, 0, Running), c.posted)
      requires buf in bufs && buf in busy && sector in store
      requires forall i :: 0 <= i < NUM && roles[i].Head? ==> roles[i].buf != buf
      modifies this`q, this`roles, this`c
      ensures Valid() && c == Counts(old(c).posted + 1, old(c).taken, old(c).done, old(c).seen)
      ensures roles == WithRequest(old(roles), a, b, d, Head(b, d, buf, out, sector, |log|, Posted(old(c).posted)))
    {
      hide Inv;
      Facts(q, roles, c, busy, bufs, log);
      ghost var h := Head(b, d, buf, out, sector, |log|, Posted(c.posted));
      PostKeeps(q, roles, c, busy, bufs, log, a, b, d, h);
      IndexNext(c.posted);
      q := q.(availIdx := (q.availIdx + 1) % WORD);
      roles, c := WithRequest(roles, a, b, d, h), Counts(c.posted + 1, c.taken, c.done, c.seen);
    }

    /** virtio_disk_rw from taking the lock to its first sleep: waiting for descriptors (None), if fewer than three
        are free, or
        for the posted request, whose first descriptor is returned.  `acts` is what the device does
        between the store of the ring entry and the increment of the index. */
    method Submit(buf: nat, out: bool, sector: nat, acts: seq<Act>) returns (r: Option<nat>)
      requires Valid() && buf in bufs && sector in store && forall i :: 0 <= i < NUM && roles[i].Head? ==>
                 roles[i].buf != buf
      modifies this
      ensures Valid() && (forall i :: 0 <= i < NUM && old(roles[i]).Head? ==> Onward(old(roles[i]), roles[i]))
      ensures r.None? ==> busy == old(busy) && roles == old(roles) && c == old(c)
      ensures r.None? <==> NoThree(old(roles))
      ensures r.Some? ==>
                r.value < NUM && old(roles[r.value]).Free? && roles[r.value].Head? && busy == old(busy) + {buf}
      ensures r.Some? ==>
                var h := roles[r.value]; h == Head(h.mid, h.tail, buf, out, sector, |log|, Posted(old(c).posted))
    {
      hide Inv, Ready, NoThree;
      Facts(q, roles, c, busy, bufs, log);
      var idx := Prepare(buf, out, sector);
      if idx.None? {
        return None;
      }
      var (a, b, d) := idx.value;
      ghost var q1, roles1 := q, roles;
      DeviceActs(acts);
      StillReady(q1, q, roles1, a, b, d, Head(b, d, buf, out, sector, 0, Running), c.posted);
      StillApart(roles1, roles, a, b, d, buf);
      Announce(a, b, d, buf, out, sector);
      return Some(a);
    }

    /** free_chain: follows the chain of a request and frees its three descriptors. */
    method FreeChain(h: nat, ghost m: nat, ghost t: nat)
      requires Shape(q) && h < NUM && m < NUM && t < NUM && h != m && h != t && m != t && !q.free[h] && !q.free[m]
               && !q.free[t]
      requires q.desc[h].more && q.desc[h].next == m && q.desc[m].more && q.desc[m].next == t && !q.desc[t].more
      modifies this`q
      ensures GivenBack(old(q), q, h, m, t)
    {
      var i := h;
      ghost var n := 0;
      while true
        invariant Shape(q) && 0 <= n <= 2 && i == [h, m, t][n] && q == old(q).(free := q.free, desc := q.desc)
        invariant forall x :: 0 <= x < NUM ==> q.free[x] == (old(q).free[x] || (x == h && n > 0) || (x == m && n > 1))
        invariant forall x :: 0 <= x < NUM && (x != h || n == 0) && (x != m || n <= 1) ==> q.desc[x] == old(q).desc[x]
        decreases 2 - n
      {
        var more, next := q.desc[i].more, q.desc[i].next;
        FreeDesc(i);
        if !more {
          break;
        }
        i := next;
        n := n + 1;
      }
    }

    /** virtio_disk_rw after waking up: back to sleep while the buffer is busy; otherwise the
        descriptors go back and the call returns.  It returns only when the device has carried out
        this very request since it was posted. */
    method Finish(h: nat, buf: nat) returns (done: bool)
      requires Valid() && h < NUM && roles[h].Head? && roles[h].buf == buf
      modifies this`q, this`roles
      ensures Valid() && done == (buf !in busy)
      ensures !done ==> q == old(q) && roles == old(roles)
      ensures done ==> roles[h].Free? && forall i :: 0 <= i < NUM && i != h && old(roles[i]).Head? ==>
                roles[i] == old(roles[i])
      ensures done ==> var r := old(roles[h]); r.mid < NUM && r.tail < NUM && roles[r.mid].Free? && roles[r.tail].Free?
      ensures done ==> var r := old(roles[h]);
                       exists at: nat :: r.since <= at < |log| && log[at] == Transfer(r.out, r.sector, bufs[buf])
    {
      hide Inv, GivenBack;
      if buf in busy {
        return false;
      }
      Facts(q, roles, c, busy, bufs, log);
      HeadFacts(q, roles, c, busy, bufs, log, h);
      ghost var r := roles[h];
      q := q.(info := q.info[h := Info(None, q.info[h].status)]);
      ghost var q1 := q;
      FreeChain(h, r.mid, r.tail);
      GivenBackFrom(old(q), q1, q, h, r.mid, r.tail);
      GiveBackKeeps(old(q), q, roles, c, busy, bufs, log, h);
      roles := Without(roles, h);
      return true;
    }

    /** One round of virtio_disk_intr's loop, or its end.  A status other than 0 would be a panic; the
        device reports 0. */
    method IntrRound() returns (more: bool)
      requires Valid()
      modifies this`q, this`busy, this`roles, this`c
      ensures Valid() && more == (old(c).seen < old(c).done) && AllOnward(old(roles), roles)
      ensures !more ==> q == old(q) && busy == old(busy) && roles == old(roles) && c == old(c)
      ensures more ==> c == Counts(old(c).posted, old(c).taken, old(c).done, old(c).seen + 1)
    {
      hide Inv, AllOnward;
      Facts(q, roles, c, busy, bufs, log);
      SameOnward(roles);
      IndexTest(c.seen, c.done);
      if q.usedIdx == q.doneIdx {
        return false;
      }
      IndexWraps(c.seen);
      SeeKeeps(q, roles, c, busy, bufs, log);
      var id := q.used[q.usedIdx % NUM];
      if q.info[id].status != 0 {
        assert false;
      }
      IndexNext(c.seen);
      busy := busy - {q.info[id].buf.value};
      q := q.(usedIdx := (q.usedIdx + 1) % WORD);
      OnwardOne(roles, id, Seen(roles[id].phase.at));
      roles, c := WithPhase(roles, id, Seen(roles[id].phase.at)), Counts(c.posted, c.taken, c.done, c.seen + 1);
      more := true;
    }

    /** virtio_disk_intr, with the device adding used entries between its rounds: it stops only when
        every finished request has been noticed, also one finished meanwhile. */
    method Intr(acts: seq<Act>)
      requires Valid()
      modifies this
      ensures Valid() && c.seen == c.done && AllOnward(old(roles), roles)
      ensures forall i :: 0 <= i < NUM && roles[i].Head? ==>
                !roles[i].phase.Done? && (roles[i].buf in busy <==> !roles[i].phase.Seen?)
      ensures |old(roles)| == NUM && forall i :: 0 <= i < NUM && old(roles)[i].Head? && old(roles)[i].phase.Done? ==>
                roles[i].phase == Seen(old(roles)[i].phase.at)
    {
      hide Inv, AllOnward, Later;
      Facts(q, roles, c, busy, bufs, log);
      SameOnward(roles);
      var k := 0;
      var more := true;
      while more
        invariant 0 <= k <= |acts| && Valid() && AllOnward(old(roles), roles) && (!more ==> c.seen == c.done)
                  && c.seen <= c.done
        decreases |acts| - k, if more then 1 else 0, c.done - c.seen
      {
        var now: nat :| k <= now <= |acts|;
        ghost var roles1, k0, left := roles, k, c.done - c.seen;
        DeviceActs(acts[k..now]);
        OnwardTwice(old(roles), roles1, roles);
        k := now;
        ghost var roles2 := roles;
        more := IntrRound();
        OnwardTwice(old(roles), roles2, roles);
        Facts(q, roles, c, busy, bufs, log);
      }
      AllSeen(q, roles, c, busy, bufs, log);
      DoneSeen(old(roles), roles);
    }

    /** The device goes through some steps, leaving out those it cannot take. */
    method DeviceActs(acts: seq<Act>)
      requires Valid()
      modifies this`q, this`bufs, this`store, this`lastAvail, this`running, this`roles, this`c, this`log
      ensures Valid() && AllOnward(old(roles), roles) && DeviceOnly(old(q), q, old(roles)) && old(log) <= log
      ensures c.posted == old(c).posted && c.seen == old(c).seen && c.done >= old(c).done
      ensures acts == [] ==> c == old(c)
      ensures bufs.Keys == old(bufs.Keys) && store.Keys == old(store.Keys)
    {
      hide Inv, AllOnward, DeviceOnly;
      Facts(q, roles, c, busy, bufs, log);
      SameOnward(roles);
      SameDevice(q, roles);
      for k := 0 to |acts|
        invariant Valid() && AllOnward(old(roles), roles) && DeviceOnly(old(q), q, old(roles)) && old(log) <= log
        invariant c.posted == old(c).posted && c.seen == old(c).seen && c.done >= old(c).done
                  && (k == 0 ==> c == old(c))
        invariant bufs.Keys == old(bufs.Keys) && store.Keys == old(store.Keys)
      {
        ghost var q1, roles1 := q, roles;
        DeviceAct(acts[k]);
        DeviceTwice(old(q), old(roles), q1, roles1, q);
        OnwardTwice(old(roles), roles1, roles);
      }
    }

    method DeviceAct(act: Act)
      requires Valid()
      modifies this`q, this`bufs, this`store, this`lastAvail, this`running, this`roles, this`c, this`log
      ensures Valid() && AllOnward(old(roles), roles) && DeviceOnly(old(q), q, old(roles)) && old(log) <= log
      ensures c.posted == old(c).posted && c.seen == old(c).seen && c.done >= old(c).done
      ensures bufs.Keys == old(bufs.Keys) && store.Keys == old(store.Keys)
    {
      hide Inv, AllOnward;
      Facts(q, roles, c, busy, bufs, log);
      SameOnward(roles);
      SameDevice(q, roles);
      match act
      case Takes =>
        if lastAvail != q.availIdx {
          TakenTest(q, roles, c, busy, bufs, log, lastAvail);
          var h := DeviceTakes();
          OnwardOne(old(roles), h, Running);
        }
      case Finishes(h) =>
        if h in running {
          DeviceFinishes(h);
          OnwardOne(old(roles), h, Done(old(c).done, |old(log)|));
        }
    }

    /** The device takes the next entry of the available ring. */
    method DeviceTakes() returns (h: nat)
      requires Valid() && c.taken < c.posted
      modifies this`lastAvail, this`running, this`roles, this`c
      ensures Valid() && h < NUM && old(roles[h]).Head? && old(roles[h]).phase == Posted(old(c).taken)
      ensures roles == WithPhase(old(roles), h, Running)
              && c == Counts(old(c).posted, old(c).taken + 1, old(c).done, old(c).seen)
    {
      hide Inv;
      Facts(q, roles, c, busy, bufs, log);
      IndexWraps(c.taken);
      IndexNext(c.taken);
      h := q.avail[lastAvail % NUM];
      lastAvail := (lastAvail + 1) % WORD;
      running := running + {h};
      TakeKeeps(q, roles, c, busy, bufs, log, h);
      roles, c := WithPhase(roles, h, Running), Counts(c.posted, c.taken + 1, c.done, c.seen);
    }

    /** The device carries out a request it has taken, as its descriptors say, and puts it on the
        used ring. */
    method DeviceFinishes(h: nat)
      requires Valid() && h in running
      modifies this`q, this`bufs, this`store, this`running, this`roles, this`c, this`log
      ensures Valid() && c == Counts(old(c).posted, old(c).taken, old(c).done + 1, old(c).seen)
      ensures h < NUM == |old(roles)| && old(roles[h]).Head? && old(roles[h]).phase.Running?
      ensures roles == WithPhase(old(roles), h, Done(old(c).done, |old(log)|)) && DeviceOnly(old(q), q, old(roles))
      ensures var r := old(roles[h]);
              && r.buf in old(bufs) && r.buf in bufs && r.sector in old(store)
              && log == old(log) + [Transfer(r.out, r.sector, bufs[r.buf])]
              && store == (if r.out then old(store)[r.sector := old(bufs)[r.buf]] else old(store))
              && bufs == (if r.out then old(bufs) else old(bufs)[r.buf := old(store)[r.sector]])
    {
      hide Inv, Sectors, RunningOk, DeviceOnly;
      IsRunning(roles, running, h);
      RunningLess(roles, running, h, c.done, |log|, store.Keys);
      Facts(q, roles, c, busy, bufs, log);
      DeviceView(q, roles, c, busy, bufs, log, h);
      FinishedOnly(q, roles, h, c.done);
      var d0 := q.desc[h];
      var d1 := q.desc[d0.next];
      var d2 := q.desc[d1.next];
      var op, buf := q.ops[d0.addr.i], d1.addr.buf;
      var data := if op.out then bufs[buf] else store[op.sector];
      FinishKeeps(q, roles, c, busy, bufs, log, h, data);
      if op.out {
        store := store[op.sector := data];
      }
      assert bufs[buf := data] == if op.out then bufs else bufs[buf := data];
      bufs := bufs[buf := data];
      var i := d2.addr.i;
      IndexWraps(c.done);
      IndexNext(c.done);
      q := q.(info := q.info[i := Info(q.info[i].buf, 0)]);
      q := q.(used := q.used[q.doneIdx % NUM := h]);
      q := q.(doneIdx := (q.doneIdx + 1) % WORD);
      log := log + [Transfer(op.out, op.sector, data)];
      running := running - {h};
      assert store.Keys == old(store.Keys);
      roles, c := WithPhase(roles, h, Done(c.done, |old(log)|)), Counts(c.posted, c.taken, c.done + 1, c.seen);
    }
  }

  // ----- facts the methods use -----

  lemma IsRunning(roles: seq<Role>, running: set<nat>, h: nat)
    requires RunningOk(roles, running) && h in running
    ensures h < |roles| && roles[h].Head? && roles[h].phase.Running?
  {}

  lemma RunningLess(roles: seq<Role>, running: set<nat>, h: nat, k: nat, at: nat, sectors: set<nat>)
    requires RunningOk(roles, running) && Sectors(roles, sectors) && h in running && h < |roles| && roles[h].Head?
    ensures RunningOk(WithPhase(roles, h, Done(k, at)), running - {h})
            && Sectors(WithPhase(roles, h, Done(k, at)), sectors)
    ensures roles[h].sector in sectors
  {}

  lemma FinishedOnly(q: Queue, roles: seq<Role>, h: nat, done: nat)
    requires Shape(q) && |roles| == NUM && h < NUM && roles[h].Head?
    ensures DeviceOnly(q, Finished(q, h, done), roles)
  {}

  lemma GivenBackFrom(q0: Queue, q1: Queue, q2: Queue, h: nat, m: nat, t: nat)
    requires Shape(q0) && h < NUM && q1 == q0.(info := q0.info[h := Info(None, q0.info[h].status)])
             && GivenBack(q1, q2, h, m, t)
    ensures GivenBack(q0, q2, h, m, t)
  {}

  lemma SameOnward(roles: seq<Role>)
    requires |roles| == NUM
    ensures AllOnward(roles, roles)
  {}

  lemma SameDevice(q: Queue, roles: seq<Role>)
    requires Shape(q) && |roles| == NUM
    ensures DeviceOnly(q, q, roles)
  {}

  lemma DeviceTwice(q0: Queue, roles0: seq<Role>, q1: Queue, roles1: seq<Role>, q2: Queue)
    requires DeviceOnly(q0, q1, roles0) && AllOnward(roles0, roles1) && DeviceOnly(q1, q2, roles1)
    ensures DeviceOnly(q0, q2, roles0)
  {
    assert forall i :: 0 <= i < NUM && !roles0[i].Head? ==> Onward(roles0[i], roles1[i]);
  }

  lemma TakenTest<D>(q: Queue, roles: seq<Role>, c: Counts, busy: set<nat>, bufs: map<nat, D>,
                     log: seq<Transfer<D>>, last: nat)
    requires Inv(q, roles, c, busy, bufs, log) && last == c.taken % WORD && last != q.availIdx
    ensures c.taken < c.posted
  {}

  lemma DoneSeen(roles: seq<Role>, roles': seq<Role>)
    requires AllOnward(roles, roles') && forall i :: 0 <= i < NUM && roles'[i].Head? ==> !roles'[i].phase.Done?
    ensures forall i :: 0 <= i < NUM && roles[i].Head? && roles[i].phase.Done? ==>
              roles'[i].phase == Seen(roles[i].phase.at)
  {
    assert forall i :: 0 <= i < NUM ==> Onward(roles[i], roles'[i]);
  }

  lemma WrittenReady(q: Queue, q': Queue, a: nat, b: nat, d: nat, r: Role, posted: nat)
    requires Written(q, q', a, b, d, r, posted)
    ensures Ready(q', a, b, d, r, posted)
  {}

  lemma StillReady(q: Queue, q': Queue, roles: seq<Role>, a: nat, b: nat, d: nat, r: Role, posted: nat)
    requires Ready(q, a, b, d, r, posted) && HeldThree(roles, a, b, d) && DeviceOnly(q, q', roles)
    ensures Ready(q', a, b, d, r, posted)
  {}

  lemma StillApart(roles: seq<Role>, roles': seq<Role>, a: nat, b: nat, d: nat, buf: nat)
    requires AllOnward(roles, roles') && HeldThree(roles, a, b, d) && forall i :: 0 <= i < NUM && roles[i].Head? ==>
               roles[i].buf != buf
    ensures HeldThree(roles', a, b, d) && forall i :: 0 <= i < NUM && roles'[i].Head? ==> roles'[i].buf != buf
  {
    assert forall i :: 0 <= i < NUM ==> Onward(roles[i], roles'[i]);
  }

  lemma EmptyInv<D>(q: Queue, roles: seq<Role>, bufs: map<nat, D>)
    requires Shape(q) && |roles| == NUM && q.availIdx == q.usedIdx == q.doneIdx == 0
    requires forall i :: 0 <= i < NUM ==> roles[i].Free? && q.free[i]
    ensures Inv(q, roles, Counts(0, 0, 0, 0), {}, bufs, [])
  {}

  lemma Facts<D>(q: Queue, roles: seq<Role>, c: Counts, busy: set<nat>, bufs: map<nat, D>, log: seq<Transfer<D>>)
    requires Inv(q, roles, c, busy, bufs, log)
    ensures Shape(q) && |roles| == NUM && c.taken <= c.posted && c.seen <= c.done <= c.seen + NUM
    ensures q.availIdx == c.posted % WORD && q.usedIdx == c.seen % WORD && q.doneIdx == c.done % WORD
    ensures forall i: nat :: i < NUM ==> (q.free[i] <==> roles[i].Free?)
  {
    forall i: nat | i < NUM
      ensures q.free[i] <==> roles[i].Free?
    {
      assert DescOk(q, roles, i);
    }
  }

  lemma HeadFacts<D>(q: Queue, roles: seq<Role>, c: Counts, busy: set<nat>, bufs: map<nat, D>,
                     log: seq<Transfer<D>>, h: nat)
    requires Inv(q, roles, c, busy, bufs, log) && h < NUM && roles[h].Head? && roles[h].buf !in busy
    ensures var r := roles[h];
            && r.phase.Seen? && Shape(q) && r.mid < NUM && r.tail < NUM && h != r.mid && h != r.tail
                && r.mid != r.tail && roles[r.mid].Mid? && roles[r.tail].Tail?
            && !q.free[h] && !q.free[r.mid] && !q.free[r.tail] && q.desc[h].more && q.desc[h].next == r.mid
            && q.desc[r.mid].more && q.desc[r.mid].next == r.tail && !q.desc[r.tail].more
            && r.buf in bufs && r.since <= r.phase.at < |log|
                && log[r.phase.at] == Transfer(r.out, r.sector, bufs[r.buf])
  {
    assert DescOk(q, roles, h) && PhaseOk(c, roles[h], busy, bufs, log);
    assert DescOk(q, roles, roles[h].mid) && DescOk(q, roles, roles[h].tail);
  }

  lemma AllSeen<D>(q: Queue, roles: seq<Role>, c: Counts, busy: set<nat>, bufs: map<nat, D>, log: seq<Transfer<D>>)
    requires Inv(q, roles, c, busy, bufs, log) && c.seen == c.done
    ensures forall i :: 0 <= i < NUM && roles[i].Head? ==>
              !roles[i].phase.Done? && (roles[i].buf in busy <==> !roles[i].phase.Seen?)
  {
    forall i | 0 <= i < NUM && roles[i].Head?
      ensures !roles[i].phase.Done? && (roles[i].buf in busy <==> !roles[i].phase.Seen?)
    {
      assert PhaseOk(c, roles[i], busy, bufs, log);
    }
  }
}
