/** Pipes (kernel/pipe.c): a ring buffer with 32-bit counters.

    pipewrite and piperead give up pi->lock only in sleep and at their ends, so every interleaving
    of readers and writers is a sequence of the sections below, each from taking the lock to
    giving it up.  Ghost state: everything ever written and taken out, and the sections so far. */
module Pipe {

  const PIPESIZE := 512
  const WORD := 0x1_0000_0000

  // ----- 32-bit counters -----

  /** PIPESIZE divides 2^32, so the ring index survives the wrap-around of a counter. */
  lemma IndexWraps(x: nat)
    ensures x % WORD % PIPESIZE == x % PIPESIZE
  {
    assert WORD == 8388608 * PIPESIZE;
    assert x == x / WORD * 8388608 * PIPESIZE + x % WORD;
    DropMultiple(x / WORD * 8388608, x % WORD);
  }

  lemma DropMultiple(k: nat, y: nat)
    ensures (k * PIPESIZE + y) % PIPESIZE == y % PIPESIZE
  {}

  lemma CounterNext(x: nat)
    ensures (x % WORD + 1) % WORD == (x + 1) % WORD
  {}

  /** The tests for empty and full are right although the counters wrap. */
  lemma TestsRight(r: nat, w: nat)
    requires r <= w <= r + PIPESIZE
    ensures r % WORD == w % WORD <==> r == w
    ensures w % WORD == (r % WORD + PIPESIZE) % WORD <==> w == r + PIPESIZE
  {}

  /** Two bytes in the buffer at once have different places. */
  lemma PlacesDiffer(a: nat, b: nat)
    requires a < b < a + PIPESIZE
    ensures a % PIPESIZE != b % PIPESIZE
  {}

  // ----- sections -----

  datatype Outcome = Returned(value: int) | Asleep

  /** What one section did: stored bytes in the ring, took bytes out that reached the reader with
      perhaps one more that did not, or closed an end. */
  datatype Section = Wrote(bytes: seq<char>) | Took(bytes: seq<char>, lost: seq<char>) | Closed

  ghost function WroteBy(e: Section): seq<char> { if e.Wrote? then e.bytes else [] }

  ghost function TookBy(e: Section): seq<char> { if e.Took? then e.bytes + e.lost else [] }

  ghost function ReadBy(e: Section): seq<char> { if e.Took? then e.bytes else [] }

  ghost function AllWritten(run: seq<Section>): seq<char> {
    if run == [] then [] else AllWritten(run[..|run| - 1]) + WroteBy(run[|run| - 1])
  }

  ghost function AllTaken(run: seq<Section>): seq<char> {
    if run == [] then [] else AllTaken(run[..|run| - 1]) + TookBy(run[|run| - 1])
  }

  ghost function AllRead(run: seq<Section>): seq<char> {
    if run == [] then [] else AllRead(run[..|run| - 1]) + ReadBy(run[|run| - 1])
  }

  lemma OneMore(run: seq<Section>, e: Section)
    ensures AllWritten(run + [e]) == AllWritten(run) + WroteBy(e)
    ensures AllTaken(run + [e]) == AllTaken(run) + TookBy(e)
  {
    assert (run + [e])[..|run|] == run;
  }

  /** What the readers got is what was taken out exactly when no section lost a byte. */
  lemma {:induction false} LostLength(run: seq<Section>)
    ensures |AllRead(run)| <= |AllTaken(run)|
    ensures |AllRead(run)| == |AllTaken(run)| <==> forall k :: 0 <= k < |run| && run[k].Took? ==> run[k].lost == []
    ensures |AllRead(run)| == |AllTaken(run)| ==> AllRead(run) == AllTaken(run)
  {
    if run != [] {
      var before, last := run[..|run| - 1], run[|run| - 1];
      LostLength(before);
      assert forall k :: 0 <= k < |before| ==> before[k] == run[k];
    }
  }

  /** Bytes written and not taken. */
  ghost function Buffered(run: seq<Section>): int { |AllWritten(run)| - |AllTaken(run)| }

  // ----- callers -----

  /** One section of a caller, with what the environment decides. */
  datatype Call = Write(data: seq<char>, done: nat, killed: set<nat>, readable: nat)
                | Read(n: nat, dead: bool, writable: nat)
                | Close(writer: bool)

  /** A read asks for more than the caller has room for, and so much is there. */
  predicate Loses(c: Call, buffered: int) { c.Read? && c.writable < c.n && c.writable < buffered }

  /** The caller's section e, with so many bytes in the pipe before it: what it wrote are the next of its
      bytes, and it lost a byte exactly when its room was too small. */
  ghost predicate Fits(c: Call, buffered: int, e: Section) {
    match c
    case Write(data, done, _, _) => e.Wrote? && done <= |data| && e.bytes <= data[done..]
    case Read(n, _, w) => e.Took? && |e.bytes| <= n && |e.bytes| <= w && (e.lost != [] <==> Loses(c, buffered))
    case Close(_) => e.Closed?
  }

  // ----- the pipe -----

  class Pipe {
    var data: array<char>
    var nread: nat
    var nwrite: nat
    var readopen: bool
    var writeopen: bool
    ghost var written: seq<char>
    ghost var taken: nat
    ghost var run: seq<Section>

    /** What is in the buffer is what was written after the bytes taken, and fits; the sections
        so far have written and taken exactly these bytes. */
    ghost predicate Valid()
      reads this, data
    {
      Ring() && AllWritten(run) == written && AllTaken(run) == written[..taken]
    }

    /** The ring alone, while a section is under way. */
    ghost predicate Ring()
      reads this, data
    {
      && data.Length == PIPESIZE && taken <= |written| <= taken + PIPESIZE
      && nread == taken % WORD && nwrite == |written| % WORD
      && (forall k :: taken <= k < |written| ==> data[k % PIPESIZE] == written[k])
    }

    /** pipealloc */
    constructor ()
      ensures Valid() && run == [] && readopen && writeopen && fresh(data)
    {
      data := new char[PIPESIZE];
      nread, nwrite, readopen, writeopen := 0, 0, true, true;
      written, taken, run := [], 0, [];
    }

    /** One byte into the ring. */
    method Put(ch: char)
      requires Ring() && |written| < taken + PIPESIZE
      modifies this`nwrite, this`written, data
      ensures Ring() && written == old(written) + [ch]
    {
      ghost var w := |written|;
      IndexWraps(w);
      CounterNext(w);
      data[nwrite % PIPESIZE] := ch;
      nwrite := (nwrite + 1) % WORD;
      written := written + [ch];
      forall k | taken <= k < w
        ensures data[k % PIPESIZE] == written[k]
      {
        PlacesDiffer(k, w);
      }
    }

    /** One byte out of the ring. */
    method Get() returns (ch: char)
      requires Ring() && taken < |written|
      modifies this`nread, this`taken
      ensures Ring() && taken == old(taken) + 1 && ch == written[old(taken)]
    {
      IndexWraps(taken);
      CounterNext(taken);
      ch := data[nread % PIPESIZE];
      nread := (nread + 1) % WORD;
      taken := taken + 1;
    }

    /** First in, first out, in every state of every interleaving: all bytes taken, by whatever
        readers, are in order the first of all bytes written, by whatever writers, and no more than
        PIPESIZE are on their way. */
    lemma Fifo()
      requires Valid()
      ensures AllTaken(run) <= AllWritten(run) && |AllWritten(run)| <= |AllTaken(run)| + PIPESIZE
    {}

    /** pipewrite from taking the lock, or waking up, with i bytes done, until it sleeps or
        returns.  `killed` are the rounds, by bytes done, in which killed(pr) answers yes, and
        `readable` is how much of the user's bytes copyin can fetch. */
    method PipeWrite(bytes: seq<char>, i: nat, killed: set<nat>, readable: nat) returns (o: Outcome, j: nat)
      requires Valid() && i <= |bytes|
      modifies this`nwrite, this`written, this`run, data
      ensures Valid() && i <= j <= |bytes| && run == old(run) + [Wrote(bytes[i..j])]
      ensures (i < j ==> readopen && j <= readable) && forall k :: i <= k < j ==> k !in killed
      ensures o.Asleep? ==> j < |bytes| && readopen && j !in killed && |written| == taken + PIPESIZE
      ensures o == Returned(-1) ==> j < |bytes| && (!readopen || j in killed)
      ensures o.Returned? && o.value != -1 ==> o.value == j && (j == |bytes| || j >= readable)
      ensures o.Returned? && j < |bytes| && (!readopen || j in killed) ==> o.value == -1
    {
      hide AllWritten, AllTaken;
      j := i;
      while j < |bytes|
        invariant Ring() && run == old(run) && i <= j <= |bytes| && written == old(written) + bytes[i..j]
        invariant (i < j ==> readopen && j <= readable) && forall k :: i <= k < j ==> k !in killed
      {
        if !readopen || j in killed {
          RecordWrite(old(written), bytes[i..j]);
          return Returned(-1), j;
        }
        TestsRight(taken, |written|);
        if nwrite == (nread + PIPESIZE) % WORD {
          RecordWrite(old(written), bytes[i..j]);
          return Asleep, j;
        }
        if j >= readable {
          break;
        }
        Put(bytes[j]);
        j := j + 1;
      }
      RecordWrite(old(written), bytes[i..j]);
      return Returned(j), j;
    }

    /** The section's end: what it stored enters the history. */
    ghost method RecordWrite(before: seq<char>, bytes: seq<char>)
      requires Ring() && written == before + bytes && taken <= |before|
      requires AllWritten(run) == before && AllTaken(run) == before[..taken]
      modifies this`run
      ensures Valid() && run == old(run) + [Wrote(bytes)]
    {
      OneMore(run, Wrote(bytes));
      run := run + [Wrote(bytes)];
      assert AllTaken(run) == before[..taken] + [] == written[..taken];
    }

    /** piperead from taking the lock, or waking up, until it sleeps or returns.  `writable` is how
        many bytes copyout can deliver; the byte it fails on is lost. */
    method PipeRead(n: nat, killed: bool, writable: nat) returns (o: Outcome, bytes: seq<char>, ghost lost: seq<char>)
      requires Valid()
      modifies this`nread, this`taken, this`run
      ensures Valid() && |bytes| <= n && run == old(run) + [Took(bytes, lost)]
      ensures o.Asleep? ==> bytes + lost == [] && taken == |written| && writeopen && !killed
      ensures o == Returned(-1) ==> bytes + lost == [] && taken == |written| && writeopen && killed
      ensures o.Returned? && o.value != -1 ==> o.value == |bytes|
      ensures o.Returned? && o.value != -1 ==> |bytes| == n || taken == |written| || |bytes| == writable
      ensures o.Returned? && taken == |written| && bytes + lost == [] && writeopen ==> o.value == -1
      ensures |lost| <= 1 && |bytes| <= writable && (lost != [] ==> |bytes| == writable)
      ensures lost != [] <==> writable < n && writable < |old(written)| - old(taken)
    {
      hide AllWritten, AllTaken;
      bytes, lost := [], [];
      TestsRight(taken, |written|);
      if nread == nwrite && writeopen {
        RecordRead(old(taken), bytes, lost);
        return if killed then Returned(-1) else Asleep, bytes, lost;
      }
      var i := 0;
      while i < n
        invariant Ring() && run == old(run) && 0 <= i <= n && |bytes| == i && taken == old(taken) + i <= |written|
        invariant i <= writable
        invariant bytes == written[old(taken)..taken]
      {
        TestsRight(taken, |written|);
        if nread == nwrite {
          break;
        }
        var ch := Get();
        if i == writable {
          lost := [ch];
          break;
        }
        bytes := bytes + [ch];
        i := i + 1;
      }
      RecordRead(old(taken), bytes, lost);
      return Returned(i), bytes, lost;
    }

    ghost method RecordRead(before: nat, bytes: seq<char>, lost: seq<char>)
      requires Ring() && before <= taken && bytes + lost == written[before..taken]
      requires AllWritten(run) == written && AllTaken(run) == written[..before]
      modifies this`run
      ensures Valid() && run == old(run) + [Took(bytes, lost)]
    {
      OneMore(run, Took(bytes, lost));
      run := run + [Took(bytes, lost)];
      assert written[..before] + written[before..taken] == written[..taken];
      assert AllWritten(run) == written + [] == written;
    }

    /** pipeclose of one end; true when both are closed and the pipe is freed. */
    method PipeClose(writable: bool) returns (freed: bool)
      requires Valid()
      modifies this`readopen, this`writeopen, this`run
      ensures Valid() && freed == (!readopen && !writeopen) && run == old(run) + [Closed]
      ensures writeopen == (old(writeopen) && !writable) && readopen == (old(readopen) && writable)
    {
      if writable {
        writeopen := false;
      } else {
        readopen := false;
      }
      freed := !readopen && !writeopen;
      OneMore(run, Closed);
      run := run + [Closed];
      assert written + [] == written && written[..taken] + [] == written[..taken];
    }

    lemma Shown()
      requires Valid()
      ensures AllWritten(run) == written && taken <= |written| <= taken + PIPESIZE && AllTaken(run) == written[..taken]
      ensures Buffered(run) == |written| - taken
    {}

    /** One section of any caller. */
    method Serve(c: Call)
      requires Valid() && (c.Write? ==> c.done <= |c.data|)
      modifies this`nread, this`nwrite, this`readopen, this`writeopen, this`written, this`taken, this`run, data
      ensures Valid() && exists e :: Fits(c, old(Buffered(run)), e) && run == old(run) + [e]
    {
      hide AllWritten, AllTaken, Valid, Buffered;
      Shown();
      match c
      case Write(bytes, done, killed, readable) =>
        var _, j := PipeWrite(bytes, done, killed, readable);
        assert Fits(c, old(Buffered(run)), Wrote(bytes[done..j]));
      case Read(n, dead, writable) =>
        ghost var lost;
        var o, bytes;
        o, bytes, lost := PipeRead(n, dead, writable);
        assert Fits(c, old(Buffered(run)), Took(bytes, lost));
      case Close(writer) =>
        var _ := PipeClose(writer);
        assert Fits(c, old(Buffered(run)), Closed);
    }
  }

  /** The history of a pipe through a sequence of sections. */
  ghost predicate History(calls: seq<Call>, run: seq<Section>) {
    |run| == |calls| && forall k :: 0 <= k < |calls| ==> Fits(calls[k], Buffered(run[..k]), run[k])
  }

  lemma HistoryOn(calls: seq<Call>, run: seq<Section>, c: Call, e: Section)
    requires History(calls, run) && Fits(c, Buffered(run), e)
    ensures History(calls + [c], run + [e])
  {
    hide Fits, Buffered;
    var run' := run + [e];
    forall k | 0 <= k < |run'|
      ensures Fits((calls + [c])[k], Buffered(run'[..k]), run'[k])
    {
      assert run'[..k] == run[..k];
      assert run[..|run|] == run;
    }
  }

  /** What the readers get, all together: everything taken out, if and only if no reader asked for more
      than it had room for with so much in the pipe. */
  lemma DeliveredIff(calls: seq<Call>, run: seq<Section>)
    requires History(calls, run)
    ensures AllRead(run) == AllTaken(run) <==> forall k :: 0 <= k < |calls| ==> !Loses(calls[k], Buffered(run[..k]))
  {
    hide AllRead, AllTaken, Buffered, Loses;
    LostLength(run);
    forall k | 0 <= k < |calls|
      ensures run[k].Took? && run[k].lost != [] <==> Loses(calls[k], Buffered(run[..k]))
    {
      assert Fits(calls[k], Buffered(run[..k]), run[k]);
      OnlyReads(calls[k], Buffered(run[..k]));
    }
  }

  lemma OnlyReads(c: Call, buffered: int)
    ensures Loses(c, buffered) ==> c.Read?
  {}

  /** A pipe from its creation through any sequence of sections, each entered in the history: what was taken
      out is what was put in first, and it has reached the readers exactly when none ran out of room; in
      particular when every reader has room for what it asks. */
  method Life(calls: seq<Call>) returns (p: Pipe)
    requires forall k :: 0 <= k < |calls| && calls[k].Write? ==> calls[k].done <= |calls[k].data|
    ensures p.Valid() && History(calls, p.run)
    ensures AllTaken(p.run) <= AllWritten(p.run) && |AllWritten(p.run)| <= |AllTaken(p.run)| + PIPESIZE
    ensures AllRead(p.run) == AllTaken(p.run) <==> forall k :: 0 <= k < |calls| ==>
              !Loses(calls[k], Buffered(p.run[..k]))
    ensures (forall k :: 0 <= k < |calls| && calls[k].Read? ==> calls[k].n <= calls[k].writable) ==>
              AllRead(p.run) <= AllWritten(p.run)
  {
    hide Pipe.Valid, Fits, History, Buffered, AllRead, AllTaken, AllWritten;
    p := new Pipe();
    NoHistory(p.run);
    for k := 0 to |calls|
      invariant p.Valid() && fresh(p) && fresh(p.data) && History(calls[..k], p.run)
    {
      ghost var was := p.run;
      p.Serve(calls[k]);
      ghost var e :| Fits(calls[k], Buffered(was), e) && p.run == was + [e];
      HistoryOn(calls[..k], was, calls[k], e);
      assert calls[..k + 1] == calls[..k] + [calls[k]];
    }
    assert calls[..|calls|] == calls;
    p.Fifo();
    DeliveredIff(calls, p.run);
  }

  lemma NoHistory(run: seq<Section>)
    requires run == []
    ensures History([], run)
  {}

  /** Two bytes written, and a reader of two with room for one: it gets the first and the second is gone. */
  method LosesAByte() returns (p: Pipe, o: Outcome, bytes: string)
    ensures p.Valid() && p.run == [Wrote("ab"), Took("a", "b")] && o == Returned(1) && bytes == "a"
    ensures AllRead(p.run) == "a" && AllTaken(p.run) == AllWritten(p.run) == "ab"
  {
    hide Pipe.Valid, AllWritten, AllTaken, AllRead;
    p := new Pipe();
    var q, j := p.PipeWrite("ab", 0, {}, 2);
    FirstWrite("ab", j, p.run);
    p.Shown();
    assert j == 2 && "ab"[0..2] == "ab";
    ghost var lost;
    o, bytes, lost := p.PipeRead(2, false, 1);
    p.Shown();
    ThenRead("ab", bytes, lost, p.run);
    Halves(bytes, lost);
  }

  lemma Halves(bytes: string, lost: string)
    requires bytes + lost == "ab" && |bytes| == 1
    ensures bytes == "a" && lost == "b"
  {
    assert bytes == (bytes + lost)[..1] && lost == (bytes + lost)[1..];
  }

  lemma FirstWrite(s: string, j: nat, run: seq<Section>)
    requires j <= |s| && run == [] + [Wrote(s[0..j])]
    ensures AllWritten(run) == s[..j] && AllTaken(run) == "" && AllRead(run) == ""
  {
    OneMore([], Wrote(s[0..j]));
    assert run[..0] == [];
    assert [] + s[0..j] == s[..j];
  }

  lemma ThenRead(s: string, bytes: string, lost: string, run: seq<Section>)
    requires run == [Wrote(s)] + [Took(bytes, lost)]
    ensures AllWritten(run) == s && AllTaken(run) == bytes + lost && AllRead(run) == bytes
  {
    var first := [Wrote(s)];
    assert s[0..|s|] == s && s[..|s|] == s;
    FirstWrite(s, |s|, first);
    OneMore(first, Took(bytes, lost));
    assert run[..1] == first;
    assert s + [] == s && "" + (bytes + lost) == bytes + lost && "" + bytes == bytes;
  }
}
