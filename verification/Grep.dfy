/** user/grep.c's grep: matching lines of a stream read in pieces through a 1024-byte buffer. */
module Grep {
  import opened Regex

  const BUF := 1024

  // ----- lines -----

  /** The position of the first newline, or the length if there is none. */
  function FirstNewline(s: string): (k: nat)
    ensures k <= |s| && (k < |s| ==> s[k] == '\n') && forall i :: 0 <= i < k ==> s[i] != '\n'
  {
    if s == "" || s[0] == '\n' then 0 else 1 + FirstNewline(s[1..])
  }

  /** The newline-terminated lines of s that match, with their newlines. */
  ghost function MatchingLines(re: string, s: string): string
    decreases |s|
  {
    var k := FirstNewline(s);
    if k == |s| then ""
    else (if Matches(re, s[..k]) then s[..k + 1] else "") + MatchingLines(re, s[k + 1..])
  }

  /** The lines of s before the first that does not fit the buffer with its newline. */
  ghost function Readable(s: string): string
    decreases |s|
  {
    var k := FirstNewline(s);
    if k == |s| || k + 1 >= BUF then "" else s[..k + 1] + Readable(s[k + 1..])
  }

  ghost predicate LinesFit(s: string)
    decreases |s|
  {
    var k := FirstNewline(s);
    k == |s| || (k + 1 < BUF && LinesFit(s[k + 1..]))
  }

  /** When every terminated line fits, nothing is cut off. */
  lemma {:induction false} AllReadable(re: string, s: string)
    requires LinesFit(s)
    ensures MatchingLines(re, Readable(s)) == MatchingLines(re, s)
    decreases |s|
  {
    hide Matches;
    var k := FirstNewline(s);
    if k == |s| {
      assert MatchingLines(re, "") == "";
    } else {
      AllReadable(re, s[k + 1..]);
      LineFirst(re, s[..k + 1], Readable(s[k + 1..]));
      assert s[..k + 1][..k] == s[..k];
    }
  }

  /** A terminated line followed by more text. */
  lemma LineFirst(re: string, line: string, rest: string)
    requires line != "" && FirstNewline(line) == |line| - 1
    ensures FirstNewline(line + rest) == |line| - 1
    ensures MatchingLines(re, line + rest) == (if Matches(re, line[..|line| - 1]) then line
            else "") + MatchingLines(re, rest)
  {
    var s, k := line + rest, |line| - 1;
    assert s[..k] == line[..k] && s[..k + 1] == line && s[k + 1..] == rest;
  }

  ghost predicate Terminated(s: string) { s == "" || s[|s| - 1] == '\n' }

  /** Complete lines followed by more text: what matches. */
  lemma {:induction false} MatchingConcat(re: string, a: string, b: string)
    requires Terminated(a)
    ensures MatchingLines(re, a + b) == MatchingLines(re, a) + MatchingLines(re, b)
    decreases |a|
  {
    hide Matches, MatchingLines;
    if a == "" {
      assert a + b == b;
      NoLines(re);
    } else {
      var k := FirstNewline(a);
      var line, rest := a[..k + 1], a[k + 1..];
      MatchingConcat(re, rest, b);
      LineFirst(re, line, rest);
      LineFirst(re, line, rest + b);
      assert a == line + rest && a + b == line + (rest + b);
    }
  }

  /** Complete lines followed by more text: what can be read. */
  lemma {:induction false} ReadableConcat(a: string, b: string)
    requires Terminated(a) && |a| < BUF
    ensures Readable(a + b) == a + Readable(b)
    decreases |a|
  {
    hide Readable;
    if a == "" {
      assert a + b == b;
    } else {
      var k := FirstNewline(a);
      var line, rest := a[..k + 1], a[k + 1..];
      ReadableConcat(rest, b);
      ReadableLine(line, rest + b);
      assert a == line + rest && a + b == line + (rest + b);
    }
  }

  lemma ReadableLine(line: string, rest: string)
    requires 0 < |line| < BUF && line[|line| - 1] == '\n' && forall i :: 0 <= i < |line| - 1 ==> line[i] != '\n'
    ensures Readable(line + rest) == line + Readable(rest)
  {
    assert (line + rest)[..|line|] == line && (line + rest)[|line|..] == rest;
  }

  // ----- what is cut off -----

  /** What grep never looks at: all from the first line that does not fit. */
  ghost function Unread(s: string): (r: string)
    ensures |Readable(s)| <= |s| && Readable(s) + r == s && Terminated(Readable(s))
  {
    ReadablePrefix(s);
    s[|Readable(s)|..]
  }

  lemma {:induction false} ReadablePrefix(s: string)
    ensures Readable(s) <= s && Terminated(Readable(s))
    decreases |s|
  {
    var k := FirstNewline(s);
    if k < |s| && k + 1 < BUF {
      ReadablePrefix(s[k + 1..]);
      assert s == s[..k + 1] + s[k + 1..];
    }
  }

  /** For one expression nothing is cut off exactly when no line of the unread part matches. */
  lemma CompleteIff(re: string, s: string)
    ensures MatchingLines(re, s) == MatchingLines(re, Readable(s)) + MatchingLines(re, Unread(s))
    ensures MatchingLines(re, Readable(s)) == MatchingLines(re, s) <==> MatchingLines(re, Unread(s)) == ""
  {
    hide MatchingLines, Readable;
    MatchingConcat(re, Readable(s), Unread(s));
  }

  /** The empty expression matches every line. */
  lemma EmptyMatches(text: string)
    ensures Matches("", text)
  {
    NoItems(false, text[0..]);
    assert BeginsAt(Parse(""), text, 0);
  }

  lemma {:induction false} UnreadLine(s: string)
    ensures LinesFit(s) <==> FirstNewline(Unread(s)) == |Unread(s)|
    decreases |s|
  {
    var k := FirstNewline(s);
    if k < |s| && k + 1 < BUF {
      UnreadLine(s[k + 1..]);
      assert s == s[..k + 1] + s[k + 1..];
      assert Unread(s) == Unread(s[k + 1..]);
    }
  }

  /** Nothing is cut off, whatever the expression, exactly when every terminated line fits the buffer. */
  lemma AllReadableIff(s: string)
    ensures LinesFit(s) <==> forall re :: MatchingLines(re, Readable(s)) == MatchingLines(re, s)
  {
    hide Readable, LinesFit, Matches;
    UnreadLine(s);
    if LinesFit(s) {
      forall re
        ensures MatchingLines(re, Readable(s)) == MatchingLines(re, s)
      {
        AllReadable(re, s);
      }
    } else {
      var rest := Unread(s);
      EmptyMatches(rest[..FirstNewline(rest)]);
      assert MatchingLines("", rest) != "";
      CompleteIff("", s);
    }
  }

  function As(n: nat): (s: string)
    ensures |s| == n && forall i :: 0 <= i < n ==> s[i] == 'a'
  {
    if n == 0 then "" else As(n - 1) + "a"
  }

  /** A line of 1023 characters and one of a single character: the empty expression matches both, and
      grep reads neither. */
  lemma LongLineStops()
    ensures var s := As(BUF - 1) + "\n" + "a\n";
            && Readable(s) == "" && MatchingLines("", Readable(s)) == ""
            && MatchingLines("", s) == s && !LinesFit(s)
  {
    hide Matches, As;
    var line, s := As(BUF - 1) + "\n", As(BUF - 1) + "\n" + "a\n";
    assert FirstNewline(line) == BUF - 1 by { NewlineAt(line, BUF - 1); }
    assert FirstNewline(s) == BUF - 1 by { NewlineAt(s, BUF - 1); }
    EmptyMatches(line[..BUF - 1]);
    EmptyMatches("a\n"[..1]);
    LineFirst("", line, "a\n");
    assert FirstNewline("a\n") == 1 by { NewlineAt("a\n", 1); }
    OneLine("", "a\n");
    NoLines("");
  }

  lemma NewlineAt(s: string, k: nat)
    requires k < |s| && s[k] == '\n' && forall i :: 0 <= i < k ==> s[i] != '\n'
    ensures FirstNewline(s) == k
  {}

  lemma OneLine(re: string, line: string)
    requires line != "" && FirstNewline(line) == |line| - 1
    ensures MatchingLines(re, line) == if Matches(re, line[..|line| - 1]) then line else ""
  {
    LineFirst(re, line, "");
    assert line + "" == line;
    assert MatchingLines(re, "") == "";
  }

  /** strchr(p, newline) in the C string that ends at m; m itself if there is none. */
  method StrchrNewline(buf: array<char>, p: nat, ghost m: nat) returns (q: nat)
    requires p <= m < buf.Length && buf[m] == '\0' && forall i :: p <= i < m ==> buf[i] != '\0'
    ensures q == p + FirstNewline(buf[p..m])
  {
    q := p;
    while buf[q] != '\0' && buf[q] != '\n'
      invariant p <= q <= m && forall i :: p <= i < q ==> buf[i] != '\n'
      decreases m - q
    {
      q := q + 1;
    }
    if q < m {
    }
  }

  /** One round of grep's inner loop: the line buf[p..q] is matched as a C string; if it matches
      its newline is put back and it is written. */
  method TestLine(re: string, buf: array<char>, p: nat, q: nat, ghost m: nat, ghost s: string) returns (piece: string)
    requires p <= q < m < buf.Length && |s| == m && s[q] == '\n' && forall i :: p <= i < m ==> buf[i] == s[i]
    modifies buf
    ensures piece == if Matches(re, s[p..q]) then s[p..q + 1] else ""
    ensures forall i :: q < i < buf.Length ==> buf[i] == old(buf[i])
  {
    hide Matches;
    buf[q] := '\0';
    assert buf[p..q] == s[p..q];
    var b := Match(re, buf[p..q]);
    piece := "";
    if b {
      buf[q] := '\n';
      piece := buf[p..q + 1];
      assert piece == s[p..q + 1];
    }
  }

  /** grep's inner loop: writes the matching lines among buf[..m] and stops at the unfinished one. */
  method ScanLines(re: string, buf: array<char>, m: nat) returns (p: nat, out: string)
    requires m < buf.Length && buf[m] == '\0' && '\0' !in buf[..m]
    modifies buf
    ensures p <= m && buf[p..m] == old(buf[p..m]) && '\n' !in buf[p..m]
    ensures Terminated(old(buf[..p])) && out == MatchingLines(re, old(buf[..p]))
  {
    hide Matches, MatchingLines, FirstNewline, Terminated;
    ghost var s := buf[..m];
    p, out := 0, "";
    NoLines(re);
    assert s[..0] == "";
    var q := StrchrNewline(buf, p, m);
    assert s == s[p..] && s[..p] == "";
    while q < m
      invariant p <= q <= m && (forall i :: p <= i < m ==> buf[i] == s[i]) && buf[m] == '\0'
                && q == p + FirstNewline(s[p..])
      invariant Terminated(s[..p]) && out == MatchingLines(re, s[..p])
      decreases m - p
    {
      var piece := TestLine(re, buf, p, q, m, s);
      NextLine(re, s, p, q);
      out := out + piece;
      p := q + 1;
      assert buf[p..m] == s[p..];
      q := StrchrNewline(buf, p, m);
    }
    assert buf[p..m] == s[p..] && s[..p] == old(buf[..p]);
  }

  lemma NoLines(re: string)
    ensures MatchingLines(re, "") == "" && Terminated("")
  {}

  lemma NextLine(re: string, s: string, p: nat, q: nat)
    requires p <= q < |s| && q == p + FirstNewline(s[p..]) && Terminated(s[..p])
    ensures Terminated(s[..q + 1])
    ensures MatchingLines(re, s[..q + 1]) == MatchingLines(re, s[..p]) + if Matches(re, s[p..q]) then s[p..q + 1]
            else ""
  {
    hide Matches, MatchingLines;
    var line := s[p..q + 1];
    assert s[p..][q - p] == '\n';
    OneLine(re, line);
    MatchingConcat(re, s[..p], line);
    assert s[..q + 1] == s[..p] + line && line[..|line| - 1] == s[p..q];
  }

  /** Where grep stands: the buffer holds the unfinished line input[start..start+m]. */
  ghost predicate Stands(re: string, input: string, start: nat, text: string, out: string) {
    && start + |text| <= |input| && text == input[start..start + |text|] && '\n' !in text && |text| < BUF
    && out == MatchingLines(re, input[..start]) && Terminated(input[..start])
    && Readable(input) == input[..start] + Readable(input[start..])
  }

  lemma StandsFirst(re: string, input: string)
    ensures Stands(re, input, 0, "", "")
  {
    NoLines(re);
    assert input[..0] == "" && input[0..] == input;
  }

  /** The buffer after a read, and what has been scanned of it. */
  lemma StandsNext(re: string, input: string, start: nat, text: string, out: string, n: nat, p: nat, more: string)
    requires Stands(re, input, start, text, out) && start + |text| + n <= |input| && |text| + n < BUF && p <= |text| + n
    requires var full := input[start..start + |text| + n];
             && Terminated(full[..p]) && '\n' !in full[p..]
             && more == MatchingLines(re, full[..p])
    ensures Stands(re, input, start + p, input[start + p..start + |text| + n], out + more)
  {
    hide MatchingLines, Readable;
    var full := input[start..start + |text| + n];
    var done := full[..p];
    MatchingConcat(re, input[..start], done);
    assert input[..start + p] == input[..start] + done;
    ReadableConcat(done, input[start + p..]);
    assert input[start..] == done + input[start + p..];
    assert input[start + p..start + |text| + n] == full[p..];
    if p > 0 { assert input[..start + p][start + p - 1] == done[p - 1]; }
    assert Terminated(input[..start + p]);
    assert (input[..start] + done) + Readable(input[start + p..]) ==
           input[..start] + (done + Readable(input[start + p..]));
  }

  /** At the end of the stream, or with a full buffer, no further line can be read. */
  lemma StandsLast(re: string, input: string, start: nat, text: string, out: string)
    requires Stands(re, input, start, text, out) && (start + |text| == |input| || |text| == BUF - 1)
    ensures out == MatchingLines(re, Readable(input))
  {
    var rest := input[start..];
    var k := FirstNewline(rest);
    assert forall i :: 0 <= i < |text| ==> rest[i] == text[i];
    assert Readable(rest) == "";
    assert input[..start] + "" == input[..start];
  }

  /** grep: whatever the sizes of the reads, the output is the matching lines of the readable
      part of the input; of the whole input exactly when no line of the rest matches. */
  method Grep(re: string, input: string) returns (out: string)
    requires '\0' !in input
    ensures out == MatchingLines(re, Readable(input))
    ensures LinesFit(input) ==> out == MatchingLines(re, input)
    ensures out == MatchingLines(re, input) <==> MatchingLines(re, Unread(input)) == ""
  {
    hide MatchingLines, Readable, LinesFit;
    var buf := new char[BUF];
    var m, pos := 0, 0;
    out := "";
    StandsFirst(re, input);
    while true
      invariant 0 <= m < BUF && m <= pos <= |input| && Stands(re, input, pos - m, buf[..m], out)
      decreases |input| - pos
    {
      var n: nat :| n <= BUF - 1 - m && n <= |input| - pos && (n == 0 ==> m == BUF - 1 || pos == |input|);
      if n == 0 {
        break;
      }
      m, out := Round(re, input, buf, m, pos, n, out);
      pos := pos + n;
    }
    StandsLast(re, input, pos - m, buf[..m], out);
    if LinesFit(input) { AllReadable(re, input); }
    CompleteIff(re, input);
  }

  /** One round of grep's outer loop: n bytes arrive behind the m in the buffer. */
  method Round(re: string, input: string, buf: array<char>, m: nat, pos: nat, n: nat, out: string)
    returns (m': nat, out': string)
    requires buf.Length == BUF && m + n < BUF && m <= pos && pos + n <= |input|
             && Stands(re, input, pos - m, buf[..m], out)
    requires '\0' !in input
    modifies buf
    ensures m' < BUF && m' <= pos + n && Stands(re, input, pos + n - m', buf[..m'], out')
  {
    hide Stands, MatchingLines, Terminated;
    ghost var text, full := buf[..m], input[pos - m..pos + n];
    StandsText(re, input, pos - m, text, out);
    CopyIn(buf, m, input[pos..pos + n]);
    assert text + input[pos..pos + n] == full;
    var p, piece := Scan(re, buf, m + n, full);
    StandsNext(re, input, pos - m, text, out, n, p, piece);
    out' := out + piece;
    m' := m + n - p;
    assert full[p..] == input[pos - m + p..pos + n];
  }

  /** The lines in the buffer are scanned and the unfinished one moved to the front. */
  method Scan(re: string, buf: array<char>, k: nat, ghost full: string) returns (p: nat, piece: string)
    requires k < buf.Length && buf[..k] == full && '\0' !in full
    modifies buf
    ensures p <= k && buf[..k - p] == full[p..] && '\n' !in full[p..] && Terminated(full[..p])
            && piece == MatchingLines(re, full[..p])
  {
    hide MatchingLines, Terminated;
    buf[k] := '\0';
    assert buf[..k] == full;
    label Filled:
    p, piece := ScanLines(re, buf, k);
    assert old@Filled(buf[..p]) == full[..p] && old@Filled(buf[p..k]) == full[p..];
    MoveDown(buf, p, k - p);
  }

  /** The read's bytes go behind the m already there. */
  method CopyIn(buf: array<char>, m: nat, s: string)
    requires m + |s| < buf.Length
    modifies buf
    ensures buf[..m + |s|] == old(buf[..m]) + s
  {
    forall i | 0 <= i < |s| {
      buf[m + i] := s[i];
    }
  }

  /** memmove of the unfinished line to the front. */
  method MoveDown(buf: array<char>, p: nat, k: nat)
    requires p + k < buf.Length
    modifies buf
    ensures buf[..k] == old(buf[p..p + k])
  {
    var i := 0;
    while i < k
      invariant 0 <= i <= k
      invariant forall j :: 0 <= j < i ==> buf[j] == old(buf[p + j])
      invariant forall x :: p + i <= x < p + k ==> buf[x] == old(buf[x])
    {
      buf[i] := buf[p + i];
      i := i + 1;
    }
  }

  lemma StandsText(re: string, input: string, start: nat, text: string, out: string)
    requires Stands(re, input, start, text, out)
    ensures start + |text| <= |input| && text == input[start..start + |text|]
  {}
}
