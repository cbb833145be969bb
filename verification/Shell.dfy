/** The shell's parser as code (user/sh.c): loops over a cursor, then the NUL-termination of every
    word in the line's buffer. */
module Shell {
  import opened ShellSyntax
  import opened ShellPrint

  // ----- gettoken and peek -----

  method SkipSpace(s: string, i: nat) returns (k: nat)
    requires i <= |s|
    ensures k == Skip(s, i)
  {
    k := i;
    while k < |s| && IsSpace(s[k])
      invariant i <= k <= |s| && Skip(s, k) == Skip(s, i)
    {
      k := k + 1;
    }
  }

  method Gettoken(s: string, i: nat) returns (t: Token)
    requires i <= |s|
    ensures t == Tok(s, i)
  {
    var a := SkipSpace(s, i);
    var e, kind := a, '\0';
    if a < |s| {
      if s[a] == '|' || s[a] == '(' || s[a] == ')' || s[a] == ';' || s[a] == '&' || s[a] == '<' {
        e, kind := a + 1, s[a];
      } else if s[a] == '>' {
        e, kind := a + 1, '>';
        if e < |s| && s[e] == '>' {
          e, kind := e + 1, '+';
        }
      } else {
        kind := 'a';
        while e < |s| && !IsSpace(s[e]) && !IsSymbol(s[e])
          invariant a <= e <= |s| && WordEnd(s, e) == WordEnd(s, a)
        {
          e := e + 1;
        }
      }
    }
    var next := SkipSpace(s, e);
    return Token(kind, a, e, next);
  }

  method Peek(s: string, i: nat, toks: string) returns (b: bool, k: nat)
    requires i <= |s|
    ensures b == Next(s, i, toks) && k == Skip(s, i)
  {
    k := SkipSpace(s, i);
    b := k < |s| && s[k] in toks;
  }

  // ----- the parse functions -----

  method ParseRedirs(s: string, i: nat, before: seq<(Span, Mode)>) returns (r: Result<seq<(Span, Mode)>>)
    requires i <= |s|
    ensures r == Redirs(s, i, before)
  {
    var redirs, j := before, i;
    while true
      invariant i <= j <= |s| && Redirs(s, j, redirs) == Redirs(s, i, before)
      decreases |s| - j
    {
      var more, k := Peek(s, j, "<>");
      if !more {
        return Ok(redirs, k);
      }
      var t := Gettoken(s, k);
      var w := Gettoken(s, t.next);
      if w.kind != 'a' {
        return Err(MissingFile);
      }
      redirs, j := redirs + [(Span(w.q, w.eq), ModeOf(t.kind))], w.next;
    }
  }

  method ParseExec(s: string, i: nat) returns (r: Result<Cmd<Span>>)
    requires i <= |s|
    ensures r == ExecOrBlock(s, i)
    decreases |s| - i, 1
  {
    var block, k := Peek(s, i, "(");
    if block {
      r := ParseBlock(s, k);
      return;
    }
    var rs := ParseRedirs(s, k, []);
    if rs.Err? {
      return Err(rs.error);
    }
    var args: seq<Span>, redirs, j := [], rs.value, rs.next;
    while true
      invariant k <= j <= |s| && Args(s, j, args, redirs) == ExecOrBlock(s, i) && |args| < MAXARGS
      decreases |s| - j
    {
      var stop, a := Peek(s, j, "|)&;");
      if stop {
        return Ok(Wrap(Exec(args), redirs), a);
      }
      var t := Gettoken(s, a);
      if t.kind == '\0' {
        return Ok(Wrap(Exec(args), redirs), t.next);
      }
      if t.kind != 'a' {
        return Err(Syntax);
      }
      var args' := args + [Span(t.q, t.eq)];
      if |args'| >= MAXARGS {
        return Err(TooManyArgs);
      }
      var rs := ParseRedirs(s, t.next, redirs);
      if rs.Err? {
        return Err(rs.error);
      }
      args, redirs, j := args', rs.value, rs.next;
    }
  }

  method ParseBlock(s: string, i: nat) returns (r: Result<Cmd<Span>>)
    requires i < |s| && s[i] == '('
    ensures r == Block(s, i)
    decreases |s| - i, 0
  {
    var t := Gettoken(s, i);
    var l := ParseLine(s, t.next);
    if l.Err? {
      return l;
    }
    var close, k := Peek(s, l.next, ")");
    if !close {
      return Err(MissingParen);
    }
    t := Gettoken(s, k);
    var rs := ParseRedirs(s, t.next, []);
    if rs.Err? {
      return Err(rs.error);
    }
    return Ok(Wrap(l.value, rs.value), rs.next);
  }

  method ParsePipe(s: string, i: nat) returns (r: Result<Cmd<Span>>)
    requires i <= |s|
    ensures r == Pipeline(s, i)
    decreases |s| - i, 2
  {
    r := ParseExec(s, i);
    if r.Err? {
      return;
    }
    var bar, k := Peek(s, r.next, "|");
    if !bar {
      return Ok(r.value, k);
    }
    var t := Gettoken(s, k);
    var right := ParsePipe(s, t.next);
    if right.Err? {
      return right;
    }
    return Ok(Piped(r.value, right.value), right.next);
  }

  method ParseLine(s: string, i: nat) returns (r: Result<Cmd<Span>>)
    requires i <= |s|
    ensures r == Line(s, i)
    decreases |s| - i, 3
  {
    r := ParsePipe(s, i);
    if r.Err? {
      return;
    }
    var cmd, j := r.value, r.next;
    while true
      invariant i <= j <= |s| && Ampersands(s, j, cmd) == Ampersands(s, r.next, r.value)
      decreases |s| - j
    {
      var amp, k := Peek(s, j, "&");
      j := k;
      if !amp {
        break;
      }
      var t := Gettoken(s, j);
      cmd, j := Back(cmd), t.next;
    }
    var semi, k := Peek(s, j, ";");
    if !semi {
      return Ok(cmd, k);
    }
    var t := Gettoken(s, k);
    var rest := ParseLine(s, t.next);
    if rest.Err? {
      return rest;
    }
    return Ok(List(cmd, rest.value), rest.next);
  }

  // ----- the spans of a parsed command -----

  /** A whole word: word characters, as many as there are. */
  ghost predicate SpanOk(s: string, w: Span) {
    w.q < w.eq <= |s| && (forall j :: w.q <= j < w.eq ==> InWord(s[j])) && (w.eq == |s| || !InWord(s[w.eq]))
  }

  ghost predicate SpansOk(s: string, c: Cmd<Span>) {
    match c
    case Exec(args) => forall i :: 0 <= i < |args| ==> SpanOk(s, args[i])
    case Redir(cmd, file, _) => SpansOk(s, cmd) && SpanOk(s, file)
    case Piped(l, r) => SpansOk(s, l) && SpansOk(s, r)
    case List(l, r) => SpansOk(s, l) && SpansOk(s, r)
    case Back(cmd) => SpansOk(s, cmd)
  }

  ghost predicate FilesOk(s: string, rs: seq<(Span, Mode)>) { forall i :: 0 <= i < |rs| ==> SpanOk(s, rs[i].0) }

  lemma TokSpan(s: string, i: nat)
    requires i <= |s| && Tok(s, i).kind == 'a'
    ensures SpanOk(s, Span(Tok(s, i).q, Tok(s, i).eq))
  {}

  lemma {:induction false} WrapSpans(s: string, c: Cmd<Span>, rs: seq<(Span, Mode)>)
    requires SpansOk(s, c) && FilesOk(s, rs)
    ensures SpansOk(s, Wrap(c, rs))
    decreases |rs|
  {
    if rs != [] { WrapSpans(s, c, rs[..|rs| - 1]); }
  }

  lemma {:induction false} RedirsSpans(s: string, i: nat, before: seq<(Span, Mode)>)
    requires i <= |s| && FilesOk(s, before)
    ensures Redirs(s, i, before).Ok? ==> FilesOk(s, Redirs(s, i, before).value)
    decreases |s| - i
  {
    hide Tok, SpanOk;
    if Next(s, i, "<>") {
      var t := Tok(s, Skip(s, i));
      var w := Tok(s, t.next);
      if w.kind == 'a' {
        TokSpan(s, t.next);
        RedirsSpans(s, w.next, before + [(Span(w.q, w.eq), ModeOf(t.kind))]);
      }
    }
  }

  lemma {:induction false} ArgsSpans(s: string, i: nat, args: seq<Span>, redirs: seq<(Span, Mode)>)
    requires i <= |s| && FilesOk(s, redirs) && SpansOk(s, Exec(args))
    ensures Args(s, i, args, redirs).Ok? ==> SpansOk(s, Args(s, i, args, redirs).value)
    decreases |s| - i
  {
    hide Tok, SpanOk, Redirs, Wrap;
    WrapSpans(s, Exec(args), redirs);
    var t := Tok(s, Skip(s, i));
    if !Next(s, i, "|)&;") && t.kind == 'a' {
      TokSpan(s, Skip(s, i));
      RedirsSpans(s, t.next, redirs);
      var rs := Redirs(s, t.next, redirs);
      if rs.Ok? { ArgsSpans(s, rs.next, args + [Span(t.q, t.eq)], rs.value); }
    }
  }

  lemma {:induction false} ExecSpans(s: string, i: nat)
    requires i <= |s|
    ensures ExecOrBlock(s, i).Ok? ==> SpansOk(s, ExecOrBlock(s, i).value)
    decreases |s| - i, 1
  {
    hide Redirs, Args, Block;
    if Next(s, i, "(") {
      BlockSpans(s, Skip(s, i));
    } else {
      RedirsSpans(s, Skip(s, i), []);
      var rs := Redirs(s, Skip(s, i), []);
      if rs.Ok? { ArgsSpans(s, rs.next, [], rs.value); }
    }
  }

  lemma {:induction false} BlockSpans(s: string, i: nat)
    requires i < |s| && s[i] == '('
    ensures Block(s, i).Ok? ==> SpansOk(s, Block(s, i).value)
    decreases |s| - i, 0
  {
    hide Redirs, Line, Wrap;
    LineSpans(s, Tok(s, i).next);
    var l := Line(s, Tok(s, i).next);
    if l.Ok? && Next(s, l.next, ")") {
      var j := Tok(s, Skip(s, l.next)).next;
      RedirsSpans(s, j, []);
      if Redirs(s, j, []).Ok? { WrapSpans(s, l.value, Redirs(s, j, []).value); }
    }
  }

  lemma {:induction false} PipelineSpans(s: string, i: nat)
    requires i <= |s|
    ensures Pipeline(s, i).Ok? ==> SpansOk(s, Pipeline(s, i).value)
    decreases |s| - i, 2
  {
    hide ExecOrBlock;
    ExecSpans(s, i);
    var x := ExecOrBlock(s, i);
    if x.Ok? && Next(s, x.next, "|") { PipelineSpans(s, Tok(s, Skip(s, x.next)).next); }
  }

  lemma {:induction false} AmpersandSpans(s: string, i: nat, cmd: Cmd<Span>)
    requires i <= |s| && SpansOk(s, cmd)
    ensures SpansOk(s, Ampersands(s, i, cmd).0)
    decreases |s| - i
  {
    if Next(s, i, "&") { AmpersandSpans(s, Tok(s, Skip(s, i)).next, Back(cmd)); }
  }

  lemma {:induction false} LineSpans(s: string, i: nat)
    requires i <= |s|
    ensures Line(s, i).Ok? ==> SpansOk(s, Line(s, i).value)
    decreases |s| - i, 3
  {
    hide Pipeline, Ampersands;
    PipelineSpans(s, i);
    var x := Pipeline(s, i);
    if x.Ok? {
      AmpersandSpans(s, x.next, x.value);
      var k := Ampersands(s, x.next, x.value).1;
      if Next(s, k, ";") { LineSpans(s, Tok(s, Skip(s, k)).next); }
    }
  }

  // ----- nulterminate -----

  /** The buffer is the line with a NUL behind it and NULs in place of some non-word characters. */
  ghost predicate Scrubbed(s: string, b: string) {
    && |b| == |s| + 1 && b[|s|] == '\0'
    && forall i :: 0 <= i < |s| ==> b[i] == s[i] || (b[i] == '\0' && !InWord(s[i]))
  }

  ghost predicate Cut(b: string, w: Span) { w.eq < |b| && b[w.eq] == '\0' }

  ghost predicate AllCut(b: string, c: Cmd<Span>) {
    match c
    case Exec(args) => forall i :: 0 <= i < |args| ==> Cut(b, args[i])
    case Redir(cmd, file, _) => AllCut(b, cmd) && Cut(b, file)
    case Piped(l, r) => AllCut(b, l) && AllCut(b, r)
    case List(l, r) => AllCut(b, l) && AllCut(b, r)
    case Back(cmd) => AllCut(b, cmd)
  }

  /** NULs stay. */
  ghost predicate More(b: string, b': string) {
    |b'| == |b| && forall i :: 0 <= i < |b| && b[i] == '\0' ==> b'[i] == '\0'
  }

  lemma {:induction false} AllCutMore(b: string, b': string, c: Cmd<Span>)
    requires AllCut(b, c) && More(b, b')
    ensures AllCut(b', c)
    decreases c
  {
    match c
    case Exec(args) => assert forall i :: 0 <= i < |args| ==> Cut(b, args[i]);
    case Redir(cmd, _, _) => AllCutMore(b, b', cmd);
    case Piped(l, r) => AllCutMore(b, b', l); AllCutMore(b, b', r);
    case List(l, r) => AllCutMore(b, b', l); AllCutMore(b, b', r);
    case Back(cmd) => AllCutMore(b, b', cmd);
  }

  /** One NUL behind a word. */
  method CutWord(buf: array<char>, w: Span, ghost s: string)
    requires Scrubbed(s, buf[..]) && SpanOk(s, w)
    modifies buf
    ensures Scrubbed(s, buf[..]) && More(old(buf[..]), buf[..]) && Cut(buf[..], w)
  {
    buf[w.eq] := '\0';
  }

  /** nulterminate: a NUL behind every word of the command. */
  method Nulterminate(buf: array<char>, c: Cmd<Span>, ghost s: string)
    requires Scrubbed(s, buf[..]) && SpansOk(s, c)
    modifies buf
    ensures Scrubbed(s, buf[..]) && More(old(buf[..]), buf[..]) && AllCut(buf[..], c)
    decreases c
  {
    hide Scrubbed, SpanOk;
    match c
    case Exec(args) =>
      var i := 0;
      while i < |args|
        invariant 0 <= i <= |args| && Scrubbed(s, buf[..]) && More(old(buf[..]), buf[..])
        invariant forall j :: 0 <= j < i ==> Cut(buf[..], args[j])
      {
        ghost var b := buf[..];
        CutWord(buf, args[i], s);
        assert forall j :: 0 <= j < i ==> Cut(b, args[j]);
        i := i + 1;
      }
    case Redir(cmd, file, _) =>
      Nulterminate(buf, cmd, s);
      ghost var b := buf[..];
      CutWord(buf, file, s);
      AllCutMore(b, buf[..], cmd);
    case Piped(l, r) =>
      Nulterminate(buf, l, s);
      ghost var b := buf[..];
      Nulterminate(buf, r, s);
      AllCutMore(b, buf[..], l);
    case List(l, r) =>
      Nulterminate(buf, l, s);
      ghost var b := buf[..];
      Nulterminate(buf, r, s);
      AllCutMore(b, buf[..], l);
    case Back(cmd) =>
      Nulterminate(buf, cmd, s);
  }

  // ----- parsecmd -----

  /** The C string that starts at q. */
  ghost function CString(b: string, q: nat): string
    decreases |b| - q
  {
    if q >= |b| || b[q] == '\0' then "" else [b[q]] + CString(b, q + 1)
  }

  /** A command as its C strings read it. */
  ghost function TextC(b: string, c: Cmd<Span>): Cmd<string> {
    match c
    case Exec(args) => Exec(seq(|args|, i requires 0 <= i < |args| => CString(b, args[i].q)))
    case Redir(cmd, file, mode) => Redir(TextC(b, cmd), CString(b, file.q), mode)
    case Piped(l, r) => Piped(TextC(b, l), TextC(b, r))
    case List(l, r) => List(TextC(b, l), TextC(b, r))
    case Back(cmd) => Back(TextC(b, cmd))
  }

  lemma {:induction false} CStringIs(s: string, b: string, w: Span, q: nat)
    requires Scrubbed(s, b) && '\0' !in s && SpanOk(s, w) && Cut(b, w) && w.q <= q <= w.eq
    ensures CString(b, q) == s[q..w.eq]
    decreases w.eq - q
  {
    if q < w.eq {
      CStringIs(s, b, w, q + 1);
      assert b[q] == s[q];
    }
  }

  /** The C strings of the command are the words it was parsed from. */
  lemma {:induction false} TextKept(s: string, b: string, c: Cmd<Span>)
    requires Scrubbed(s, b) && '\0' !in s && SpansOk(s, c) && AllCut(b, c)
    ensures TextC(b, c) == Text(s, c)
    decreases c
  {
    hide Scrubbed, CString;
    match c
    case Exec(args) =>
      forall i | 0 <= i < |args|
        ensures CString(b, args[i].q) == Word(s, args[i])
      {
        CStringIs(s, b, args[i], args[i].q);
      }
    case Redir(cmd, file, _) =>
      TextKept(s, b, cmd);
      CStringIs(s, b, file, file.q);
    case Piped(l, r) =>
      TextKept(s, b, l);
      TextKept(s, b, r);
    case List(l, r) =>
      TextKept(s, b, l);
      TextKept(s, b, r);
    case Back(cmd) =>
      TextKept(s, b, cmd);
  }

  /** parsecmd: the whole line must be read; then every word of the command is a C string in the
      buffer, equal to the slice of the line it was parsed from. */
  method ParseCmd(buf: array<char>) returns (r: Result<Cmd<Span>>)
    requires buf.Length > 0 && buf[buf.Length - 1] == '\0' && '\0' !in buf[..buf.Length - 1]
    modifies buf
    ensures r == Command(old(buf[..buf.Length - 1]))
    ensures r.Err? ==> buf[..] == old(buf[..])
    ensures r.Ok? ==> TextC(buf[..], r.value) == Text(old(buf[..buf.Length - 1]), r.value)
  {
    hide Line, TextC, Text, SpansOk;
    var s := buf[..buf.Length - 1];
    r := ParseLine(s, 0);
    if r.Err? {
      return;
    }
    LineSpans(s, 0);
    var _, k := Peek(s, r.next, "");
    if k != |s| {
      return Err(Leftovers);
    }
    Nulterminate(buf, r.value, s);
    TextKept(s, buf[..], r.value);
    r := Ok(r.value, k);
  }

  /** The code reads back what was printed: parsecmd on the line of a printable command yields a tree
      whose C strings are the command's words. */
  method ParsePrinted(t: Cmd<string>, buf: array<char>) returns (r: Result<Cmd<Span>>)
    requires Printable(t) && buf[..] == Print(t) + ['\0']
    modifies buf
    ensures r.Ok? && TextC(buf[..], r.value) == t
  {
    hide Printable, Print, TextC, Text, Command;
    PrintNoNul(t);
    RoundTrip(t);
    assert buf[..buf.Length - 1] == Print(t);
    r := ParseCmd(buf);
  }
}
