/** The shell's grammar (user/sh.c): commands, tokens, and the parser as functions of the input and
    a cursor.  Words are spans of the input, as in the original, where they are pairs of
    pointers into the line. */
module ShellSyntax {

  const MAXARGS := 10

  datatype Span = Span(q: nat, eq: nat)
  datatype Mode = Read | Truncate | Append

  /** Commands over words of type W. */
  datatype Cmd<W> =
    | Exec(args: seq<W>)
    | Redir(cmd: Cmd<W>, file: W, mode: Mode)
    | Piped(left: Cmd<W>, right: Cmd<W>)
    | List(left: Cmd<W>, right: Cmd<W>)
    | Back(cmd: Cmd<W>)

  datatype Error = MissingFile | MissingParen | Syntax | TooManyArgs | Leftovers

  datatype Result<T> = Ok(value: T, next: nat) | Err(error: Error)

  // ----- characters -----

  predicate IsSpace(c: char) { c == ' ' || c == '\t' || c == '\r' || c == '\n' || c == '\U{0B}' }
  predicate IsSymbol(c: char) { c == '<' || c == '|' || c == '>' || c == '&' || c == ';' || c == '(' || c == ')' }
  predicate InWord(c: char) { !IsSpace(c) && !IsSymbol(c) }

  // ----- tokens -----

  /** The cursor moved over white space. */
  function Skip(s: string, i: nat): (k: nat)
    requires i <= |s|
    ensures i <= k <= |s| && (k < |s| ==> !IsSpace(s[k])) && forall j :: i <= j < k ==> IsSpace(s[j])
    decreases |s| - i
  {
    if i < |s| && IsSpace(s[i]) then Skip(s, i + 1) else i
  }

  /** The end of the word at i. */
  function WordEnd(s: string, i: nat): (k: nat)
    requires i <= |s|
    ensures i <= k <= |s| && (k < |s| ==> !InWord(s[k])) && forall j :: i <= j < k ==> InWord(s[j])
    decreases |s| - i
  {
    if i < |s| && InWord(s[i]) then WordEnd(s, i + 1) else i
  }

  /** gettoken: the kind of token ('a' for a word, '+' for >>, NUL at the end), its extent, and the
      cursor after it. */
  datatype Token = Token(kind: char, q: nat, eq: nat, next: nat)

  function Tok(s: string, i: nat): (t: Token)
    requires i <= |s|
    ensures i <= t.q <= t.eq <= t.next <= |s| && (t.kind == '\0' <==> t.q == |s|) && (t.kind != '\0' ==> t.q < t.eq)
  {
    var a := Skip(s, i);
    if a == |s| then Token('\0', a, a, a)
    else if s[a] == '>' then
      if a + 1 < |s| && s[a + 1] == '>' then Token('+', a, a + 2, Skip(s, a + 2))
          else Token('>', a, a + 1, Skip(s, a + 1))
    else if IsSymbol(s[a]) then Token(s[a], a, a + 1, Skip(s, a + 1))
    else Token('a', a, WordEnd(s, a), Skip(s, WordEnd(s, a)))
  }

  /** peek: whether the next character, white space aside, is one of toks. */
  predicate Next(s: string, i: nat, toks: string)
    requires i <= |s|
  {
    Skip(s, i) < |s| && s[Skip(s, i)] in toks
  }

  // ----- the parser -----

  /** The redirections around a command, the first one innermost. */
  function Wrap<W>(cmd: Cmd<W>, redirs: seq<(W, Mode)>): Cmd<W> {
    if redirs == [] then cmd else Redir(Wrap(cmd, redirs[..|redirs| - 1]), redirs[|redirs| - 1].0,
        redirs[|redirs| - 1].1)
  }

  function ModeOf(kind: char): Mode { if kind == '<' then Read else if kind == '>' then Truncate else Append }

  /** parseredirs, with those already read. */
  function Redirs(s: string, i: nat, before: seq<(Span, Mode)>): (r: Result<seq<(Span, Mode)>>)
    requires i <= |s|
    ensures r.Ok? ==> i <= r.next <= |s|
    decreases |s| - i
  {
    var k := Skip(s, i);
    if !Next(s, i, "<>") then Ok(before, k)
    else
      var t := Tok(s, k);
      var w := Tok(s, t.next);
      if w.kind != 'a' then Err(MissingFile) else Redirs(s, w.next, before + [(Span(w.q, w.eq), ModeOf(t.kind))])
  }

  /** The loop of parseexec, with the arguments and redirections read so far. */
  function Args(s: string, i: nat, args: seq<Span>, redirs: seq<(Span, Mode)>): (r: Result<Cmd<Span>>)
    requires i <= |s|
    ensures r.Ok? ==> i <= r.next <= |s|
    decreases |s| - i
  {
    var k := Skip(s, i);
    if Next(s, i, "|)&;") then Ok(Wrap(Exec(args), redirs), k)
    else
      var t := Tok(s, k);
      if t.kind == '\0' then Ok(Wrap(Exec(args), redirs), t.next)
      else if t.kind != 'a' then Err(Syntax)
      else if |args| + 1 >= MAXARGS then Err(TooManyArgs)
      else
        match Redirs(s, t.next, redirs)
        case Err(e) => Err(e)
        case Ok(rs, j) => Args(s, j, args + [Span(t.q, t.eq)], rs)
  }

  /** parseexec */
  function ExecOrBlock(s: string, i: nat): (r: Result<Cmd<Span>>)
    requires i <= |s|
    ensures r.Ok? ==> i <= r.next <= |s|
    decreases |s| - i, 1
  {
    if Next(s, i, "(") then Block(s, Skip(s, i))
    else
      match Redirs(s, Skip(s, i), [])
      case Err(e) => Err(e)
      case Ok(rs, j) => Args(s, j, [], rs)
  }

  /** parseblock, called where the next character is a parenthesis. */
  function Block(s: string, i: nat): (r: Result<Cmd<Span>>)
    requires i < |s| && s[i] == '('
    ensures r.Ok? ==> i <= r.next <= |s|
    decreases |s| - i, 0
  {
    match Line(s, Tok(s, i).next)
    case Err(e) => Err(e)
    case Ok(cmd, j) =>
      if !Next(s, j, ")") then Err(MissingParen)
      else
        match Redirs(s, Tok(s, Skip(s, j)).next, [])
        case Err(e) => Err(e)
        case Ok(rs, k) => Ok(Wrap(cmd, rs), k)
  }

  /** parsepipe */
  function Pipeline(s: string, i: nat): (r: Result<Cmd<Span>>)
    requires i <= |s|
    ensures r.Ok? ==> i <= r.next <= |s|
    decreases |s| - i, 2
  {
    match ExecOrBlock(s, i)
    case Err(e) => Err(e)
    case Ok(cmd, j) =>
      if !Next(s, j, "|") then Ok(cmd, Skip(s, j))
      else
        match Pipeline(s, Tok(s, Skip(s, j)).next)
        case Err(e) => Err(e)
        case Ok(right, k) => Ok(Piped(cmd, right), k)
  }

  /** The loop of parseline over ampersands. */
  function Ampersands(s: string, i: nat, cmd: Cmd<Span>): (r: (Cmd<Span>, nat))
    requires i <= |s|
    ensures i <= r.1 <= |s|
    decreases |s| - i
  {
    if Next(s, i, "&") then Ampersands(s, Tok(s, Skip(s, i)).next, Back(cmd)) else (cmd, Skip(s, i))
  }

  /** parseline */
  function Line(s: string, i: nat): (r: Result<Cmd<Span>>)
    requires i <= |s|
    ensures r.Ok? ==> i <= r.next <= |s|
    decreases |s| - i, 3
  {
    match Pipeline(s, i)
    case Err(e) => Err(e)
    case Ok(first, j) =>
      var (cmd, k) := Ampersands(s, j, first);
      if !Next(s, k, ";") then Ok(cmd, Skip(s, k))
      else
        match Line(s, Tok(s, Skip(s, k)).next)
        case Err(e) => Err(e)
        case Ok(rest, l) => Ok(List(cmd, rest), l)
  }

  /** parsecmd, before nulterminate */
  function Command(s: string): (r: Result<Cmd<Span>>)
    ensures r.Ok? ==> r.next == |s|
  {
    match Line(s, 0)
    case Err(e) => Err(e)
    case Ok(cmd, j) => if Skip(s, j) == |s| then Ok(cmd, |s|) else Err(Leftovers)
  }
}
