/** Writing commands down with the fewest parentheses, and that the shell's parser reads them back: this
    fixes which connective binds tighter, how chains of them group, and where redirections go. */
module ShellPrint {
  import opened ShellSyntax

  /** A command with the words its spans stand for. */
  function Text(s: string, c: Cmd<Span>): Cmd<string> {
    match c
    case Exec(args) => Exec(Words(s, args))
    case Redir(cmd, file, mode) => Redir(Text(s, cmd), Word(s, file), mode)
    case Piped(l, r) => Piped(Text(s, l), Text(s, r))
    case List(l, r) => List(Text(s, l), Text(s, r))
    case Back(cmd) => Back(Text(s, cmd))
  }

  function Word(s: string, w: Span): string { if w.q <= w.eq <= |s| then s[w.q..w.eq] else "" }

  function Words(s: string, ws: seq<Span>): (r: seq<string>)
    ensures |r| == |ws| && forall i :: 0 <= i < |ws| ==> r[i] == Word(s, ws[i])
  {
    if ws == [] then [] else Words(s, ws[..|ws| - 1]) + [Word(s, ws[|ws| - 1])]
  }

  function Files(s: string, rs: seq<(Span, Mode)>): (r: seq<(string, Mode)>)
    ensures |r| == |rs| && forall i :: 0 <= i < |rs| ==> r[i] == (Word(s, rs[i].0), rs[i].1)
  {
    if rs == [] then [] else Files(s, rs[..|rs| - 1]) + [(Word(s, rs[|rs| - 1].0), rs[|rs| - 1].1)]
  }

  lemma WordsAdd(s: string, ws: seq<Span>, w: Span)
    ensures Words(s, ws + [w]) == Words(s, ws) + [Word(s, w)]
  {}

  lemma FilesAdd(s: string, rs: seq<(Span, Mode)>, r: (Span, Mode))
    ensures Files(s, rs + [r]) == Files(s, rs) + [(Word(s, r.0), r.1)]
  {}

  lemma {:induction false} TextWrap(s: string, c: Cmd<Span>, rs: seq<(Span, Mode)>)
    ensures Text(s, Wrap(c, rs)) == Wrap(Text(s, c), Files(s, rs))
    decreases |rs|
  {
    if rs != [] {
      TextWrap(s, c, rs[..|rs| - 1]);
      assert Files(s, rs)[..|rs| - 1] == Files(s, rs[..|rs| - 1]);
    }
  }

  // ----- simple commands -----

  /** What a simple command consists of: arguments and redirections, in any order. */
  datatype Item = Arg(w: string) | To(file: string, mode: Mode)

  function Symbol(mode: Mode): string { match mode case Read => "<" case Truncate => ">" case Append => ">>" }

  function ItemText(x: Item): string { if x.Arg? then x.w else Symbol(x.mode) + x.file }

  /** Items behind another one: an argument needs a space before it. */
  function Rest(items: seq<Item>): string { if items == [] then "" else Spaced(items[0]) + Rest(items[1..]) }

  function Spaced(x: Item): string { (if x.Arg? then " " else "") + ItemText(x) }

  function Items(items: seq<Item>): string { if items == [] then "" else ItemText(items[0]) + Rest(items[1..]) }

  function ArgsOf(items: seq<Item>): seq<string> {
    if items == [] then [] else (if items[0].Arg? then [items[0].w] else []) + ArgsOf(items[1..])
  }

  function FilesOf(items: seq<Item>): seq<(string, Mode)> {
    if items == [] then [] else (if items[0].To? then [(items[0].file, items[0].mode)] else []) + FilesOf(items[1..])
  }

  predicate WordOk(w: string) { w != "" && '\0' !in w && forall i :: 0 <= i < |w| ==> InWord(w[i]) }
  predicate ItemOk(x: Item) { WordOk(if x.Arg? then x.w else x.file) }

  // ----- commands -----

  /** How loosely a command is bound: 0 for words and redirections, 1 for pipes, 2 for &, 3 for ;. */
  function Level<W>(c: Cmd<W>): nat {
    match c case Exec(_) => 0 case Redir(_, _, _) => 0 case Piped(_, _) => 1 case Back(_) => 2 case List(_, _) => 3
  }

  /** A command where only those up to a level may stand; others go into parentheses. */
  function At(c: Cmd<string>, level: nat): string
    decreases c, 1
  {
    if Level(c) <= level then Print(c) else "(" + Print(c) + ")"
  }

  function Print(c: Cmd<string>): string
    decreases c, 0
  {
    match c
    case Exec(args) => Items(AllArgs(args))
    case Redir(cmd, file, mode) => At(cmd, 0) + (Symbol(mode) + file)
    case Piped(l, r) => At(l, 0) + "|" + At(r, 1)
    case Back(cmd) => At(cmd, 2) + "&"
    case List(l, r) => At(l, 2) + ";" + At(r, 3)
  }

  function AllArgs(args: seq<string>): (items: seq<Item>)
    ensures |items| == |args| && forall i :: 0 <= i < |args| ==> items[i] == Arg(args[i])
  {
    if args == [] then [] else [Arg(args[0])] + AllArgs(args[1..])
  }

  /** Every word is a word, and no command has more than nine. */
  predicate Printable(c: Cmd<string>) {
    match c
    case Exec(args) => |args| < MAXARGS && forall i :: 0 <= i < |args| ==> WordOk(args[i])
    case Redir(cmd, file, _) => Printable(cmd) && WordOk(file)
    case Piped(l, r) => Printable(l) && Printable(r)
    case List(l, r) => Printable(l) && Printable(r)
    case Back(cmd) => Printable(cmd)
  }

  lemma {:induction false} RestNoNul(items: seq<Item>)
    requires forall i :: 0 <= i < |items| ==> ItemOk(items[i])
    ensures '\0' !in Rest(items)
  {
    hide Spaced, ItemOk;
    if items != [] {
      ItemNoNul(items[0]);
      RestNoNul(items[1..]);
    }
  }

  lemma ItemNoNul(x: Item)
    requires ItemOk(x)
    ensures '\0' !in Spaced(x)
  {}

  /** A printed command is a C string. */
  lemma {:induction false} PrintNoNul(c: Cmd<string>)
    requires Printable(c)
    ensures '\0' !in Print(c)
  {
    match c
    case Exec(args) => if args != [] { RestNoNul(AllArgs(args)[1..]); }
    case Redir(cmd, _, _) => PrintNoNul(cmd);
    case Piped(l, r) => PrintNoNul(l); PrintNoNul(r);
    case List(l, r) => PrintNoNul(l); PrintNoNul(r);
    case Back(cmd) => PrintNoNul(cmd);
  }

  // ----- reading at a place -----

  /** p stands in s at i. */
  ghost predicate Has(s: string, i: nat, p: string) { i + |p| <= |s| && s[i..i + |p|] == p }

  lemma HasBoth(s: string, i: nat, a: string, b: string)
    requires Has(s, i, a + b)
    ensures Has(s, i, a) && Has(s, i + |a|, b)
  {
    var t := s[i..i + |a + b|];
    assert t[..|a|] == a && t[|a|..] == b;
    assert s[i..i + |a|] == t[..|a|] && s[i + |a|..i + |a| + |b|] == t[|a|..];
  }

  lemma HasChar(s: string, i: nat, c: char)
    requires Has(s, i, [c])
    ensures i < |s| && s[i] == c
  {
    assert s[i..i + 1][0] == c;
  }

  lemma HasFirst(s: string, i: nat, p: string)
    requires Has(s, i, p) && p != ""
    ensures i < |s| && s[i] == p[0]
  {
    assert s[i..i + |p|][0] == p[0];
  }

  /** The line is over at j, or one of these characters follows. */
  ghost predicate Then(s: string, j: nat, follow: string) { j == |s| || (j < |s| && s[j] in follow) }

  lemma NoSkip(s: string, i: nat)
    requires i == |s| || (i < |s| && !IsSpace(s[i]))
    ensures Skip(s, i) == i
  {}

  /** A word at i with no word character behind it. */
  lemma WordHere(s: string, i: nat, w: string)
    requires Has(s, i, w) && WordOk(w) && (i + |w| == |s| || !InWord(s[i + |w|]))
    ensures i < |s| && Skip(s, i) == i && WordEnd(s, i) == i + |w| && i + |w| <= |s|
            && Tok(s, i) == Token('a', i, i + |w|, Skip(s, i + |w|)) && s[i..i + |w|] == w && InWord(s[i])
  {
    assert forall k :: 0 <= k < |w| ==> s[i + k] == w[k];
    var e := WordEnd(s, i);
    assert InWord(s[i]);
  }

  // ----- simple commands read back -----

  /** parseexec after its test for a parenthesis, with what has been read so far. */
  function Simple(s: string, i: nat, args: seq<Span>, redirs: seq<(Span, Mode)>): Result<Cmd<Span>>
    requires i <= |s|
  {
    match Redirs(s, i, redirs)
    case Err(e) => Err(e)
    case Ok(rs, j) => Args(s, j, args, rs)
  }

  /** No redirection follows. */
  lemma NoRedirs(s: string, j: nat, before: seq<(Span, Mode)>)
    requires j == |s| || (j < |s| && !IsSpace(s[j]) && s[j] != '<' && s[j] != '>')
    ensures Redirs(s, j, before) == Ok(before, j)
  {
    NoSkip(s, j);
  }

  lemma NoItems(s: string, i: nat, args: seq<Span>, redirs: seq<(Span, Mode)>)
    requires Then(s, i, "|&;)")
    ensures Simple(s, i, args, redirs) == Ok(Wrap(Exec(args), redirs), i)
  {
    NoRedirs(s, i, redirs);
    NoSkip(s, i);
  }

  /** Behind an item that ends at e, `rest` goes on at j. */
  ghost predicate GoesOn(s: string, e: nat, j: nat, rest: seq<Item>) {
    && (e == |s| || (e < |s| && !InWord(s[e]))) && e <= j <= |s| && Skip(s, e) == j && Has(s, j, Items(rest))
    && j + |Items(rest)| == e + |Rest(rest)|
  }

  /** What stands behind the first of some items. */
  lemma FirstItem(s: string, i: nat, items: seq<Item>) returns (j: nat)
    requires items != [] && Has(s, i, Items(items)) && Then(s, i + |Items(items)|, "|&;)")
    requires forall k :: 0 <= k < |items| ==> ItemOk(items[k])
    ensures Has(s, i, ItemText(items[0])) && GoesOn(s, i + |ItemText(items[0])|, j, items[1..])
    ensures j + |Items(items[1..])| == i + |Items(items)|
  {
    hide ItemOk, Has, Then, Rest, GoesOn, ItemText;
    var x, rest := items[0], items[1..];
    assert rest != [] ==> ItemOk(rest[0]);
    HasBoth(s, i, ItemText(x), Rest(rest));
    j := RestGoesOn(s, i + |ItemText(x)|, rest);
    GoesOnLength(s, i + |ItemText(x)|, j, rest);
  }

  lemma GoesOnLength(s: string, e: nat, j: nat, rest: seq<Item>)
    requires GoesOn(s, e, j, rest)
    ensures j + |Items(rest)| == e + |Rest(rest)| && j <= |s|
  {}

  lemma RestGoesOn(s: string, e: nat, rest: seq<Item>) returns (j: nat)
    requires Has(s, e, Rest(rest)) && Then(s, e + |Rest(rest)|, "|&;)") && (rest != [] ==> ItemOk(rest[0]))
    ensures GoesOn(s, e, j, rest)
  {
    hide ItemOk, Skip, ItemText, Has;
    if rest == [] {
      HasEnd(s, e);
      NoSkip(s, e);
      j := e;
    } else if rest[0].Arg? {
      RestArg(rest);
      HasBoth(s, e, " ", Items(rest));
      HasChar(s, e, ' ');
      ItemStarts(s, e + 1, rest);
      SkipOne(s, e);
      j := e + 1;
    } else {
      RestTo(rest);
      ItemStarts(s, e, rest);
      NoSkip(s, e);
      j := e;
    }
  }

  lemma RestArg(rest: seq<Item>)
    requires rest != [] && rest[0].Arg?
    ensures Rest(rest) == " " + Items(rest)
  {}

  lemma RestTo(rest: seq<Item>)
    requires rest != [] && rest[0].To?
    ensures Rest(rest) == Items(rest)
  {}

  lemma HasEnd(s: string, e: nat)
    requires Has(s, e, "")
    ensures e <= |s|
  {}

  lemma SkipOne(s: string, e: nat)
    requires e < |s| && s[e] == ' ' && (e + 1 == |s| || !IsSpace(s[e + 1]))
    ensures Skip(s, e) == e + 1
  {
    NoSkip(s, e + 1);
  }

  lemma ItemStarts(s: string, i: nat, items: seq<Item>)
    requires items != [] && Has(s, i, Items(items)) && ItemOk(items[0])
    ensures i < |s| && !IsSpace(s[i]) && s[i] != '('
    ensures if items[0].Arg? then InWord(s[i]) else s[i] == '<' || s[i] == '>'
  {
    var p, t := Items(items), ItemText(items[0]);
    assert p[0] == t[0];
    HasFirst(s, i, p);
    if items[0].To? { assert t[0] == Symbol(items[0].mode)[0]; }
  }

  lemma SymbolHere(s: string, i: nat, mode: Mode)
    requires Has(s, i, Symbol(mode)) && i + |Symbol(mode)| < |s| && InWord(s[i + |Symbol(mode)|])
    ensures i < |s| && Next(s, i, "<>") && Skip(s, i) == i && Tok(s, i).next == i + |Symbol(mode)|
            && ModeOf(Tok(s, i).kind) == mode
  {
    var k := i + |Symbol(mode)|;
    NoSkip(s, k);
    assert s[i..k][0] == Symbol(mode)[0];
    if mode == Append { assert s[i..k][1] == '>'; }
  }

  lemma RedirStep(s: string, i: nat, k: nat, e: nat, j: nat, mode: Mode, before: seq<(Span, Mode)>)
    requires i <= k <= |s| && Next(s, i, "<>") && Skip(s, i) == i && Tok(s, i).next == k
             && ModeOf(Tok(s, i).kind) == mode
    requires k <= e <= j <= |s| && Tok(s, k) == Token('a', k, e, j)
    ensures Redirs(s, i, before) == Redirs(s, j, before + [(Span(k, e), mode)])
  {}

  /** One redirection. */
  lemma RedirHere(s: string, i: nat, file: string, mode: Mode, before: seq<(Span, Mode)>)
    requires Has(s, i, Symbol(mode) + file) && WordOk(file)
    requires var e := i + |Symbol(mode) + file|; e == |s| || (e < |s| && !InWord(s[e]))
    ensures var k, e := i + |Symbol(mode)|, i + |Symbol(mode) + file|;
            && i <= |s| && e <= |s| && Word(s, Span(k, e)) == file
            && Redirs(s, i, before) == Redirs(s, Skip(s, e), before + [(Span(k, e), mode)])
  {
    hide Tok, Skip, Redirs, InWord, Symbol, Has, WordOk, Next, ModeOf, Word;
    var k := i + |Symbol(mode)|;
    var e := k + |file|;
    HasBoth(s, i, Symbol(mode), file);
    WordHere(s, k, file);
    IsWord(s, k, e);
    SymbolHere(s, i, mode);
    RedirStep(s, i, k, e, Skip(s, e), mode, before);
  }

  lemma IsWord(s: string, k: nat, e: nat)
    requires k <= e <= |s|
    ensures Word(s, Span(k, e)) == s[k..e]
  {}

  lemma ArgStep(s: string, i: nat, w: string, args: seq<Span>, redirs: seq<(Span, Mode)>)
    requires Has(s, i, w) && WordOk(w) && (i + |w| == |s| || (i + |w| < |s| && !InWord(s[i + |w|])))
    ensures i < |s| && i + |w| <= |s| && Word(s, Span(i, i + |w|)) == w
    ensures Simple(s, i, args, redirs) ==
            if |args| + 1 >= MAXARGS then Err(TooManyArgs)
            else Simple(s, Skip(s, i + |w|), args + [Span(i, i + |w|)], redirs)
  {
    hide Tok, Skip, Redirs, Args, Next, Has, WordOk, InWord;
    WordHere(s, i, w);
    WordStart(s, i, redirs);
    ArgsWord(s, i, i + |w|, args, redirs);
  }

  lemma WordStart(s: string, i: nat, redirs: seq<(Span, Mode)>)
    requires i < |s| && InWord(s[i])
    ensures Redirs(s, i, redirs) == Ok(redirs, i) && !Next(s, i, "|)&;")
  {
    NoRedirs(s, i, redirs);
    NotNext(s, i);
  }

  lemma ArgsWord(s: string, i: nat, e: nat, args: seq<Span>, redirs: seq<(Span, Mode)>)
    requires i <= e <= |s| && Skip(s, i) == i && !Next(s, i, "|)&;") && Tok(s, i) == Token('a', i, e, Skip(s, e))
    ensures Args(s, i, args, redirs) ==
            if |args| + 1 >= MAXARGS then Err(TooManyArgs) else Simple(s, Skip(s, e), args + [Span(i, e)], redirs)
  {
    hide Tok, Skip, Redirs, Next;
  }

  lemma NotNext(s: string, i: nat)
    requires i < |s| && InWord(s[i])
    ensures !Next(s, i, "|)&;")
  {
    NoSkip(s, i);
  }

  /** What reading the items comes to. */
  ghost predicate ReadAs(s: string, r: Result<Cmd<Span>>, args: seq<string>, files: seq<(string, Mode)>, e: nat) {
    if |args| >= MAXARGS then r == Err(TooManyArgs)
    else r.Ok? && r.next == e && Text(s, r.value) == Wrap(Exec(args), files)
  }

  /** Arguments and redirections in any order are read as those arguments and, around them, those
      redirections, the first innermost; unless there are ten arguments or more. */
  lemma {:induction false} ItemsBack(s: string, i: nat, items: seq<Item>, args: seq<Span>, redirs: seq<(Span, Mode)>)
    requires Has(s, i, Items(items)) && Then(s, i + |Items(items)|, "|&;)") && |args| < MAXARGS
    requires forall k :: 0 <= k < |items| ==> ItemOk(items[k])
    ensures i <= |s|
    ensures ReadAs(s, Simple(s, i, args, redirs), Words(s, args) + ArgsOf(items), Files(s, redirs) + FilesOf(items),
                 i + |Items(items)|)
    decreases |items|
  {
    hide Simple, Has, Then, ItemOk, Items, ItemText, GoesOn, ReadAs, Words, Files, ArgsOf, FilesOf, Skip, Symbol;
    if items == [] {
      ItemsEnd(s, i, args, redirs);
    } else {
      var x, rest := items[0], items[1..];
      var e := i + |ItemText(x)|;
      var j := FirstItem(s, i, items);
      Behind(s, e, j, rest);
      if x.To? {
        var r := (Span(i + |Symbol(x.mode)|, e), x.mode);
        ToHere(s, i, x, args, redirs);
        ItemsBack(s, j, rest, args, redirs + [r]);
        ToJoins(s, items, redirs, r);
      } else {
        ArgText(x);
        ArgStep(s, i, x.w, args, redirs);
        if |args| + 1 < MAXARGS {
          ItemsBack(s, j, rest, args + [Span(i, e)], redirs);
          ArgJoins(s, items, args, Span(i, e));
        } else {
          TooMany(s, items, args, redirs, i);
        }
      }
    }
  }

  lemma ArgText(x: Item)
    requires x.Arg?
    ensures ItemText(x) == x.w && (ItemOk(x) <==> WordOk(x.w))
  {}

  lemma Behind(s: string, e: nat, j: nat, rest: seq<Item>)
    requires GoesOn(s, e, j, rest)
    ensures (e == |s| || (e < |s| && !InWord(s[e]))) && e <= j <= |s| && Skip(s, e) == j && Has(s, j, Items(rest))
  {}

  lemma OfTo(items: seq<Item>)
    requires items != [] && items[0].To?
    ensures ArgsOf(items) == ArgsOf(items[1..]) && FilesOf(items) ==
            [(items[0].file, items[0].mode)] + FilesOf(items[1..])
  {}

  lemma OfArg(items: seq<Item>)
    requires items != [] && items[0].Arg?
    ensures FilesOf(items) == FilesOf(items[1..]) && ArgsOf(items) == [items[0].w] + ArgsOf(items[1..])
  {}

  lemma Moved<T>(a: seq<T>, x: T, b: seq<T>)
    ensures a + [x] + b == a + ([x] + b)
  {}

  lemma ToJoins(s: string, items: seq<Item>, redirs: seq<(Span, Mode)>, r: (Span, Mode))
    requires items != [] && items[0].To? && r.1 == items[0].mode && Word(s, r.0) == items[0].file
    ensures ArgsOf(items[1..]) == ArgsOf(items)
    ensures Files(s, redirs + [r]) + FilesOf(items[1..]) == Files(s, redirs) + FilesOf(items)
  {
    hide Files, FilesOf, ArgsOf, Word;
    FilesAdd(s, redirs, r);
    OfTo(items);
    Moved(Files(s, redirs), (items[0].file, items[0].mode), FilesOf(items[1..]));
  }

  lemma ArgJoins(s: string, items: seq<Item>, args: seq<Span>, w: Span)
    requires items != [] && items[0].Arg? && Word(s, w) == items[0].w
    ensures FilesOf(items[1..]) == FilesOf(items)
    ensures Words(s, args + [w]) + ArgsOf(items[1..]) == Words(s, args) + ArgsOf(items)
  {
    hide Words, FilesOf, ArgsOf, Word;
    WordsAdd(s, args, w);
    OfArg(items);
    Moved(Words(s, args), items[0].w, ArgsOf(items[1..]));
  }

  lemma TooMany(s: string, items: seq<Item>, args: seq<Span>, redirs: seq<(Span, Mode)>, i: nat)
    requires items != [] && items[0].Arg? && |args| + 1 >= MAXARGS
    ensures ReadAs(s, Err(TooManyArgs), Words(s, args) + ArgsOf(items), Files(s, redirs) + FilesOf(items),
            i + |Items(items)|)
  {
    hide Files, FilesOf, ArgsOf, Words;
    OfArg(items);
  }

  /** One redirection among the items. */
  lemma ToHere(s: string, i: nat, x: Item, args: seq<Span>, redirs: seq<(Span, Mode)>)
    requires x.To? && Has(s, i, ItemText(x)) && ItemOk(x)
    requires var e := i + |ItemText(x)|; e == |s| || (e < |s| && !InWord(s[e]))
    ensures var k, e := i + |Symbol(x.mode)|, i + |ItemText(x)|;
            && i <= |s| && e <= |s| && Word(s, Span(k, e)) == x.file
            && Simple(s, i, args, redirs) == Simple(s, Skip(s, e), args, redirs + [(Span(k, e), x.mode)])
  {
    hide Redirs, Args, Skip, InWord, Has, WordOk;
    RedirHere(s, i, x.file, x.mode, redirs);
  }

  lemma ItemsEnd(s: string, i: nat, args: seq<Span>, redirs: seq<(Span, Mode)>)
    requires Then(s, i + |Items([])|, "|&;)") && |args| < MAXARGS
    ensures i <= |s|
    ensures ReadAs(s, Simple(s, i, args, redirs), Words(s, args) + ArgsOf([]), Files(s, redirs) + FilesOf([]),
            i + |Items([])|)
  {
    hide Simple, Wrap, Text;
    NoItems(s, i, args, redirs);
    TextWrap(s, Exec(args), redirs);
    TextExec(s, args);
    assert Words(s, args) + [] == Words(s, args) && Files(s, redirs) + [] == Files(s, redirs);
  }

  lemma TextExec(s: string, args: seq<Span>)
    ensures Text(s, Exec(args)) == Exec(Words(s, args))
  {}

  /** parseexec where no parenthesis opens. */
  lemma IsSimple(s: string, i: nat)
    requires i == |s| || (i < |s| && !IsSpace(s[i]) && s[i] != '(')
    ensures ExecOrBlock(s, i) == Simple(s, i, [], [])
  {
    NoSkip(s, i);
  }

  /** A simple command, as a line in the shell has it: arguments and redirections mixed in any way. */
  lemma SimpleBack(s: string, i: nat, items: seq<Item>)
    requires Has(s, i, Items(items)) && Then(s, i + |Items(items)|, "|&;)")
    requires forall k :: 0 <= k < |items| ==> ItemOk(items[k])
    ensures i <= |s|
    ensures ReadAs(s, ExecOrBlock(s, i), ArgsOf(items), FilesOf(items), i + |Items(items)|)
  {
    hide Simple, ReadAs, Has, Then, ItemOk, ExecOrBlock;
    NothingYet(s);
    ItemsBack(s, i, items, [], []);
    if items != [] { ItemStarts(s, i, items); } else { ThenNot(s, i, items); }
    IsSimple(s, i);
    assert [] + ArgsOf(items) == ArgsOf(items) && [] + FilesOf(items) == FilesOf(items);
  }

  lemma NothingYet(s: string)
    ensures Words(s, []) == [] && Files(s, []) == []
  {}

  lemma ThenNot(s: string, i: nat, items: seq<Item>)
    requires items == [] && Then(s, i + |Items(items)|, "|&;)")
    ensures i == |s| || (i < |s| && !IsSpace(s[i]) && s[i] != '(')
  {}

  // ----- redirections around a command -----

  function Base(c: Cmd<string>): Cmd<string> { if c.Redir? then Base(c.cmd) else c }

  function Around(c: Cmd<string>): seq<(string, Mode)> {
    if c.Redir? then Around(c.cmd) + [(c.file, c.mode)] else []
  }

  function AllTo(files: seq<(string, Mode)>): (items: seq<Item>)
    ensures |items| == |files| && forall i :: 0 <= i < |files| ==> items[i] == To(files[i].0, files[i].1)
  {
    if files == [] then [] else [To(files[0].0, files[0].1)] + AllTo(files[1..])
  }

  lemma {:induction false} RestTwo(a: seq<Item>, b: seq<Item>)
    ensures Rest(a + b) == Rest(a) + Rest(b)
  {
    hide Spaced;
    if a == [] {
      assert a + b == b;
    } else {
      RestTwo(a[1..], b);
      assert (a + b)[1..] == a[1..] + b && (a + b)[0] == a[0];
      assert Spaced(a[0]) + (Rest(a[1..]) + Rest(b)) == Spaced(a[0]) + Rest(a[1..]) + Rest(b);
    }
  }

  /** Redirections are written right behind. */
  lemma ItemsThenTo(a: seq<Item>, b: seq<Item>)
    requires b != [] ==> b[0].To?
    ensures Items(a + b) == Items(a) + Rest(b)
  {
    hide Items, ItemText, Rest;
    if a == [] {
      assert a + b == b;
      RestNone();
      if b != [] { RestTo(b); }
    } else {
      assert (a + b)[1..] == a[1..] + b && (a + b)[0] == a[0];
      FirstThenRest(a);
      FirstThenRest(a + b);
      RestTwo(a[1..], b);
      Joined(ItemText(a[0]), Rest(a[1..]), Rest(b));
    }
  }

  lemma FirstThenRest(a: seq<Item>)
    requires a != []
    ensures Items(a) == ItemText(a[0]) + Rest(a[1..])
  {
    hide ItemText, Rest;
  }

  lemma RestNone()
    ensures Rest([]) == "" && Items([]) == ""
  {}

  lemma RestOne(x: Item)
    requires x.To?
    ensures Rest([x]) == Symbol(x.mode) + x.file
  {}

  lemma ToAdd(files: seq<(string, Mode)>, f: string, m: Mode)
    ensures AllTo(files + [(f, m)]) == AllTo(files) + [To(f, m)]
    ensures Rest(AllTo(files + [(f, m)])) == Rest(AllTo(files)) + (Symbol(m) + f)
  {
    hide AllTo, Rest, Symbol;
    assert AllTo(files + [(f, m)]) == AllTo(files) + [To(f, m)];
    RestTwo(AllTo(files), [To(f, m)]);
    RestOne(To(f, m));
  }

  /** A command, its redirections taken apart. */
  lemma {:induction false} TakenApart(c: Cmd<string>)
    ensures c == Wrap(Base(c), Around(c)) && !Base(c).Redir?
    ensures At(c, 0) == At(Base(c), 0) + Rest(AllTo(Around(c)))
  {
    hide At, Rest, AllTo, Wrap, Around, Level, Base;
    if c.Redir? {
      TakenApart(c.cmd);
      OneAround(c);
    } else {
      NothingAround(c);
    }
  }

  lemma {:induction false} PartsPrintable(c: Cmd<string>)
    requires Printable(c)
    ensures Printable(Base(c)) && forall i :: 0 <= i < |Around(c)| ==> WordOk(Around(c)[i].0)
  {
    hide WordOk;
    if c.Redir? { PartsPrintable(c.cmd); }
  }

  lemma NothingAround(c: Cmd<string>)
    requires !c.Redir?
    ensures Base(c) == c && Around(c) == [] && Wrap(c, []) == c && At(c, 0) + Rest(AllTo([])) == At(c, 0)
  {
    hide At, Items;
    RestNone();
  }

  lemma OneAround(c: Cmd<string>)
    requires c.Redir? && At(c.cmd, 0) == At(Base(c.cmd), 0) + Rest(AllTo(Around(c.cmd)))
             && c.cmd == Wrap(Base(c.cmd), Around(c.cmd))
    ensures At(c, 0) == At(Base(c), 0) + Rest(AllTo(Around(c))) && c == Wrap(Base(c), Around(c))
    ensures Base(c) == Base(c.cmd)
  {
    hide Rest, Items, Symbol, AllTo, At;
    AtRedir(c);
    assert Around(c)[..|Around(c)| - 1] == Around(c.cmd);
    ToAdd(Around(c.cmd), c.file, c.mode);
    Joined(At(Base(c), 0), Rest(AllTo(Around(c.cmd))), Symbol(c.mode) + c.file);
  }

  lemma AtRedir(c: Cmd<string>)
    requires Level(c) == 0
    ensures At(c, 0) == Print(c) && (c.Redir? ==> At(c, 0) == At(c.cmd, 0) + (Symbol(c.mode) + c.file))
  {
    hide Items, Symbol;
  }

  lemma Joined(a: string, b: string, c: string)
    ensures a + (b + c) == a + b + c
  {}

  lemma {:induction false} OfAllArgs(args: seq<string>, files: seq<(string, Mode)>)
    ensures var items := AllArgs(args) + AllTo(files); ArgsOf(items) == args && FilesOf(items) == files
    decreases |args|
  {
    hide AllArgs, AllTo;
    var items := AllArgs(args) + AllTo(files);
    if args == [] {
      assert items == AllTo(files);
      OfAllTo(files);
    } else {
      OfAllArgs(args[1..], files);
      assert items[1..] == AllArgs(args[1..]) + AllTo(files) && items[0] == Arg(args[0]);
      assert args == [args[0]] + args[1..];
    }
  }

  lemma {:induction false} OfAllTo(files: seq<(string, Mode)>)
    ensures ArgsOf(AllTo(files)) == [] && FilesOf(AllTo(files)) == files
  {
    if files != [] {
      OfAllTo(files[1..]);
      assert AllTo(files)[1..] == AllTo(files[1..]);
    }
  }

  /** Words with redirections around them. */
  lemma WordsBack(s: string, i: nat, c: Cmd<string>)
    requires Level(c) == 0 && Base(c).Exec? && Printable(c) && Has(s, i, Print(c)) && Then(s, i + |Print(c)|, "|&;)")
    ensures i <= |s|
    ensures var r := ExecOrBlock(s, i); r.Ok? && r.next == i + |Print(c)| && Text(s, r.value) == c
  {
    hide Has, Then, Print, At, Rest, Items, Text, ExecOrBlock, Wrap, ArgsOf, FilesOf, Printable, AllArgs, AllTo,
      Base, Around, Level;
    TakenApart(c);
    AtRedir(c);
    PartsPrintable(c);
    var args, files := Base(c).args, Around(c);
    BaseWords(args);
    var items := AllArgs(args) + AllTo(files);
    BasePrint(args);
    ItemsThenTo(AllArgs(args), AllTo(files));
    OfAllArgs(args, files);
    SimpleBack(s, i, items);
  }

  lemma BaseWords(args: seq<string>)
    ensures Printable(Exec(args)) ==> |args| < MAXARGS && forall i :: 0 <= i < |args| ==> WordOk(args[i])
  {}

  lemma BasePrint(args: seq<string>)
    ensures At(Exec(args), 0) == Items(AllArgs(args))
  {}

  /** Redirections alone. */
  lemma {:induction false} RedirsBack(s: string, i: nat, files: seq<(string, Mode)>, before: seq<(Span, Mode)>)
    requires Has(s, i, Rest(AllTo(files))) && Then(s, i + |Rest(AllTo(files))|, "|&;)")
    requires forall k :: 0 <= k < |files| ==> WordOk(files[k].0)
    ensures i <= |s|
    ensures var r := Redirs(s, i, before);
            && r.Ok? && r.next == i + |Rest(AllTo(files))| && Files(s, r.value) == Files(s, before) + files
    decreases |files|
  {
    hide Redirs, Skip, InWord, Files, WordOk, Symbol, Items, Rest, Has, Then, Word, AllTo;
    if files == [] {
      NoTo(s, i, before);
    } else {
      var f, m, rest := files[0].0, files[0].1, files[1..];
      var e := i + |Symbol(m) + f|;
      FirstTo(files);
      HasBoth(s, i, Symbol(m) + f, Rest(AllTo(rest)));
      ToFollows(s, e, rest);
      RedirHere(s, i, f, m, before);
      var r := (Span(i + |Symbol(m)|, e), m);
      RedirsBack(s, e, rest, before + [r]);
      FilesJoin(s, before, r, files);
    }
  }

  lemma FilesJoin(s: string, before: seq<(Span, Mode)>, r: (Span, Mode), files: seq<(string, Mode)>)
    requires files != [] && files[0] == (Word(s, r.0), r.1)
    ensures Files(s, before + [r]) + files[1..] == Files(s, before) + files
  {
    hide Files, Word;
    FilesAdd(s, before, r);
    Moved(Files(s, before), files[0], files[1..]);
    assert files == [files[0]] + files[1..];
  }

  lemma FirstTo(files: seq<(string, Mode)>)
    requires files != []
    ensures Rest(AllTo(files)) == (Symbol(files[0].1) + files[0].0) + Rest(AllTo(files[1..]))
  {
    hide Spaced, Symbol;
    assert AllTo(files)[1..] == AllTo(files[1..]);
    SpacedTo(AllTo(files)[0]);
  }

  lemma SpacedTo(x: Item)
    requires x.To?
    ensures Spaced(x) == ItemText(x) == Symbol(x.mode) + x.file
  {}

  lemma NoTo(s: string, i: nat, before: seq<(Span, Mode)>)
    requires Has(s, i, Rest(AllTo([]))) && Then(s, i + |Rest(AllTo([]))|, "|&;)")
    ensures i <= |s| && Redirs(s, i, before) == Ok(before, i) && Rest(AllTo([])) == ""
    ensures Files(s, before) + [] == Files(s, before)
  {
    NoRedirs(s, i, before);
  }

  lemma ToFollows(s: string, e: nat, rest: seq<(string, Mode)>)
    requires Has(s, e, Rest(AllTo(rest))) && Then(s, e + |Rest(AllTo(rest))|, "|&;)")
    ensures e <= |s| && (e == |s| || (!InWord(s[e]) && !IsSpace(s[e]))) && Skip(s, e) == e
  {
    if rest != [] {
      var p := Rest(AllTo(rest));
      assert p[0] == Symbol(rest[0].1)[0];
      HasFirst(s, e, p);
    }
    NoSkip(s, e);
  }

  // ----- levels -----

  /** What may follow a command at a level. */
  function Follow(level: nat): string { if level == 0 then "|&;)" else if level < 3 then "&;)" else ")" }

  /** The part of the parser for a level reads c from i to e. */
  ghost predicate Reads(s: string, i: nat, c: Cmd<string>, level: nat, e: nat) {
    && i <= |s| && e <= |s|
    && (level == 0 ==> var r := ExecOrBlock(s, i); r.Ok? && r.next == e && Text(s, r.value) == c)
    && (level == 1 ==> var r := Pipeline(s, i); r.Ok? && r.next == e && Text(s, r.value) == c)
    && (level == 2 ==> Pipeline(s, i).Ok? && exists v: Cmd<Span> :: AmpReads(s, i, v, e) && Text(s, v) == c)
    && (level >= 3 ==> var r := Line(s, i); r.Ok? && r.next == e && Text(s, r.value) == c)
  }

  /** After the pipeline at i and the ampersands up to e, parseline has the command v. */
  ghost predicate AmpReads(s: string, i: nat, v: Cmd<Span>, e: nat) {
    && i <= |s| && e <= |s| && Pipeline(s, i).Ok?
    && Ampersands(s, Pipeline(s, i).next, Pipeline(s, i).value) == Ampersands(s, e, v)
  }

  lemma PipelineEnds(s: string, i: nat, cmd: Cmd<Span>, e: nat)
    requires i <= |s| && ExecOrBlock(s, i) == Ok(cmd, e) && Then(s, e, "&;)")
    ensures Pipeline(s, i) == Ok(cmd, e)
  {
    hide ExecOrBlock;
    NoSkip(s, e);
  }

  lemma PipeToAmp(s: string, i: nat, c: Cmd<string>, e: nat)
    requires Reads(s, i, c, 1, e)
    ensures Reads(s, i, c, 2, e)
  {
    hide Pipeline, Ampersands, Text;
    assert AmpReads(s, i, Pipeline(s, i).value, e);
  }

  lemma AmpToLine(s: string, i: nat, c: Cmd<string>, e: nat)
    requires Reads(s, i, c, 2, e) && Then(s, e, ")")
    ensures Reads(s, i, c, 3, e)
  {
    hide Pipeline, Text;
    var v :| AmpReads(s, i, v, e) && Text(s, v) == c;
    NoSkip(s, e);
    assert Ampersands(s, e, v) == (v, e);
  }

  lemma PlainToPipe(s: string, i: nat, c: Cmd<string>, e: nat)
    requires Reads(s, i, c, 0, e) && Then(s, e, "&;)")
    ensures Reads(s, i, c, 1, e)
  {
    hide ExecOrBlock, Text, Pipeline;
    PipelineEnds(s, i, ExecOrBlock(s, i).value, e);
  }

  /** What is read at a level is read at the ones above. */
  lemma Lift(s: string, i: nat, c: Cmd<string>, from: nat, level: nat, e: nat)
    requires from <= level <= 3 && Reads(s, i, c, from, e) && Then(s, e, Follow(level))
    ensures Reads(s, i, c, level, e)
  {
    hide Reads;
    if from == 0 && level > 0 { PlainToPipe(s, i, c, e); }
    if from <= 1 && level > 1 { PipeToAmp(s, i, c, e); }
    if from <= 2 && level > 2 { AmpToLine(s, i, c, e); }
  }

  lemma {:induction false} FirstChar(c: Cmd<string>, level: nat)
    requires Printable(c)
    ensures At(c, level) == "" || !IsSpace(At(c, level)[0])
    ensures Print(c) == "" || !IsSpace(Print(c)[0])
  {
    match c
    case Exec(args) => if args != [] { assert Print(c)[0] == args[0][0]; }
    case Redir(cmd, _, _) => FirstChar(cmd, 0);
    case Piped(l, _) => FirstChar(l, 0);
    case Back(cmd) => FirstChar(cmd, 2);
    case List(l, _) => FirstChar(l, 2);
  }

  lemma NoSpaceAt(s: string, i: nat, c: Cmd<string>, level: nat)
    requires Printable(c) && level <= 3 && Has(s, i, At(c, level)) && Then(s, i + |At(c, level)|, Follow(level))
    ensures i <= |s| && (i == |s| || !IsSpace(s[i])) && Skip(s, i) == i
  {
    hide At;
    FirstChar(c, level);
    if At(c, level) != "" { HasFirst(s, i, At(c, level)); }
    NoSkip(s, i);
  }

  /** A single symbol and the cursor after it. */
  lemma SymbolTok(s: string, i: nat, c: char)
    requires i < |s| && s[i] == c && IsSymbol(c) && c != '>' && (i + 1 == |s| || !IsSpace(s[i + 1]))
    ensures Skip(s, i) == i && Next(s, i, [c]) && Tok(s, i).next == i + 1
  {
    NoSkip(s, i + 1);
  }

  /** Reading back at a level. */
  lemma {:induction false} LevelBack(s: string, i: nat, c: Cmd<string>, level: nat)
    requires Printable(c) && level <= 3 && Has(s, i, At(c, level)) && Then(s, i + |At(c, level)|, Follow(level))
    ensures Reads(s, i, c, level, i + |At(c, level)|)
    decreases c, 4
  {
    hide Reads, Has, Print;
    if Level(c) <= level {
      BodyBack(s, i, c);
      Lift(s, i, c, Level(c), level, i + |Print(c)|);
    } else {
      PlainBlock(s, i, c);
      Lift(s, i, c, 0, level, i + |At(c, level)|);
    }
  }

  /** A command in parentheses with no redirection behind it. */
  lemma {:induction false} PlainBlock(s: string, i: nat, c: Cmd<string>)
    requires Printable(c) && Has(s, i, "(" + Print(c) + ")") && Then(s, i + |"(" + Print(c) + ")"|, "|&;)")
    ensures Reads(s, i, c, 0, i + |"(" + Print(c) + ")"|)
    decreases c, 3
  {
    hide Print, Has, Block, Line, Redirs, Text;
    var j := i + |"(" + Print(c) + ")"|;
    BlockBack(s, i, c);
    NoRedirs(s, j, []);
    IsBlock(s, i);
    WrapNone(Line(s, i + 1).value);
  }

  lemma WrapNone<W>(c: Cmd<W>)
    ensures Wrap(c, []) == c
  {}

  lemma IsBlock(s: string, i: nat)
    requires i < |s| && s[i] == '('
    ensures ExecOrBlock(s, i) == Block(s, i)
  {
    NoSkip(s, i);
  }

  /** A command with the redirections read behind it. */
  function Wrapped(cmd: Cmd<Span>, redirs: Result<seq<(Span, Mode)>>): Result<Cmd<Span>> {
    if redirs.Ok? then Ok(Wrap(cmd, redirs.value), redirs.next) else Err(redirs.error)
  }

  /** A command in parentheses, up to the redirections behind it. */
  lemma {:induction false} BlockBack(s: string, i: nat, c: Cmd<string>)
    requires Printable(c) && Has(s, i, "(" + Print(c) + ")")
    requires var j := i + |"(" + Print(c) + ")"|; j == |s| || (j < |s| && !IsSpace(s[j]))
    ensures i + |"(" + Print(c) + ")"| <= |s| && i < |s| && s[i] == '('
    ensures var j := i + |"(" + Print(c) + ")"|;
            var l := Line(s, i + 1);
            && l.Ok? && Text(s, l.value) == c
            && Block(s, i) == Wrapped(l.value, Redirs(s, j, []))
    decreases c, 2
  {
    hide Print, Has, Redirs, Wrap, Text, Skip, Tok, Next, Line, Block, Printable, Reads, Then, Level, IsSpace;
    var j := i + |"(" + Print(c) + ")"|;
    InParens(s, i, Print(c));
    Closes(s, j - 1, c);
    BodyBack(s, i + 1, c);
    Lift(s, i + 1, c, Level(c), 3, j - 1);
    ReadsLine(s, i + 1, c, j - 1);
    BodyStarts(s, i + 1, c);
    SymbolTok(s, i, '(');
    SymbolTok(s, j - 1, ')');
    BlockUnfold(s, i, j, Line(s, i + 1).value);
  }

  lemma InParens(s: string, i: nat, p: string)
    requires Has(s, i, "(" + p + ")")
    ensures |"(" + p + ")"| == |p| + 2 && i + |p| + 1 < |s| && s[i] == '(' && Has(s, i + 1, p) && s[i + 1 + |p|] == ')'
  {
    hide Has;
    HasBoth(s, i, "(" + p, ")");
    HasBoth(s, i, "(", p);
    HasChar(s, i, '(');
    HasChar(s, i + 1 + |p|, ')');
  }

  lemma Closes(s: string, j: nat, c: Cmd<string>)
    requires j < |s| && s[j] == ')'
    ensures Then(s, j, Follow(Level(c))) && Then(s, j, Follow(3)) && Then(s, j, ")") && Level(c) <= 3 && !IsSpace(s[j])
  {}

  lemma ReadsLine(s: string, i: nat, c: Cmd<string>, e: nat)
    requires Reads(s, i, c, 3, e)
    ensures i <= |s| && Line(s, i).Ok? && Line(s, i).next == e && Text(s, Line(s, i).value) == c
  {}

  lemma BodyStarts(s: string, i: nat, c: Cmd<string>)
    requires Printable(c) && Has(s, i, Print(c)) && Then(s, i + |Print(c)|, ")")
    ensures i == |s| || (i < |s| && !IsSpace(s[i]))
  {
    NoSpaceAt(s, i, c, 3);
  }

  lemma BlockUnfold(s: string, i: nat, j: nat, cmd: Cmd<Span>)
    requires i < j - 1 < |s| && s[i] == '(' && Tok(s, i).next == i + 1 && Line(s, i + 1) == Ok(cmd, j - 1)
    requires Next(s, j - 1, ")") && Skip(s, j - 1) == j - 1 && Tok(s, j - 1).next == j
    ensures Block(s, i) == Wrapped(cmd, Redirs(s, j, []))
  {
    hide Line, Redirs, Wrap, Skip, Tok, Next;
  }

  /** A command in parentheses with redirections around it. */
  lemma {:induction false} WrappedBack(s: string, i: nat, c: Cmd<string>)
    requires c.Redir? && Level(Base(c)) > 0 && Printable(c) && Has(s, i, Print(c)) && Then(s, i + |Print(c)|, "|&;)")
    ensures Reads(s, i, c, 0, i + |Print(c)|)
    decreases c, 0
  {
    hide Has, Print, Rest, Items, Text, Line, Redirs, Wrap, Block, Then, Around, Printable, Symbol, AllTo, At, Base,
      Reads;
    TakenApart(c);
    AtRedir(c);
    PartsPrintable(c);
    var b, files := Base(c), Around(c);
    BaseSmaller(c);
    AtParen(b);
    var p := "(" + Print(b) + ")";
    var j := i + |p|;
    HasBoth(s, i, p, Rest(AllTo(files)));
    ToFollows(s, j, files);
    BlockBack(s, i, b);
    RedirsBack(s, j, files, []);
    BlockWrapped(s, i, j, c, Line(s, i + 1).value, Redirs(s, j, []).value, i + |Print(c)|);
  }

  lemma AtParen(c: Cmd<string>)
    requires Level(c) > 0
    ensures At(c, 0) == "(" + Print(c) + ")"
  {}

  lemma BlockWrapped(s: string, i: nat, j: nat, c: Cmd<string>, l: Cmd<Span>, rs: seq<(Span, Mode)>, e: nat)
    requires i < |s| && s[i] == '(' && j <= |s| && e <= |s| && Redirs(s, j, []) == Ok(rs, e)
    requires Block(s, i) == Wrapped(l, Redirs(s, j, []))
    requires Text(s, l) == Base(c) && Files(s, rs) == Files(s, []) + Around(c) && c == Wrap(Base(c), Around(c))
    ensures Reads(s, i, c, 0, e)
  {
    hide Block, Redirs, Wrap, Text, Base, Around, ExecOrBlock;
    IsBlock(s, i);
    NothingYet(s);
    assert [] + Around(c) == Around(c);
    TextWrap(s, l, rs);
  }

  lemma {:induction false} BaseSmaller(c: Cmd<string>)
    requires c.Redir?
    ensures Base(c) < c
  {
    if c.cmd.Redir? { BaseSmaller(c.cmd); }
  }

  /** Parsing reads back what was printed, at the command's own level. */
  lemma {:induction false} BodyBack(s: string, i: nat, c: Cmd<string>)
    requires Printable(c) && Has(s, i, Print(c)) && Then(s, i + |Print(c)|, Follow(Level(c)))
    ensures Reads(s, i, c, Level(c), i + |Print(c)|)
    decreases c, 1
  {
    hide Has, At, Then, Reads;
    match c
    case Exec(_) => PlainBack(s, i, c);
    case Redir(_, _, _) => if Level(Base(c)) > 0 { WrappedBack(s, i, c); } else { PlainBack(s, i, c); }
    case Piped(l, r) => PipeBack(s, i, l, r);
    case Back(cmd) => BackBack(s, i, cmd);
    case List(l, r) => ListBack(s, i, l, r);
  }

  lemma PlainBack(s: string, i: nat, c: Cmd<string>)
    requires Level(c) == 0 && Level(Base(c)) == 0 && Printable(c) && Has(s, i, Print(c))
             && Then(s, i + |Print(c)|, "|&;)")
    ensures Reads(s, i, c, 0, i + |Print(c)|)
  {
    hide Print, Then, Text, ExecOrBlock, Printable, Wrap;
    TakenApart(c);
    WordsBack(s, i, c);
  }

  lemma {:induction false} PipeBack(s: string, i: nat, l: Cmd<string>, r: Cmd<string>)
    requires Printable(l) && Printable(r) && Has(s, i, At(l, 0) + "|" + At(r, 1))
             && Then(s, i + |At(l, 0) + "|" + At(r, 1)|, "&;)")
    ensures Reads(s, i, Piped(l, r), 1, i + |At(l, 0) + "|" + At(r, 1)|)
    decreases Piped(l, r), 0
  {
    hide At, Has, ExecOrBlock, Pipeline, Text, Printable;
    var j, e := i + |At(l, 0)|, i + |At(l, 0) + "|" + At(r, 1)|;
    HasBoth(s, i, At(l, 0) + "|", At(r, 1));
    HasBoth(s, i, At(l, 0), "|");
    HasChar(s, j, '|');
    NoSpaceAt(s, j + 1, r, 1);
    LevelBack(s, i, l, 0);
    LevelBack(s, j + 1, r, 1);
    SymbolTok(s, j, '|');
    PipelineGoesOn(s, i, j, ExecOrBlock(s, i).value, Pipeline(s, j + 1).value, e);
    TextPiped(s, ExecOrBlock(s, i).value, Pipeline(s, j + 1).value);
  }

  lemma TextPiped(s: string, x: Cmd<Span>, y: Cmd<Span>)
    ensures Text(s, Piped(x, y)) == Piped(Text(s, x), Text(s, y)) && Text(s, List(x, y)) == List(Text(s, x), Text(s, y))
    ensures Text(s, Back(x)) == Back(Text(s, x))
  {}

  lemma PipelineGoesOn(s: string, i: nat, j: nat, x: Cmd<Span>, y: Cmd<Span>, e: nat)
    requires i <= |s| && ExecOrBlock(s, i) == Ok(x, j) && j < |s| && Skip(s, j) == j && Next(s, j, "|")
             && Tok(s, j).next == j + 1
    requires Pipeline(s, j + 1) == Ok(y, e)
    ensures Pipeline(s, i) == Ok(Piped(x, y), e)
  {
    hide ExecOrBlock, Skip, Tok, Next;
  }

  lemma {:induction false} BackBack(s: string, i: nat, cmd: Cmd<string>)
    requires Printable(cmd) && Has(s, i, At(cmd, 2) + "&") && Then(s, i + |At(cmd, 2) + "&"|, "&;)")
    ensures Reads(s, i, Back(cmd), 2, i + |At(cmd, 2) + "&"|)
    decreases Back(cmd), 0
  {
    hide At, Has, Pipeline, Text, Printable, Ampersands;
    var j := i + |At(cmd, 2)|;
    HasBoth(s, i, At(cmd, 2), "&");
    HasChar(s, j, '&');
    LevelBack(s, i, cmd, 2);
    var v :| AmpReads(s, i, v, j) && Text(s, v) == cmd;
    OneAmpersand(s, j, v);
    TextPiped(s, v, v);
    assert AmpReads(s, i, Back(v), j + 1);
  }

  lemma OneAmpersand(s: string, j: nat, v: Cmd<Span>)
    requires j < |s| && s[j] == '&' && (j + 1 == |s| || !IsSpace(s[j + 1]))
    ensures Ampersands(s, j, v) == Ampersands(s, j + 1, Back(v))
  {
    SymbolTok(s, j, '&');
  }

  lemma {:induction false} ListBack(s: string, i: nat, l: Cmd<string>, r: Cmd<string>)
    requires Printable(l) && Printable(r) && Has(s, i, At(l, 2) + ";" + At(r, 3))
             && Then(s, i + |At(l, 2) + ";" + At(r, 3)|, ")")
    ensures Reads(s, i, List(l, r), 3, i + |At(l, 2) + ";" + At(r, 3)|)
    decreases List(l, r), 0
  {
    hide At, Has, Pipeline, Line, Text, Printable, Ampersands;
    var j, e := i + |At(l, 2)|, i + |At(l, 2) + ";" + At(r, 3)|;
    HasBoth(s, i, At(l, 2) + ";", At(r, 3));
    HasBoth(s, i, At(l, 2), ";");
    HasChar(s, j, ';');
    NoSpaceAt(s, j + 1, r, 3);
    LevelBack(s, i, l, 2);
    LevelBack(s, j + 1, r, 3);
    var v :| AmpReads(s, i, v, j) && Text(s, v) == l;
    LineGoesOn(s, i, j, v, Line(s, j + 1).value, e);
    TextPiped(s, v, Line(s, j + 1).value);
  }

  lemma LineGoesOn(s: string, i: nat, j: nat, x: Cmd<Span>, y: Cmd<Span>, e: nat)
    requires AmpReads(s, i, x, j) && j < |s| && s[j] == ';' && (j + 1 == |s| || !IsSpace(s[j + 1]))
    requires Line(s, j + 1) == Ok(y, e)
    ensures Line(s, i) == Ok(List(x, y), e)
  {
    hide Pipeline;
    SymbolTok(s, j, ';');
    assert Ampersands(s, j, x) == (x, j);
  }

  /** Round trip: every printable command comes back from its printing. */
  lemma RoundTrip(t: Cmd<string>)
    requires Printable(t)
    ensures var s := Print(t); Command(s).Ok? && Text(s, Command(s).value) == t
  {
    hide Line, Print, Text;
    var s := Print(t);
    assert s[0..0 + |s|] == s;
    BodyBack(s, 0, t);
    Lift(s, 0, t, Level(t), 3, |s|);
    NoSkip(s, |s|);
  }

  /** A closing parenthesis too many is an error, wherever the line goes on. */
  lemma StrayParen(t: Cmd<string>, rest: string)
    requires Printable(t)
    ensures Command(Print(t) + ")" + rest) == Err(Leftovers)
  {
    hide Line, Print, Text, Printable, Reads, Level;
    var s, e := Print(t) + ")" + rest, |Print(t)|;
    assert s[0..0 + e] == Print(t) && s[e] == ')';
    Closes(s, e, t);
    BodyBack(s, 0, t);
    Lift(s, 0, t, Level(t), 3, e);
    ReadsLine(s, 0, t, e);
    NoSkip(s, e);
  }

  /** So is one that is missing. */
  lemma OpenParen(t: Cmd<string>)
    requires Printable(t)
    ensures Command("(" + Print(t)) == Err(MissingParen)
  {
    hide Print, Text, Printable, Reads, Level, Tok, Skip, Redirs;
    var s := "(" + Print(t);
    assert s[1..1 + |Print(t)|] == Print(t) && s[0] == '(';
    AtEnd(s, t);
    BodyBack(s, 1, t);
    Lift(s, 1, t, Level(t), 3, |s|);
    ReadsLine(s, 1, t, |s|);
    NoSpaceAt(s, 1, t, 3);
    SymbolTok(s, 0, '(');
    NotClosed(s);
  }

  lemma AtEnd(s: string, t: Cmd<string>)
    ensures Then(s, |s|, Follow(Level(t))) && Then(s, |s|, Follow(3)) && Level(t) <= 3 && At(t, 3) == Print(t)
  {
    hide Print;
  }

  lemma NotClosed(s: string)
    requires s != "" && s[0] == '(' && Tok(s, 0).next == 1 && Line(s, 1).Ok? && Line(s, 1).next == |s|
    ensures Command(s) == Err(MissingParen)
  {
    NoSkip(s, |s|);
    assert Block(s, 0) == Err(MissingParen);
    IsBlock(s, 0);
    assert Line(s, 0) == Err(MissingParen);
  }
}
