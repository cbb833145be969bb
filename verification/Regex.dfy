/** The regular expressions of user/grep.c: what they mean, and the matcher.

    C strings are sequences without their terminating NUL. */
module Regex {

  // ----- meaning -----

  /** One character, or any number of the same kind; '.' stands for every character. */
  datatype Item = One(c: char) | Star(c: char)

  /** Items in order; `end` says that the text must end after them. */
  datatype Expr = Expr(items: seq<Item>, end: bool)

  predicate Fits(c: char, x: char) { c == '.' || c == x }

  ghost predicate InItem(item: Item, piece: string) {
    && (item.One? ==> |piece| == 1)
    && forall i :: 0 <= i < |piece| ==> Fits(item.c, piece[i])
  }

  ghost function Flatten(pieces: seq<string>): string {
    if pieces == [] then "" else pieces[0] + Flatten(pieces[1..])
  }

  /** The text starts with one piece for each item. */
  ghost predicate Splits(e: Expr, text: string, pieces: seq<string>) {
    && |pieces| == |e.items| && (forall i :: 0 <= i < |pieces| ==> InItem(e.items[i], pieces[i]))
    && Flatten(pieces) <= text && (e.end ==> Flatten(pieces) == text)
  }

  ghost predicate Begins(e: Expr, text: string) {
    exists pieces: seq<string> :: Splits(e, text, pieces)
  }

  function Cons(item: Item, e: Expr): Expr { Expr([item] + e.items, e.end) }

  /** '*' after a character makes it a star; '$' at the very end anchors; everything else stands
      for itself. */
  function Parse(re: string): Expr {
    if re == "" then Expr([], false)
    else if |re| > 1 && re[1] == '*' then Cons(Star(re[0]), Parse(re[2..]))
    else if re == "$" then Expr([], true)
    else Cons(One(re[0]), Parse(re[1..]))
  }

  // ----- expressions as text -----

  function ShowItem(item: Item): string { if item.One? then [item.c] else [item.c, '*'] }

  /** An expression written down. */
  function Show(e: Expr): string
    decreases |e.items|
  {
    if e.items == [] then (if e.end then "$" else "") else ShowItem(e.items[0]) + Show(Expr(e.items[1..], e.end))
  }

  /** Expressions that can be written down: a star as a character comes first or behind a starred one, and a
      plain dollar is not the last thing. */
  ghost predicate Writable(e: Expr) {
    && (forall i :: 0 < i < |e.items| && e.items[i].c == '*' ==> e.items[i - 1].Star?)
    && (e.items != [] && !e.end ==> e.items[|e.items| - 1] != One('$'))
  }

  /** Text and expressions determine each other: what an expression is written as is read as that expression... */
  lemma {:induction false} ParseShow(e: Expr)
    requires Writable(e)
    ensures Parse(Show(e)) == e
    decreases |e.items|
  {
    if e.items != [] {
      var first, rest := e.items[0], Expr(e.items[1..], e.end);
      assert Writable(rest) by {
        forall i | 0 < i < |rest.items| && rest.items[i].c == '*'
          ensures rest.items[i - 1].Star?
        {
          assert e.items[i + 1].c == '*';
        }
        assert rest.items != [] ==> rest.items[|rest.items| - 1] == e.items[|e.items| - 1];
      }
      ParseShow(rest);
      var s := Show(e);
      assert s == ShowItem(first) + Show(rest);
      assert Cons(first, rest) == e;
      if first.Star? {
        assert s[2..] == Show(rest);
      } else {
        assert s[1..] == Show(rest);
        NotStarred(e);
      }
    }
  }

  /** What is written behind a plain first character does not make it a star or an anchor. */
  lemma NotStarred(e: Expr)
    requires Writable(e) && e.items != [] && e.items[0].One?
    ensures (|Show(e)| > 1 ==> Show(e)[1] != '*') && Show(e) != "$"
  {
    var rest := Expr(e.items[1..], e.end);
    var t := Show(rest);
    assert Show(e) == [e.items[0].c] + t;
    if rest.items == [] {
      assert e.items[0] == e.items[|e.items| - 1];
      assert Show(e)[0] == e.items[0].c;
    } else {
      assert rest.items[0] == e.items[1] && e.items[1].c != '*';
      assert t == ShowItem(e.items[1]) + Show(Expr(rest.items[1..], e.end));
      assert t[0] == e.items[1].c && |Show(e)| > 1;
    }
  }

  /** ... and every text is what the expression read from it is written as. */
  lemma {:induction false} ShowParse(re: string)
    ensures Show(Parse(re)) == re && Writable(Parse(re))
    decreases |re|
  {
    if re == "" || re == "$" {
    } else if |re| > 1 && re[1] == '*' {
      ShowParse(re[2..]);
      ShowCons(Star(re[0]), Parse(re[2..]));
      assert re == [re[0], '*'] + re[2..];
    } else {
      ShowParse(re[1..]);
      ShowCons(One(re[0]), Parse(re[1..]));
      assert re == [re[0]] + re[1..];
      FirstNotStar(re[1..]);
      LastDollar(re);
    }
  }

  /** The item may stand before the expression. */
  ghost predicate Joins(item: Item, e: Expr) {
    (item.Star? || e.items == [] || e.items[0].c != '*') && (e.items != [] || e.end || item != One('$'))
  }

  lemma ShowCons(item: Item, e: Expr)
    ensures Show(Cons(item, e)) == ShowItem(item) + Show(e)
    ensures Writable(e) && Joins(item, e) ==> Writable(Cons(item, e))
  {
    var c := Cons(item, e);
    assert Expr(c.items[1..], c.end) == e;
    assert e.items != [] ==> c.items[|c.items| - 1] == e.items[|e.items| - 1];
    assert forall i :: 0 < i < |c.items| ==> c.items[i] == e.items[i - 1];
  }

  lemma FirstNotStar(re: string)
    ensures re != "" && re[0] != '*' ==> Parse(re).items == [] || Parse(re).items[0].c != '*'
  {}

  lemma LastDollar(re: string)
    requires re != "" && re != "$" && !(|re| > 1 && re[1] == '*')
    ensures Parse(re[1..]).items == [] && !Parse(re[1..]).end ==> re[0] != '$'
  {
    if re[1..] != "" {
      assert Parse(re[1..]).items == [] ==> re[1..] == "$";
    } else {
      assert re == [re[0]];
    }
  }

  /** The text contains a match, at its start if the expression begins with '^'. */
  ghost predicate Matches(re: string, text: string) {
    if re != "" && re[0] == '^' then Begins(Parse(re[1..]), text)
    else exists i: nat :: BeginsAt(Parse(re), text, i)
  }

  ghost predicate BeginsAt(e: Expr, text: string, i: nat) {
    i <= |text| && Begins(e, text[i..])
  }

  /** A match somewhere is a match at the start of some rest of the text. */
  lemma AnchoredIff(re: string, text: string)
    requires re == "" || re[0] != '^'
    ensures Matches(re, text) <==> exists i: nat :: i <= |text| && Matches("^" + re, text[i..])
  {
    var anchored := "^" + re;
    assert anchored[0] == '^' && anchored[1..] == re;
    if i: nat :| BeginsAt(Parse(re), text, i) {
      assert Matches(anchored, text[i..]);
    }
    if i: nat :| i <= |text| && Matches(anchored, text[i..]) {
      assert BeginsAt(Parse(re), text, i);
    }
  }

  // ----- how the meaning unfolds -----

  lemma NoItems(end: bool, text: string)
    ensures Begins(Expr([], end), text) <==> (end ==> text == "")
  {
    assert Flatten([]) == "";
    if end ==> text == "" {
      assert Splits(Expr([], end), text, []);
    }
  }

  lemma SplitsRest(item: Item, e: Expr, text: string, pieces: seq<string>)
    requires Splits(Cons(item, e), text, pieces)
    ensures |pieces| > 0 && InItem(item, pieces[0]) && |pieces[0]| <= |text| && text[..|pieces[0]|] == pieces[0]
    ensures Splits(e, text[|pieces[0]|..], pieces[1..])
  {
    var w, rest := pieces[0], pieces[1..];
    assert Flatten(pieces) == w + Flatten(rest);
    assert text[..|Flatten(pieces)|] == w + Flatten(rest);
    forall i | 0 <= i < |rest|
      ensures InItem(e.items[i], rest[i])
    {
      assert InItem(Cons(item, e).items[i + 1], pieces[i + 1]);
    }
  }

  lemma SplitsCons(item: Item, e: Expr, text: string, k: nat, pieces: seq<string>)
    requires k <= |text| && InItem(item, text[..k]) && Splits(e, text[k..], pieces)
    ensures Splits(Cons(item, e), text, [text[..k]] + pieces)
  {
    var all := [text[..k]] + pieces;
    assert all[1..] == pieces;
    assert text == text[..k] + text[k..];
  }

  lemma BeginsOne(c: char, e: Expr, text: string)
    ensures Begins(Cons(One(c), e), text) <==> text != "" && Fits(c, text[0]) && Begins(e, text[1..])
  {
    if Begins(Cons(One(c), e), text) {
      var pieces :| Splits(Cons(One(c), e), text, pieces);
      SplitsRest(One(c), e, text, pieces);
    }
    if text != "" && Fits(c, text[0]) && Begins(e, text[1..]) {
      var pieces :| Splits(e, text[1..], pieces);
      SplitsCons(One(c), e, text, 1, pieces);
    }
  }

  /** The star takes the first k characters. */
  ghost predicate StarAt(c: char, e: Expr, text: string, k: nat) {
    k <= |text| && (forall i :: 0 <= i < k ==> Fits(c, text[i])) && Begins(e, text[k..])
  }

  lemma BeginsStar(c: char, e: Expr, text: string)
    ensures Begins(Cons(Star(c), e), text) <==> exists k: nat :: StarAt(c, e, text, k)
  {
    if Begins(Cons(Star(c), e), text) {
      var pieces :| Splits(Cons(Star(c), e), text, pieces);
      SplitsRest(Star(c), e, text, pieces);
      assert StarAt(c, e, text, |pieces[0]|);
    }
    if k: nat :| StarAt(c, e, text, k) {
      var pieces :| Splits(e, text[k..], pieces);
      SplitsCons(Star(c), e, text, k, pieces);
    }
  }

  // ----- the matcher -----

  /** match: true exactly when the text contains a match. */
  method Match(re: string, text: string) returns (b: bool)
    ensures b <==> Matches(re, text)
  {
    if re != "" && re[0] == '^' {
      b := MatchHere(re[1..], text);
      return;
    }
    var i := 0;
    while true
      invariant 0 <= i <= |text| && forall j: nat :: j < i ==> !BeginsAt(Parse(re), text, j)
      decreases |text| - i
    {
      b := MatchHere(re, text[i..]);
      assert b <==> BeginsAt(Parse(re), text, i);
      if b {
        return true;
      }
      if i == |text| {
        break;
      }
      i := i + 1;
    }
    return false;
  }

  /** matchhere: a match at the beginning of the text. */
  method MatchHere(re: string, text: string) returns (b: bool)
    ensures b <==> Begins(Parse(re), text)
    decreases |re|, 1
  {
    if re == "" {
      NoItems(false, text);
      return true;
    }
    if |re| > 1 && re[1] == '*' {
      assert Parse(re) == Cons(Star(re[0]), Parse(re[2..]));
      b := MatchStar(re[0], re[2..], text);
      BeginsStar(re[0], Parse(re[2..]), text);
      return;
    }
    if re[0] == '$' && |re| == 1 {
      NoItems(true, text);
      return text == "";
    }
    BeginsOne(re[0], Parse(re[1..]), text);
    if text != "" && (re[0] == '.' || re[0] == text[0]) {
      b := MatchHere(re[1..], text[1..]);
      return;
    }
    return false;
  }

  /** matchstar: any number of c, then a match of the rest. */
  method MatchStar(c: char, re: string, text: string) returns (b: bool)
    ensures b <==> exists k: nat :: StarAt(c, Parse(re), text, k)
    decreases |re|, 2
  {
    var k := 0;
    while true
      invariant 0 <= k <= |text| && (forall i :: 0 <= i < k ==> Fits(c, text[i]))
      invariant forall j: nat :: j < k ==> !StarAt(c, Parse(re), text, j)
      decreases |text| - k
    {
      b := MatchHere(re, text[k..]);
      assert b <==> StarAt(c, Parse(re), text, k);
      if b {
        return true;
      }
      if k == |text| || !(text[k] == c || c == '.') {
        break;
      }
      k := k + 1;
    }
    return false;
  }
}
