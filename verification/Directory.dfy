/** Directories and path names (kernel/fs.c: namecmp, dirlookup, dirlink, skipelem, namex; strncmp
    and strncpy of kernel/string.c).

    A directory is the sequence of its entries; inodes that are not in `dirs` are not
    directories.  C strings are sequences of characters that may contain a NUL; a path is given
    without its terminating NUL. */
module Directory {
  import opened Common

  const DIRSIZ := 14
  const ROOTINO := 1

  // ----- names -----

  /** The characters before the first NUL, at most n: what strncmp and strncpy see. */
  function Key(s: string, n: nat): (k: string)
    ensures |k| <= n && |k| <= |s| && '\0' !in k && k == s[..|k|] && (|k| == n || |k| == |s| || s[|k|] == '\0')
  {
    if n == 0 || s == "" || s[0] == '\0' then "" else [s[0]] + Key(s[1..], n - 1)
  }

  /** n characters can be read: a NUL comes first, or there are n of them. */
  ghost predicate Readable(s: string, n: nat) { |s| >= n || '\0' in s }

  lemma KeyIs(s: string, n: nat, k: nat)
    requires k <= n && k <= |s| && '\0' !in s[..k] && (k == n || k == |s| || s[k] == '\0')
    ensures Key(s, n) == s[..k]
  {
    var key := Key(s, n);
    assert forall x :: 0 <= x < |key| ==> key[x] == s[x] && key[x] != '\0';
    assert forall x :: 0 <= x < k ==> s[..k][x] == s[x] && s[..k][x] != '\0';
  }

  /** strncmp: zero exactly when the first n characters agree up to a NUL, and otherwise the difference of the
      first two that do not. */
  method Strncmp(p: string, q: string, n: nat) returns (r: int)
    requires Readable(p, n) && Readable(q, n)
    ensures r == 0 <==> Key(p, n) == Key(q, n)
    ensures r != 0 ==> exists i :: 0 <= i < n && i < |p| && i < |q| && p[..i] == q[..i] && '\0' !in p[..i]
                                   && r == p[i] as int - q[i] as int
  {
    var i := 0;
    while i < n && p[i] != '\0' && p[i] == q[i]
      invariant 0 <= i <= n && i <= |p| && i <= |q| && p[..i] == q[..i] && '\0' !in p[..i]
      invariant i < n ==> i < |p| && i < |q|
    {
      InText(p, n, i);
      InText(q, n, i);
      i := i + 1;
    }
    KeysDiffer(p, q, n, i);
    if i == n {
      return 0;
    }
    return p[i] as int - q[i] as int;
  }

  lemma InText(s: string, n: nat, i: nat)
    requires Readable(s, n) && i < n && i < |s| && s[i] != '\0' && '\0' !in s[..i]
    ensures i + 1 < n ==> i + 1 < |s|
  {
    assert forall x :: 0 <= x < i ==> s[..i][x] == s[x] && s[..i][x] != '\0';
  }

  lemma KeysDiffer(p: string, q: string, n: nat, i: nat)
    requires i <= n && i <= |p| && i <= |q| && p[..i] == q[..i] && '\0' !in p[..i]
    requires i < n ==> i < |p| && i < |q| && (p[i] == '\0' || p[i] != q[i])
    ensures Key(p, n) == Key(q, n) <==> i == n || p[i] == q[i]
  {
    if i == n {
      KeyIs(p, n, i);
      KeyIs(q, n, i);
    } else if p[i] == q[i] {
      KeyIs(p, n, i);
      KeyIs(q, n, i);
    } else {
      KeyReaches(p, n, i);
      KeyReaches(q, n, i);
    }
  }

  /** A key goes on as long as there is no NUL. */
  lemma KeyReaches(s: string, n: nat, i: nat)
    requires i < n && i < |s| && '\0' !in s[..i]
    ensures |Key(s, n)| >= i && (|Key(s, n)| > i <==> s[i] != '\0')
  {
    var key := Key(s, n);
    assert forall x :: 0 <= x < |key| ==> key[x] == s[x] && key[x] != '\0';
    assert forall x :: 0 <= x < i ==> s[..i][x] == s[x] && s[..i][x] != '\0';
  }

  /** strncpy: n characters with the same key, padded with NULs. */
  method Strncpy(t: string, n: nat) returns (s: string)
    requires Readable(t, n)
    ensures |s| == n && Key(s, n) == Key(t, n) && forall i :: |Key(t, n)| <= i < n ==> s[i] == '\0'
  {
    s := "";
    var i := 0;
    while i < n && t[i] != '\0'
      invariant 0 <= i <= n && i <= |t| && s == t[..i] && '\0' !in t[..i] && (i < n ==> i < |t|)
    {
      InText(t, n, i);
      s := s + [t[i]];
      i := i + 1;
    }
    KeyIs(t, n, i);
    ghost var k := i;
    while i < n
      invariant k <= i <= n && |s| == i && s[..k] == t[..k] && forall j :: k <= j < i ==> s[j] == '\0'
    {
      s := s + ['\0'];
      i := i + 1;
    }
    KeyIs(s, n, k);
  }

  // ----- directories as finite maps -----

  /** inum is 16 bits wide; 0 marks an unused entry. */
  datatype Dirent = Dirent(inum: nat, name: string)

  ghost predicate EntryOk(e: Dirent) { |e.name| == DIRSIZ && e.inum < 0x1_0000 }

  function KeyOf(e: Dirent): string { Key(e.name, DIRSIZ) }

  ghost predicate Live(es: seq<Dirent>, i: nat) { i < |es| && es[i].inum != 0 }

  /** No name occurs twice. */
  ghost predicate Unique(es: seq<Dirent>) {
    forall i: nat, j: nat :: Live(es, i) && Live(es, j) && KeyOf(es[i]) == KeyOf(es[j]) ==> i == j
  }

  ghost predicate DirOk(es: seq<Dirent>) { (forall i :: 0 <= i < |es| ==> EntryOk(es[i])) && Unique(es) }

  /** The directory as a map from names to inode numbers. */
  ghost function Names(es: seq<Dirent>): map<string, nat> {
    if es == [] then map[]
    else
      var e, rest := es[|es| - 1], Names(es[..|es| - 1]);
      if e.inum == 0 then rest else rest[KeyOf(e) := e.inum]
  }

  lemma {:induction false} NamesHas(es: seq<Dirent>, key: string)
    requires Unique(es)
    ensures key in Names(es) <==> exists i: nat :: Live(es, i) && KeyOf(es[i]) == key
    ensures forall i: nat :: Live(es, i) && KeyOf(es[i]) == key ==> key in Names(es) && Names(es)[key] == es[i].inum
  {
    if es != [] {
      var rest, e := es[..|es| - 1], es[|es| - 1];
      assert forall i: nat :: Live(rest, i) ==> Live(es, i) && rest[i] == es[i];
      NamesHas(rest, key);
      if e.inum != 0 && KeyOf(e) == key { assert Live(es, |es| - 1); }
    }
  }

  lemma UniqueButOne(es: seq<Dirent>, off: nat, e: Dirent)
    requires DirOk(es) && off <= |es| && (off < |es| ==> es[off].inum == 0) && EntryOk(e) && e.inum != 0
    requires forall i: nat :: Live(es, i) ==> KeyOf(es[i]) != KeyOf(e)
    ensures DirOk(Put(es, off, e))
  {
    var es' := Put(es, off, e);
    assert forall i: nat :: Live(es', i) && i != off ==> Live(es, i) && es[i] == es'[i];
  }

  /** The first unused entry, or the end. */
  ghost function FirstUnused(es: seq<Dirent>): (k: nat)
    ensures k <= |es| && (k < |es| ==> es[k].inum == 0) && forall i :: 0 <= i < k ==> es[i].inum != 0
  {
    if es == [] || es[0].inum == 0 then 0 else 1 + FirstUnused(es[1..])
  }

  lemma FirstIs(es: seq<Dirent>, k: nat)
    requires k <= |es| && (k < |es| ==> es[k].inum == 0) && forall i :: 0 <= i < k ==> es[i].inum != 0
    ensures FirstUnused(es) == k
  {}

  /** An entry written at off, which may be the end. */
  ghost function Put(es: seq<Dirent>, off: nat, e: Dirent): seq<Dirent>
    requires off <= |es|
  {
    if off == |es| then es + [e] else es[off := e]
  }

  /** Writing a new name into an unused place adds exactly that name. */
  lemma PutNames(es: seq<Dirent>, off: nat, e: Dirent)
    requires DirOk(es) && off <= |es| && (off < |es| ==> es[off].inum == 0) && EntryOk(e) && e.inum != 0
    requires forall i: nat :: Live(es, i) ==> KeyOf(es[i]) != KeyOf(e)
    ensures DirOk(Put(es, off, e)) && Names(Put(es, off, e)) == Names(es)[KeyOf(e) := e.inum]
  {
    UniqueButOne(es, off, e);
    var es' := Put(es, off, e);
    forall key
      ensures key in Names(es') <==> key in Names(es)[KeyOf(e) := e.inum]
      ensures key in Names(es') ==> Names(es')[key] == Names(es)[KeyOf(e) := e.inum][key]
    {
      NamesHas(es, key);
      NamesHas(es', key);
      PutHas(es, off, e, key);
    }
  }

  lemma PutHas(es: seq<Dirent>, off: nat, e: Dirent, key: string)
    requires off <= |es| && (off < |es| ==> es[off].inum == 0) && e.inum != 0
    ensures var es' := Put(es, off, e);
            && Live(es', off) && es'[off] == e
            && (forall i: nat :: Live(es, i) ==> Live(es', i) && es'[i] == es[i])
            && (forall i: nat :: Live(es', i) && i != off ==> Live(es, i) && es[i] == es'[i])
  {}

  // ----- paths -----

  function FirstSlash(path: string): (k: nat)
    ensures k <= |path| && (k < |path| ==> path[k] == '/') && forall i :: 0 <= i < k ==> path[i] != '/'
  {
    if path == "" || path[0] == '/' then 0 else 1 + FirstSlash(path[1..])
  }

  /** The path cut at every slash. */
  function Split(path: string): seq<string>
    decreases |path|
  {
    var k := FirstSlash(path);
    if k == |path| then [path] else [path[..k]] + Split(path[k + 1..])
  }

  function NonEmpty(parts: seq<string>): seq<string> {
    if parts == [] then [] else (if parts[0] == "" then [] else [parts[0]]) + NonEmpty(parts[1..])
  }

  /** The elements of a path: its parts between slashes, empty ones dropped. */
  function Elements(path: string): seq<string> { NonEmpty(Split(path)) }

  lemma NonEmptyCons(part: string, rest: seq<string>)
    ensures NonEmpty([part] + rest) == (if part == "" then [] else [part]) + NonEmpty(rest)
  {
    assert ([part] + rest)[1..] == rest;
  }

  lemma LeadingSlash(path: string)
    requires path != "" && path[0] == '/'
    ensures Elements(path) == Elements(path[1..])
  {
    hide NonEmpty;
    assert Split(path) == [path[..0]] + Split(path[1..]);
    NonEmptyCons(path[..0], Split(path[1..]));
  }

  lemma FirstElement(path: string)
    requires path != "" && path[0] != '/'
    ensures FirstSlash(path) > 0 && Elements(path) == [path[..FirstSlash(path)]] + Elements(path[FirstSlash(path)..])
  {
    hide NonEmpty;
    var k := FirstSlash(path);
    if k == |path| {
      assert path[k..] == "" && path[..k] == path && Split(path) == [path] + [];
      NoElements();
      NonEmptyCons(path, []);
      NonEmptyNone();
    } else {
      SplitSlash(path);
      NonEmptyCons(path[..k], Split(path[k + 1..]));
      LeadingSlash(path[k..]);
      assert path[k..][1..] == path[k + 1..];
    }
  }

  lemma NonEmptyNone()
    ensures NonEmpty([]) == []
  {}

  lemma SplitSlash(path: string)
    requires FirstSlash(path) < |path|
    ensures Split(path) == [path[..FirstSlash(path)]] + Split(path[FirstSlash(path) + 1..])
  {
    hide FirstSlash;
  }

  lemma NoElements()
    ensures Elements("") == []
  {
    assert Split("") == [""] && NonEmpty([""][1..]) == [];
  }

  lemma SlashIs(path: string, i: nat, j: nat)
    requires i <= j <= |path| && (j == |path| || path[j] == '/') && forall x :: i <= x < j ==> path[x] != '/'
    ensures FirstSlash(path[i..]) == j - i
  {
    var k := FirstSlash(path[i..]);
    assert forall x :: 0 <= x < |path| - i ==> path[i..][x] == path[i + x];
  }

  // ----- writing paths -----

  function Slashes(k: nat): (s: string)
    ensures |s| == k && forall i :: 0 <= i < k ==> s[i] == '/'
  {
    if k == 0 then "" else ['/'] + Slashes(k - 1)
  }

  ghost predicate IsName(s: string) { s != "" && '/' !in s }

  /** Names with any number of slashes before each, but at least one, and `trailing` behind the last. */
  function Path(names: seq<string>, before: seq<nat>, trailing: nat): string
    requires |before| == |names|
  {
    if names == [] then Slashes(trailing)
    else Slashes(before[0] + 1) + names[0] + Path(names[1..], before[1..], trailing)
  }

  /** The elements of a path are the names it was written with, however many slashes there are. */
  lemma {:induction false} PathElements(names: seq<string>, before: seq<nat>, trailing: nat)
    requires |before| == |names| && forall i :: 0 <= i < |names| ==> IsName(names[i])
    ensures Elements(Path(names, before, trailing)) == names
    decreases |names|
  {
    hide Elements;
    if names == [] {
      ManySlashes(trailing, "");
      NoElements();
      assert Slashes(trailing) + "" == Slashes(trailing);
    } else {
      var rest := Path(names[1..], before[1..], trailing);
      PathElements(names[1..], before[1..], trailing);
      ManySlashes(before[0] + 1, names[0] + rest);
      assert Slashes(before[0] + 1) + names[0] + rest == Slashes(before[0] + 1) + (names[0] + rest);
      NameFirst(names[0], rest);
    }
  }

  /** Slashes in front do not matter. */
  lemma {:induction false} ManySlashes(k: nat, path: string)
    ensures Elements(Slashes(k) + path) == Elements(path)
  {
    hide Elements;
    if k == 0 {
      assert Slashes(0) + path == path;
    } else {
      var p := Slashes(k) + path;
      assert p[0] == '/' && p[1..] == Slashes(k - 1) + path;
      LeadingSlash(p);
      ManySlashes(k - 1, path);
    }
  }

  lemma NameFirst(name: string, rest: string)
    requires IsName(name) && (rest == "" || rest[0] == '/')
    ensures Elements(name + rest) == [name] + Elements(rest)
  {
    hide Elements, FirstSlash;
    var p := name + rest;
    assert forall x :: 0 <= x < |name| ==> p[x] == name[x] && name[x] != '/';
    assert p[0..] == p;
    SlashIs(p, 0, |name|);
    FirstElement(p);
    assert p[..|name|] == name && p[|name|..] == rest;
  }

  /** The cursor moved over slashes. */
  method SkipSlashes(path: string, i: nat) returns (j: nat)
    requires i <= |path|
    ensures i <= j <= |path| && (j == |path| || path[j] != '/') && Elements(path[j..]) == Elements(path[i..])
  {
    j := i;
    while j < |path| && path[j] == '/'
      invariant i <= j <= |path| && Elements(path[j..]) == Elements(path[i..])
    {
      LeadingSlash(path[j..]);
      assert path[j..][1..] == path[j + 1..];
      j := j + 1;
    }
  }

  /** skipelem: the next element goes into the name buffer, cut to DIRSIZ, and the cursor to the
      element after it; nothing if no element is left. */
  method Skipelem(path: string, i: nat, buf: string) returns (next: Option<nat>, name: string)
    requires i <= |path| && '\0' !in path && |buf| == DIRSIZ
    ensures |name| == DIRSIZ && (next.None? ==> Elements(path[i..]) == [] && name == buf)
    ensures next.Some? ==> i < next.value <= |path| && Elements(path[i..]) != []
    ensures next.Some? ==>
              Elements(path[next.value..]) == Elements(path[i..])[1..]
                  && Key(name, DIRSIZ) == Key(Elements(path[i..])[0], DIRSIZ)
    ensures next.Some? ==> (next.value == |path| <==> Elements(path[next.value..]) == [])
  {
    hide Elements, Key, FirstSlash;
    NoElements();
    var s := SkipSlashes(path, i);
    if s == |path| {
      assert path[s..] == "";
      return None, buf;
    }
    var j := s;
    while j < |path| && path[j] != '/'
      invariant s <= j <= |path| && forall x :: s <= x < j ==> path[x] != '/'
    {
      j := j + 1;
    }
    SlashIs(path, s, j);
    FirstElement(path[s..]);
    ghost var elem := path[s..j];
    assert path[s..][..j - s] == elem && path[s..][j - s..] == path[j..];
    var len := j - s;
    if len >= DIRSIZ {
      name := path[s..s + DIRSIZ];
    } else {
      name := path[s..j] + ['\0'] + buf[len + 1..];
    }
    NameKey(elem, name, buf);
    var t := SkipSlashes(path, j);
    if t < |path| {
      FirstElement(path[t..]);
    } else {
      assert path[t..] == "";
    }
    return Some(t), name;
  }

  lemma NameKey(elem: string, name: string, buf: string)
    requires '\0' !in elem && |buf| == DIRSIZ
    requires name == if |elem| >= DIRSIZ then elem[..DIRSIZ] else elem + ['\0'] + buf[|elem| + 1..]
    ensures |name| == DIRSIZ && Key(name, DIRSIZ) == Key(elem, DIRSIZ)
  {
    var k := if |elem| >= DIRSIZ then DIRSIZ else |elem|;
    assert name[..k] == elem[..k];
    KeyIs(name, DIRSIZ, k);
    KeyIs(elem, DIRSIZ, k);
  }

  // ----- walking a path -----

  type Dirs = map<nat, seq<Dirent>>

  ghost function Keys(elems: seq<string>): (ks: seq<string>)
    ensures |ks| == |elems| && forall i :: 0 <= i < |elems| ==> ks[i] == Key(elems[i], DIRSIZ)
  {
    seq(|elems|, i requires 0 <= i < |elems| => Key(elems[i], DIRSIZ))
  }

  /** Lookup after lookup from inode ip; fails at a missing name or at an inode that is no
      directory. */
  ghost function Walk(dirs: Dirs, ip: nat, keys: seq<string>): Option<nat>
    decreases |keys|
  {
    if keys == [] then Some(ip)
    else if ip !in dirs || keys[0] !in Names(dirs[ip]) then None
    else Walk(dirs, Names(dirs[ip])[keys[0]], keys[1..])
  }

  /** The directory that the last name is to be looked up in. */
  ghost function WalkParent(dirs: Dirs, ip: nat, keys: seq<string>): Option<nat> {
    if keys == [] then None
    else
      var d := Walk(dirs, ip, keys[..|keys| - 1]);
      if d.Some? && d.value in dirs then d else None
  }

  lemma WalkParentStep(dirs: Dirs, ip: nat, keys: seq<string>)
    requires |keys| > 1
    ensures WalkParent(dirs, ip, keys) ==
            if ip !in dirs || keys[0] !in Names(dirs[ip]) then None
                else WalkParent(dirs, Names(dirs[ip])[keys[0]], keys[1..])
  {
    assert keys[..|keys| - 1][1..] == keys[1..][..|keys| - 2];
  }

  /** A directory and the inode found in it by the last name agree with the whole walk. */
  lemma ParentThenName(dirs: Dirs, ip: nat, keys: seq<string>)
    requires keys != []
    ensures Walk(dirs, ip, keys) ==
            match WalkParent(dirs, ip, keys)
            case None => None
            case Some(d) => if d in dirs && keys[|keys| - 1] in Names(dirs[d])
                then Some(Names(dirs[d])[keys[|keys| - 1]]) else None
    decreases |keys|
  {
    if |keys| == 1 {
      assert keys[..0] == [] && keys[1..] == [];
    } else {
      WalkParentStep(dirs, ip, keys);
      if ip in dirs && keys[0] in Names(dirs[ip]) {
        ParentThenName(dirs, Names(dirs[ip])[keys[0]], keys[1..]);
      }
    }
  }

  class FileTree {
    var dirs: Dirs

    ghost predicate Valid()
      reads this
    {
      forall d :: d in dirs ==> DirOk(dirs[d])
    }

    /** dirlookup: the inode number under a name, and where its entry is. */
    method Dirlookup(dp: nat, name: string) returns (r: Option<(nat, nat)>)
      requires Valid() && dp in dirs && Readable(name, DIRSIZ)
      ensures r.None? <==> Key(name, DIRSIZ) !in Names(dirs[dp])
      ensures r.Some? ==> Key(name, DIRSIZ) in Names(dirs[dp]) && r.value.0 == Names(dirs[dp])[Key(name, DIRSIZ)]
      ensures r.Some? ==> Live(dirs[dp], r.value.1) && KeyOf(dirs[dp][r.value.1]) == Key(name, DIRSIZ)
    {
      hide Names, Key;
      var es, off := dirs[dp], 0;
      NamesHas(es, Key(name, DIRSIZ));
      while off < |es|
        invariant 0 <= off <= |es| && forall i: nat :: i < off && Live(es, i) ==> KeyOf(es[i]) != Key(name, DIRSIZ)
      {
        var de := es[off];
        if de.inum != 0 {
          var c := Strncmp(name, de.name, DIRSIZ);
          if c == 0 {
            assert Live(es, off);
            return Some((de.inum, off));
          }
        }
        off := off + 1;
      }
      return None;
    }

    /** dirlink: adds the name in the first unused place or at the end; fails if the name is there or
        the write fails (`written` is writei's outcome). */
    method Dirlink(dp: nat, name: string, inum: nat, written: bool) returns (ok: bool)
      requires Valid() && dp in dirs && Readable(name, DIRSIZ) && 0 < inum < 0x1_0000
      modifies this
      ensures Valid() && ok == (written && Key(name, DIRSIZ) !in Names(old(dirs)[dp]))
      ensures !ok ==> dirs == old(dirs)
      ensures ok ==> dirs.Keys == old(dirs).Keys && Names(dirs[dp]) == Names(old(dirs)[dp])[Key(name, DIRSIZ) := inum]
      ensures ok ==> forall d :: d in dirs && d != dp ==> dirs[d] == old(dirs)[d]
      ensures ok ==> exists e: Dirent :: dirs[dp] == Put(old(dirs)[dp], FirstUnused(old(dirs)[dp]), e)
    {
      hide Names, Key, Unique;
      var ip := Dirlookup(dp, name);
      if ip.Some? {
        return false;
      }
      var es, off := dirs[dp], 0;
      while off < |es|
        invariant 0 <= off <= |es| && forall i :: 0 <= i < off ==> es[i].inum != 0
      {
        if es[off].inum == 0 {
          break;
        }
        off := off + 1;
      }
      var copy := Strncpy(name, DIRSIZ);
      if !written {
        return false;
      }
      var e := Dirent(inum, copy);
      NamesHas(es, Key(name, DIRSIZ));
      PutNames(es, off, e);
      FirstIs(es, off);
      dirs := dirs[dp := if off == |es| then es + [e] else es[off := e]];
      return true;
    }

    /** namex: the walk of the path's elements, or the walk of all but the last with the last left
        in the name buffer. */
    method Namex(path: string, parent: bool, cwd: nat, buf: string) returns (r: Option<nat>, name: string)
      requires Valid() && '\0' !in path && |buf| == DIRSIZ
      ensures |name| == DIRSIZ
      ensures var start, keys := if path != "" && path[0] == '/' then ROOTINO else cwd, Keys(Elements(path));
              && r == (if parent then WalkParent(dirs, start, keys) else Walk(dirs, start, keys))
              && (parent && r.Some? ==> Key(name, DIRSIZ) == keys[|keys| - 1])
    {
      hide Names, Key, Elements, Walk, WalkParent;
      ghost var start, all := if path != "" && path[0] == '/' then ROOTINO else cwd, Keys(Elements(path));
      var ip: nat := if path != "" && path[0] == '/' then ROOTINO else cwd;
      var i: nat := 0;
      name := buf;
      assert path[0..] == path;
      ghost var keys := all;
      while true
        invariant i <= |path| && |name| == DIRSIZ && keys == Keys(Elements(path[i..]))
        invariant parent ==>
                    WalkParent(dirs, start, all) == WalkParent(dirs, ip, keys)
                        && (keys != [] ==> all != [] && keys[|keys| - 1] == all[|all| - 1])
        invariant !parent ==> Walk(dirs, start, all) == Walk(dirs, ip, keys)
        invariant parent && keys == [] ==> all == []
        decreases |path| - i
      {
        var next;
        next, name := Skipelem(path, i, name);
        if next.None? {
          WalkEnds(dirs, ip);
          break;
        }
        ghost var rest := Keys(Elements(path[next.value..]));
        assert rest == keys[1..] && keys[0] == Key(name, DIRSIZ);
        if ip !in dirs {
          WalkStops(dirs, ip, keys);
          return None, name;
        }
        if parent && next.value == |path| {
          LastName(dirs, ip, keys);
          return Some(ip), name;
        }
        var found := Dirlookup(ip, name);
        if parent { WalkParentStep(dirs, ip, keys); } else { WalkStep(dirs, ip, keys); }
        if found.None? {
          return None, name;
        }
        ip, i, keys := found.value.0, next.value, rest;
      }
      if parent {
        return None, name;
      }
      return Some(ip), name;
    }
  }

  lemma WalkEnds(dirs: Dirs, ip: nat)
    ensures Walk(dirs, ip, []) == Some(ip) && WalkParent(dirs, ip, []) == None
  {}

  lemma WalkStep(dirs: Dirs, ip: nat, keys: seq<string>)
    requires keys != []
    ensures Walk(dirs, ip, keys) ==
            if ip !in dirs || keys[0] !in Names(dirs[ip]) then None else Walk(dirs, Names(dirs[ip])[keys[0]], keys[1..])
  {
    hide Names;
  }

  lemma LastName(dirs: Dirs, ip: nat, keys: seq<string>)
    requires |keys| == 1 && ip in dirs
    ensures WalkParent(dirs, ip, keys) == Some(ip)
  {
    assert keys[..0] == [];
  }

  lemma WalkStops(dirs: Dirs, ip: nat, keys: seq<string>)
    requires ip !in dirs && keys != []
    ensures Walk(dirs, ip, keys) == None && WalkParent(dirs, ip, keys) == None
  {
    if |keys| > 1 { WalkParentStep(dirs, ip, keys); } else { assert keys[..0] == []; }
  }
}
