/** Directories as files (kernel/fs.c dirlookup and dirlink, struct dirent of kernel/fs.h): 16-byte
    entries read by readi and written by writei, on the blocks the block map gives them. */
module DirectoryFile {
  import opened Common
  import opened Blocks
  import opened Ownership
  import opened FileBlocks
  import opened FileIO
  import Directory

  /** sizeof(struct dirent). */
  const ENTRY := 16

  /** The name is one of C characters. */
  ghost predicate Bytes(s: string) { forall i :: 0 <= i < |s| ==> s[i] as int < 256 }

  ghost predicate Storable(e: Directory.Dirent) { Directory.EntryOk(e) && Bytes(e.name) }

  function NameBytes(s: string): (bs: seq<byte>)
    requires Bytes(s)
    ensures |bs| == |s| && forall i :: 0 <= i < |s| ==> bs[i] == s[i] as int
  {
    if s == "" then [] else NameBytes(s[..|s| - 1]) + [s[|s| - 1] as int]
  }

  function NameOf(bs: seq<byte>): (s: string)
    ensures |s| == |bs| && forall i :: 0 <= i < |bs| ==> s[i] == bs[i] as char
  {
    if bs == [] then "" else NameOf(bs[..|bs| - 1]) + [bs[|bs| - 1] as char]
  }

  /** The entry in memory: the inode number, low byte first, and the name. */
  function Encode(e: Directory.Dirent): (bs: seq<byte>)
    requires Storable(e)
    ensures |bs| == ENTRY
  {
    [e.inum % 256, e.inum / 256] + NameBytes(e.name)
  }

  function Decode(bs: seq<byte>): (e: Directory.Dirent)
    requires |bs| == ENTRY
    ensures Directory.EntryOk(e)
  {
    var lo: int, hi: int := bs[0], bs[1];
    Directory.Dirent(lo + 256 * hi, NameOf(bs[2..]))
  }

  lemma EntryRoundTrip(e: Directory.Dirent)
    requires Storable(e)
    ensures Decode(Encode(e)) == e
  {
    assert Encode(e)[2..] == NameBytes(e.name);
    assert NameOf(NameBytes(e.name)) == e.name;
  }

  /** Where an entry's bytes are: the low byte of the inode number, the high byte, and the name. */
  lemma EntryLayout(bs: seq<byte>)
    requires |bs| == ENTRY
    ensures var e := Decode(bs);
            && bs[0] == e.inum % 256 && bs[1] == e.inum / 256 && |e.name| == ENTRY - 2
            && forall i :: 0 <= i < |e.name| ==> bs[i + 2] == e.name[i] as int
  {
    var e := Decode(bs);
    forall i | 0 <= i < |e.name|
      ensures bs[i + 2] == e.name[i] as int
    {
      assert e.name[i] == bs[2..][i] as char;
    }
  }

  /** Bytes off .. off+n-1 of a file. */
  ghost function FileBytes(fs: Fs, inum: nat, off: nat, n: nat): (s: seq<byte>)
    ensures |s| == n && forall i :: 0 <= i < n ==> s[i] == FileByte(fs, inum, off + i)
  {
    if n == 0 then [] else FileBytes(fs, inum, off, n - 1) + [FileByte(fs, inum, off + n - 1)]
  }

  ghost function EntryAt(fs: Fs, inum: nat, k: nat): (e: Directory.Dirent)
    ensures Directory.EntryOk(e)
  {
    Decode(FileBytes(fs, inum, k * ENTRY, ENTRY))
  }

  ghost function FirstEntries(fs: Fs, inum: nat, n: nat): (es: seq<Directory.Dirent>)
    ensures |es| == n && forall k :: 0 <= k < n ==> es[k] == EntryAt(fs, inum, k)
  {
    if n == 0 then [] else FirstEntries(fs, inum, n - 1) + [EntryAt(fs, inum, n - 1)]
  }

  /** The entries of a directory. */
  ghost function Entries(fs: Fs, inum: nat): seq<Directory.Dirent>
    requires inum in fs.inodes
  {
    FirstEntries(fs, inum, fs.inodes[inum].size / ENTRY)
  }

  /** A file that is a directory: whole entries, without holes, no name twice. */
  ghost predicate IsDir(fs: Fs, inum: nat) {
    NoHoles(fs, inum) && fs.inodes[inum].size % ENTRY == 0 && Directory.Unique(Entries(fs, inum))
  }

  // ----- writing one entry -----

  lemma BytesApart(j: nat, k: nat, i: nat)
    requires j != k && i < ENTRY
    ensures !(k * ENTRY <= j * ENTRY + i < k * ENTRY + ENTRY)
  {}

  /** writei of an encoded entry changes that entry of that directory only. */
  lemma EntryWritten(fs: Fs, fs': Fs, n: nat, k: nat, e: Directory.Dirent, m: nat, j: nat)
    requires Storable(e) && Written(fs, fs', n, k * ENTRY, Encode(e))
    ensures EntryAt(fs', m, j) == if m == n && j == k then e else EntryAt(fs, m, j)
  {
    if m == n && j == k {
      assert FileBytes(fs', n, k * ENTRY, ENTRY) == Encode(e);
      EntryRoundTrip(e);
    } else {
      var was, now := FileBytes(fs, m, j * ENTRY, ENTRY), FileBytes(fs', m, j * ENTRY, ENTRY);
      forall i | 0 <= i < ENTRY
        ensures now[i] == was[i]
      {
        if m == n { BytesApart(j, k, i); }
      }
      assert now == was;
    }
  }

  /** The directory gains the entry at its place or at the end; no other file's entries change. */
  lemma EntriesWritten(fs: Fs, fs': Fs, n: nat, k: nat, e: Directory.Dirent)
    requires Storable(e) && Written(fs, fs', n, k * ENTRY, Encode(e))
    requires n in fs.inodes && n in fs'.inodes && fs.inodes[n].size % ENTRY == 0 && k <= fs.inodes[n].size / ENTRY
    requires fs'.inodes[n].size == Max(fs.inodes[n].size, k * ENTRY + ENTRY)
    ensures fs'.inodes[n].size % ENTRY == 0 && Entries(fs', n) == Directory.Put(Entries(fs, n), k, e)
  {
    hide Written, EntryAt;
    var es, es' := Entries(fs, n), Entries(fs', n);
    SizeAfter(fs.inodes[n].size, k);
    forall j | 0 <= j < |es'|
      ensures es'[j] == Directory.Put(es, k, e)[j]
    {
      EntryWritten(fs, fs', n, k, e, n, j);
    }
  }

  lemma SizeAfter(size: nat, k: nat)
    requires size % ENTRY == 0 && k <= size / ENTRY
    ensures Max(size, k * ENTRY + ENTRY) % ENTRY == 0
    ensures Max(size, k * ENTRY + ENTRY) / ENTRY == if k == size / ENTRY then size / ENTRY + 1 else size / ENTRY
  {}

  // ----- reading entries -----

  /** readi of one entry. */
  method ReadEntry(fs: FileSystem, dp: nat, k: nat) returns (e: Directory.Dirent)
    requires fs.Valid() && NoHoles(fs.Now(), dp) && k < fs.inodes[dp].size / ENTRY
    modifies fs`blocks, fs`inodes, fs`logged
    ensures fs.Now() == old(fs.Now()) && fs.logged == old(fs.logged)
            && e == EntryAt(fs.Now(), dp, k) == Entries(fs.Now(), dp)[k]
  {
    hide FileByte, Dense, Inv;
    var n, data := Readi(fs, dp, k * ENTRY, ENTRY, ENTRY);
    assert data == FileBytes(fs.Now(), dp, k * ENTRY, ENTRY);
    e := Decode(data);
  }

  /** dirlookup: the inode number under the name, and the place of its entry; nothing changes. */
  method Dirlookup(fs: FileSystem, dp: nat, name: string) returns (r: Option<(nat, nat)>)
    requires fs.Valid() && IsDir(fs.Now(), dp) && Directory.Readable(name, Directory.DIRSIZ)
    modifies fs`blocks, fs`inodes, fs`logged
    ensures fs.Now() == old(fs.Now()) && fs.logged == old(fs.logged)
    ensures var es, key := Entries(fs.Now(), dp), Directory.Key(name, Directory.DIRSIZ);
      && (r.None? <==> key !in Directory.Names(es))
      && (r.Some? ==> key in Directory.Names(es) && r.value.0 == Directory.Names(es)[key])
      && (r.Some? ==> Directory.Live(es, r.value.1) && Directory.KeyOf(es[r.value.1]) == key)
  {
    hide Inv, Dense, EntryAt, Directory.Names, Directory.Key;
    ghost var es, key := Entries(fs.Now(), dp), Directory.Key(name, Directory.DIRSIZ);
    Directory.NamesHas(es, key);
    var k, count := 0, fs.inodes[dp].size / ENTRY;
    while k < count
      invariant 0 <= k <= count == |es| && fs.Now() == old(fs.Now()) && fs.logged == old(fs.logged)
      invariant forall i: nat :: i < k && Directory.Live(es, i) ==> Directory.KeyOf(es[i]) != key
    {
      var de := ReadEntry(fs, dp, k);
      if de.inum != 0 {
        var c := Directory.Strncmp(name, de.name, Directory.DIRSIZ);
        if c == 0 {
          assert Directory.Live(es, k);
          return Some((de.inum, k));
        }
      }
      k := k + 1;
    }
    return None;
  }

  /** dirlink's search for an empty entry. */
  method FindUnused(fs: FileSystem, dp: nat) returns (k: nat)
    requires fs.Valid() && NoHoles(fs.Now(), dp)
    modifies fs`blocks, fs`inodes, fs`logged
    ensures fs.Now() == old(fs.Now()) && fs.logged == old(fs.logged)
            && k == Directory.FirstUnused(Entries(fs.Now(), dp))
  {
    hide Inv, Dense, EntryAt;
    ghost var es := Entries(fs.Now(), dp);
    k := 0;
    var count := fs.inodes[dp].size / ENTRY;
    while k < count
      invariant 0 <= k <= count == |es| && fs.Now() == old(fs.Now()) && fs.logged == old(fs.logged)
      invariant forall i :: 0 <= i < k ==> es[i].inum != 0
    {
      var de := ReadEntry(fs, dp, k);
      if de.inum == 0 {
        break;
      }
      k := k + 1;
    }
    Directory.FirstIs(es, k);
  }

  // ----- dirlink -----

  /** writei of one entry: all of it or nothing, as 16 divides the block size. */
  method WriteEntry(fs: FileSystem, dp: nat, k: nat, e: Directory.Dirent) returns (ok: bool)
    requires fs.Valid() && NoHoles(fs.Now(), dp) && fs.inodes[dp].size % ENTRY == 0
             && k <= fs.inodes[dp].size / ENTRY && Storable(e)
    modifies fs`blocks, fs`inodes, fs`logged
    ensures fs.Valid() && NoHoles(fs.Now(), dp) && KeepsDense(old(fs.Now()), fs.Now())
    ensures ok ==> Written(old(fs.Now()), fs.Now(), dp, k * ENTRY, Encode(e))
    ensures ok ==> fs.inodes[dp].size == Max(old(fs.inodes[dp].size), k * ENTRY + ENTRY)
    ensures !ok ==> Written(old(fs.Now()), fs.Now(), dp, k * ENTRY, []) && fs.inodes[dp].size == old(fs.inodes[dp].size)
    ensures !ok ==> k * ENTRY == MAXFILE * BSIZE || forall b: nat :: b < fs.l.size ==> Bit(fs.l, fs.blocks, b)
    ensures forall n :: n in old(fs.inodes) && n != dp ==> n in fs.inodes && fs.inodes[n].size == old(fs.inodes[n].size)
  {
    hide Written, Dense, Inv;
    WrittenNothing(fs.Now(), fs.Now(), dp, k * ENTRY);
    ghost var stray;
    var tot, src := 0, Encode(e);
    assert k * ENTRY <= MAXFILE * BSIZE;
    tot, stray := Writei(fs, dp, k * ENTRY, src, ENTRY, 0);
    WholeEntry(k, tot);
    assert src[..ENTRY] == src && src[..0] == [];
    ok := tot == ENTRY;
  }

  lemma WholeEntry(k: nat, tot: int)
    requires 0 < tot < ENTRY ==> (k * ENTRY + tot) % BSIZE == 0
    ensures !(0 < tot < ENTRY)
  {}

  /** dirlink: the directory's map gains exactly the new name; or nothing changes, because the name is
      there already, the directory has its full size, or the disk is full. */
  method Dirlink(fs: FileSystem, dp: nat, name: string, inum: nat) returns (ok: bool)
    requires fs.Valid() && IsDir(fs.Now(), dp) && Directory.Readable(name, Directory.DIRSIZ) && Bytes(name)
             && 0 < inum < 0x1_0000
    modifies fs`blocks, fs`inodes, fs`logged
    ensures fs.Valid() && IsDir(fs.Now(), dp) && KeepsDense(old(fs.Now()), fs.Now())
    ensures var key, was, now := Directory.Key(name, Directory.DIRSIZ), Directory.Names(Entries(old(fs.Now()), dp)),
            Directory.Names(Entries(fs.Now(), dp));
      && (ok ==> key !in was && now == was[key := inum])
      && (!ok ==> Entries(fs.Now(), dp) == Entries(old(fs.Now()), dp))
      && (!ok && key !in was ==> fs.inodes[dp].size == MAXFILE * BSIZE || forall b: nat :: b < fs.l.size ==>
            Bit(fs.l, fs.blocks, b))
    ensures forall m :: m in old(fs.inodes) && m != dp ==>
              m in fs.inodes && Entries(fs.Now(), m) == Entries(old(fs.Now()), m)
  {
    hide Inv, Dense, Written, EntryAt, Directory.Names, Directory.Key, Directory.Unique, Directory.Put,
         Directory.FirstUnused, KeepsDense;
    KeepsSelf(fs.Now());
    var ip := Dirlookup(fs, dp, name);
    if ip.Some? {
      return false;
    }
    var k := FindUnused(fs, dp);
    var copy := Directory.Strncpy(name, Directory.DIRSIZ);
    CopyBytes(name, copy);
    var e := Directory.Dirent(inum, copy);
    ghost var es := Entries(fs.Now(), dp);
    FirstBound(es);
    ok := WriteEntry(fs, dp, k, e);
    if ok {
      EntriesWritten(old(fs.Now()), fs.Now(), dp, k, e);
      NewName(es, Directory.Key(name, Directory.DIRSIZ), k, e);
      OthersEntries(old(fs.Now()), fs.Now(), dp, k, e);
    } else {
      SameEntries(old(fs.Now()), fs.Now(), dp, k * ENTRY);
    }
  }

  lemma KeepsSelf(fs: Fs)
    ensures KeepsDense(fs, fs)
  {}

  lemma FirstBound(es: seq<Directory.Dirent>)
    ensures Directory.FirstUnused(es) <= |es|
  {}

  lemma CopyBytes(name: string, copy: string)
    requires Bytes(name) && |copy| == Directory.DIRSIZ
             && Directory.Key(copy, Directory.DIRSIZ) == Directory.Key(name, Directory.DIRSIZ)
    requires forall i :: |Directory.Key(name, Directory.DIRSIZ)| <= i < Directory.DIRSIZ ==> copy[i] == '\0'
    ensures Bytes(copy)
  {
    var key := Directory.Key(name, Directory.DIRSIZ);
    assert forall i :: 0 <= i < |key| ==> copy[i] == key[i] == name[i];
  }

  /** The name is new, so the map gains it. */
  lemma NewName(es: seq<Directory.Dirent>, key: string, k: nat, e: Directory.Dirent)
    requires (forall i :: 0 <= i < |es| ==> Directory.EntryOk(es[i])) && Directory.Unique(es)
             && key !in Directory.Names(es)
    requires k == Directory.FirstUnused(es) && Directory.EntryOk(e) && e.inum != 0 && Directory.KeyOf(e) == key
    ensures Directory.Unique(Directory.Put(es, k, e))
            && Directory.Names(Directory.Put(es, k, e)) == Directory.Names(es)[key := e.inum]
  {
    Directory.NamesHas(es, key);
    Directory.PutNames(es, k, e);
  }

  lemma OthersEntries(fs: Fs, fs': Fs, n: nat, k: nat, e: Directory.Dirent)
    requires Storable(e) && Written(fs, fs', n, k * ENTRY, Encode(e))
    requires forall m :: m in fs.inodes && m != n ==> m in fs'.inodes && fs'.inodes[m].size == fs.inodes[m].size
    ensures forall m :: m in fs.inodes && m != n ==> Entries(fs', m) == Entries(fs, m)
  {
    hide Written, EntryAt;
    forall m | m in fs.inodes && m != n
      ensures Entries(fs', m) == Entries(fs, m)
    {
      forall j | 0 <= j < fs.inodes[m].size / ENTRY
        ensures EntryAt(fs', m, j) == EntryAt(fs, m, j)
      {
        EntryWritten(fs, fs', n, k, e, m, j);
      }
    }
  }

  lemma SameEntries(fs: Fs, fs': Fs, n: nat, off: nat)
    requires Written(fs, fs', n, off, []) && n in fs.inodes && n in fs'.inodes
             && fs'.inodes[n].size == fs.inodes[n].size
    requires forall m :: m in fs.inodes && m != n ==> m in fs'.inodes && fs'.inodes[m].size == fs.inodes[m].size
    ensures forall m :: m in fs.inodes ==> Entries(fs', m) == Entries(fs, m)
  {
    forall m | m in fs.inodes
      ensures Entries(fs', m) == Entries(fs, m)
    {
      forall j | 0 <= j < fs.inodes[m].size / ENTRY
        ensures EntryAt(fs', m, j) == EntryAt(fs, m, j)
      {
        assert FileBytes(fs', m, j * ENTRY, ENTRY) == FileBytes(fs, m, j * ENTRY, ENTRY);
      }
    }
  }
}
