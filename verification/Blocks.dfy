/** Disk blocks as the kernel sees them: BSIZE bytes, of which the log header and
    the indirect blocks are read as little-endian 32-bit words (kernel/fs.h). */
module Blocks {

  const BSIZE := 1024
  const NWORDS := 256
  const MAXOPBLOCKS := 10
  const LOGSIZE := 30
  const NBUF := 30

  type byte = x: int | 0 <= x < 256
  type uint = x: int | 0 <= x < 0x1_0000_0000
  type Block = d: seq<byte> | |d| == BSIZE witness seq(BSIZE, _ => 0)

  /** A block of zero bytes. */
  function Zeros(): (d: Block)
    ensures forall i :: 0 <= i < BSIZE ==> d[i] == 0
  {
    seq(BSIZE, _ => 0)
  }

  function GetWord(d: Block, j: nat): (w: uint)
    requires j < NWORDS
  {
    var b0: int, b1: int, b2: int, b3: int := d[4 * j], d[4 * j + 1], d[4 * j + 2], d[4 * j + 3];
    b0 + 256 * b1 + 65536 * b2 + 16777216 * b3
  }

  function SetWord(d: Block, j: nat, w: uint): (r: Block)
    requires j < NWORDS
  {
    d[4 * j := w % 256]
    [4 * j + 1 := w / 256 % 256]
    [4 * j + 2 := w / 65536 % 256]
    [4 * j + 3 := w / 16777216]
  }

  lemma SplitWord(w: uint)
    ensures w == w % 256 + 256 * (w / 256 % 256) + 65536 * (w / 65536 % 256) + 16777216 * (w / 16777216)
  {
    assert w / 65536 == w / 256 / 256;
    assert w / 16777216 == w / 65536 / 256;
  }

  /** A stored word is read back, and storing it disturbs no other word. */
  lemma SetThenGet(d: Block, j: nat, w: uint, k: nat)
    requires j < NWORDS && k < NWORDS
    ensures GetWord(SetWord(d, j, w), k) == if k == j then w else GetWord(d, k)
  {
    SplitWord(w);
  }

  function Pow256(k: nat): (n: nat)
    requires k < 4
    ensures n > 0
  {
    if k == 0 then 1 else if k == 1 then 0x100 else if k == 2 then 0x1_0000 else 0x100_0000
  }

  /** The bytes of a word are its digits to the base 256, the lowest first. */
  lemma WordBytes(d: Block, j: nat, i: nat)
    requires j < NWORDS && i < 4
    ensures d[4 * j + i] == GetWord(d, j) / Pow256(i) % 256
  {
    var b0: int, b1: int, b2: int, b3: int := d[4 * j], d[4 * j + 1], d[4 * j + 2], d[4 * j + 3];
    var w := GetWord(d, j);
    Digits(b0, b1, b2, b3);
  }

  lemma Digits(b0: int, b1: int, b2: int, b3: int)
    requires 0 <= b0 < 256 && 0 <= b1 < 256 && 0 <= b2 < 256 && 0 <= b3 < 256
    ensures var w := b0 + 256 * b1 + 65536 * b2 + 16777216 * b3;
            && w % 256 == b0 && w / 0x100 % 256 == b1 && w / 0x1_0000 % 256 == b2 && w / 0x100_0000 % 256 == b3
  {
    var w := b0 + 256 * b1 + 65536 * b2 + 16777216 * b3;
    var u := b1 + 256 * b2 + 65536 * b3;
    assert w == b0 + 256 * u && w / 256 == u;
    assert u / 256 == b2 + 256 * b3;
    assert w / 65536 == u / 256;
    assert w / 16777216 == b3;
  }
}
