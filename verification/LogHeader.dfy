/** The header block of the on-disk log (struct logheader in kernel/log.c): word 0 is
    the number of logged blocks, words 1 .. n their home block numbers. */
module LogHeader {
  import opened Blocks

  predicate HeaderFits(d: Block) {
    GetWord(d, 0) <= LOGSIZE
  }

  /** Words 1 .. n of a header block. */
  function HeaderWords(d: Block, n: nat): (bs: seq<nat>)
    requires n <= LOGSIZE
    ensures |bs| == n
  {
    if n == 0 then [] else HeaderWords(d, n - 1) + [GetWord(d, n)]
  }

  /** What read_head finds in a header block. */
  function DecodeHeader(d: Block): (bs: seq<nat>)
    requires HeaderFits(d)
  {
    HeaderWords(d, GetWord(d, 0))
  }

  predicate Encodable(bs: seq<nat>) {
    |bs| <= LOGSIZE && forall i :: 0 <= i < |bs| ==> bs[i] < 0x1_0000_0000
  }

  /** The header buffer after write_head has stored n and the first k block numbers;
      words beyond those keep what the buffer held. */
  function HeaderPrefix(d: Block, bs: seq<nat>, k: nat): (r: Block)
    requires Encodable(bs) && k <= |bs|
  {
    if k == 0 then SetWord(d, 0, |bs|) else SetWord(HeaderPrefix(d, bs, k - 1), k, bs[k - 1])
  }

  function EncodeHeader(d: Block, bs: seq<nat>): (r: Block)
    requires Encodable(bs)
  {
    HeaderPrefix(d, bs, |bs|)
  }

  lemma {:induction false} HeaderPrefixWords(d: Block, bs: seq<nat>, k: nat, j: nat)
    requires Encodable(bs) && k <= |bs| && j < NWORDS
    ensures GetWord(HeaderPrefix(d, bs, k), j) ==
            if j == 0 then |bs| else if j <= k then bs[j - 1] else GetWord(d, j)
  {
    if k == 0 {
      SetThenGet(d, 0, |bs|, j);
    } else {
      HeaderPrefixWords(d, bs, k - 1, j);
      SetThenGet(HeaderPrefix(d, bs, k - 1), k, bs[k - 1], j);
    }
  }

  lemma {:induction false} HeaderWordsOf(d: Block, bs: seq<nat>, n: nat)
    requires Encodable(bs) && n <= |bs|
    ensures HeaderWords(EncodeHeader(d, bs), n) == bs[..n]
  {
    if n > 0 {
      HeaderWordsOf(d, bs, n - 1);
      HeaderPrefixWords(d, bs, |bs|, n);
    }
  }

  /** Whatever the header block held before, reading back a written header gives the written list. */
  lemma HeaderRoundTrip(d: Block, bs: seq<nat>)
    requires Encodable(bs)
    ensures HeaderFits(EncodeHeader(d, bs)) && DecodeHeader(EncodeHeader(d, bs)) == bs
  {
    HeaderPrefixWords(d, bs, |bs|, 0);
    HeaderWordsOf(d, bs, |bs|);
  }

  /** Where the header's words are: the count first, then the block numbers in order. */
  lemma HeaderLayout(d: Block, i: nat)
    requires HeaderFits(d) && i < |DecodeHeader(d)|
    ensures |DecodeHeader(d)| == GetWord(d, 0) && DecodeHeader(d)[i] == GetWord(d, i + 1)
  {
    WordAt(d, GetWord(d, 0), i);
  }

  lemma {:induction false} WordAt(d: Block, n: nat, i: nat)
    requires i < n <= LOGSIZE
    ensures HeaderWords(d, n)[i] == GetWord(d, i + 1)
  {
    if i < n - 1 { WordAt(d, n - 1, i); }
  }
}
