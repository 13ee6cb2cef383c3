/** The slicing-by-8 software CRC-32C. */
module Crc32cSoftware {
  import opened Words
  import opened Crc32c

  /** The table entry the construction aims at: byte n followed by k zero bytes, from an empty register. */
  ghost function Entry(k: nat, n: nat): Word {
    Feed(ZERO, OfNat(8, n) + Zeros(8 * k))
  }

  ghost predicate IsTable(t: array2<Word>)
    reads t
  {
    && t.Length0 == 8
    && t.Length1 == 256
    && forall k, n :: 0 <= k < 8 && 0 <= n < 256 ==> t[k, n] == Entry(k, n)
  }

  function BitStep(crc: Word): Word {
    if crc[0] then Xor(Shr(crc, 1), POLY) else Shr(crc, 1)
  }

  function Index(b: Octet): (n: nat)
    ensures n < 256
    ensures OfNat(8, n) == b
  {
    ByteRange();
    OfNatValue(b);
    Value(b)
  }

  lemma FeedTwoZeros(n: nat, c: Word)
    ensures Feed(c, Zeros(n + 2)) == Feed(BitStep(BitStep(c)), Zeros(n))
  {
    assert Zeros(n + 2)[1..] == Zeros(n + 1);
    assert Zeros(n + 1)[1..] == Zeros(n);
  }

  lemma EightSteps(c: Word)
    ensures Feed(c, Zeros(8))
         == BitStep(BitStep(BitStep(BitStep(BitStep(BitStep(BitStep(BitStep(c))))))))
  {
    var c2 := BitStep(BitStep(c));
    var c4 := BitStep(BitStep(c2));
    FeedTwoZeros(6, c);
    FeedTwoZeros(4, c2);
    FeedTwoZeros(2, c4);
    FeedTwoZeros(0, BitStep(BitStep(c4)));
  }

  /** Eight steps from the number n itself give the entry for byte n. */
  lemma FirstRow(n: nat)
    requires n < 256
    ensures Feed(OfNat(32, n), Zeros(8)) == Entry(0, n)
  {
    var b := OfNat(8, n);
    ByteRange();
    OfNatWiden(8, 24, n);
    FeedByte(b + Zeros(24), Zeros(8));
    assert (b + Zeros(24))[..8] == b;
    assert Shr(b + Zeros(24), 8) == ZERO;
    XorZeros(b);
    XorZeros(Feed(ZERO, b));
    assert b + Zeros(0) == b;
  }

  /** Each further row is one table step of the row before it. */
  lemma NextRow(k: nat, n: nat)
    ensures Entry(k + 1, n) == Xor(Entry(0, Index(Entry(k, n)[..8])), Shr(Entry(k, n), 8))
  {
    var b, c := OfNat(8, n), Entry(k, n);
    assert b + Zeros(8 * (k + 1)) == b + Zeros(8 * k) + Zeros(8);
    FeedAppend(ZERO, b + Zeros(8 * k), Zeros(8));
    FeedByte(c, Zeros(8));
    XorZeros(c[..8]);
    assert c[..8] + Zeros(0) == c[..8];
  }

  /** The eight conditional shifts that `crc32c_init_sw` writes out. */
  function EightBitSteps(crc: Word): (r: Word)
    ensures r == Feed(crc, Zeros(8))
  {
    EightSteps(crc);
    BitStep(BitStep(BitStep(BitStep(BitStep(BitStep(BitStep(BitStep(crc))))))))
  }

  method InitFirstRow(t: array2<Word>)
    requires t.Length0 == 8 && t.Length1 == 256
    modifies t
    ensures forall n :: 0 <= n < 256 ==> t[0, n] == Entry(0, n)
  {
    hide Entry, Feed, EightBitSteps, OfNat;
    for n := 0 to 256
      invariant forall m :: 0 <= m < n ==> t[0, m] == Entry(0, m)
    {
      FirstRow(n);
      t[0, n] := EightBitSteps(OfNat(32, n));
    }
  }

  method InitTable(t: array2<Word>)
    requires t.Length0 == 8 && t.Length1 == 256
    modifies t
    ensures IsTable(t)
  {
    hide Entry;
    InitFirstRow(t);
    for n := 0 to 256
      invariant forall m :: 0 <= m < 256 ==> t[0, m] == Entry(0, m)
      invariant forall k, m :: 0 <= k < 8 && 0 <= m < n ==> t[k, m] == Entry(k, m)
    {
      var crc := t[0, n];
      for k := 1 to 8
        invariant crc == Entry(k - 1, n)
        invariant forall m :: 0 <= m < 256 ==> t[0, m] == Entry(0, m)
        invariant forall j, m :: 0 <= j < 8 && 0 <= m < n ==> t[j, m] == Entry(j, m)
        invariant forall j :: 0 <= j < k ==> t[j, n] == Entry(j, n)
      {
        NextRow(k - 1, n);
        crc := Xor(t[0, Index(crc[..8])], Shr(crc, 8));
        t[k, n] := crc;
      }
    }
  }

  // ----- eight bytes at a time -----

  /** Octet i of x. */
  function Lane(x: Bits, i: nat): Octet
    requires 8 * i + 8 <= |x|
  {
    x[8 * i..8 * i + 8]
  }

  /** The first j terms of the eight-table expression, xored from the left. */
  function Slices(t: array2<Word>, x: Bits, j: nat): Word
    reads t
    requires t.Length0 == 8 && t.Length1 == 256 && |x| == 64 && 1 <= j <= 8
  {
    if j == 1 then t[7, Index(Lane(x, 0))]
    else Xor(Slices(t, x, j - 1), t[8 - j, Index(Lane(x, j - 1))])
  }

  /** One more byte adds its own contribution to the earlier bytes shifted by it. */
  lemma FeedOneMore(y: Bits, b: Octet, k: nat)
    ensures Feed(ZERO, y + b + Zeros(8 * k))
         == Xor(Feed(ZERO, y + Zeros(8 * (k + 1))), Feed(ZERO, b + Zeros(8 * k)))
  {
    var tail := b + Zeros(8 * k);
    assert y + b + Zeros(8 * k) == y + tail;
    assert y + Zeros(8 * (k + 1)) == y + Zeros(|tail|);
    FeedAppend(ZERO, y, tail);
    FeedAppend(ZERO, y, Zeros(|tail|));
    FeedSplit(Feed(ZERO, y), tail);
  }

  lemma Lookup(t: array2<Word>, k: nat, b: Octet)
    requires IsTable(t) && k < 8
    ensures t[k, Index(b)] == Feed(ZERO, b + Zeros(8 * k))
  {
    assert t[k, Index(b)] == Entry(k, Index(b));
  }

  lemma {:induction false} SlicesFeed(t: array2<Word>, x: Bits, j: nat)
    requires IsTable(t) && |x| == 64 && 1 <= j <= 8
    ensures Slices(t, x, j) == Feed(ZERO, x[..8 * j] + Zeros(8 * (8 - j)))
  {
    hide Feed;
    Lookup(t, 8 - j, Lane(x, j - 1));
    if j > 1 {
      SlicesFeed(t, x, j - 1);
      FeedOneMore(x[..8 * (j - 1)], Lane(x, j - 1), 8 - j);
      assert x[..8 * (j - 1)] + Lane(x, j - 1) == x[..8 * j];
    }
  }

  // ----- the loops -----

  /** What the register will hold at the end of the buffer. */
  ghost function Finish(crc: Word, buf: seq<Octet>, next: nat): Word
    requires next <= |buf|
  {
    Feed(crc, Flat(buf[next..]))
  }

  lemma FinishWhole(crci: Word, buf: seq<Octet>)
    ensures Xor(Finish(Xor(crci, ONES), buf, 0), ONES) == Crc(crci, buf)
  {
    assert buf[0..] == buf;
  }

  lemma FinishEnd(crc: Word, buf: seq<Octet>)
    ensures Finish(crc, buf, |buf|) == crc
  {
  }

  lemma FinishAfter(crc: Word, buf: seq<Octet>, next: nat, n: nat)
    requires next + n <= |buf|
    ensures Finish(Feed(crc, Flat(buf[next..next + n])), buf, next + n) == Finish(crc, buf, next)
  {
    var a, b := buf[next..next + n], buf[next + n..];
    assert buf[next..] == a + b;
    FlatAppend(a, b);
    FeedAppend(crc, Flat(a), Flat(b));
  }

  /** table[0][(crc ^ b) & 0xff] ^ (crc >> 8) */
  function TableStep(t: array2<Word>, crc: Word, b: Octet): Word
    reads t
    requires t.Length0 == 8 && t.Length1 == 256
  {
    Xor(t[0, Index(Xor(crc[..8], b))], Shr(crc, 8))
  }

  lemma TableStepFinish(t: array2<Word>, crc: Word, buf: seq<Octet>, next: nat)
    requires IsTable(t) && next < |buf|
    ensures Finish(TableStep(t, crc, buf[next]), buf, next + 1) == Finish(crc, buf, next)
  {
    var b := buf[next];
    var x := Xor(crc[..8], b);
    Lookup(t, 0, x);
    assert x + Zeros(0) == x;
    FeedByte(crc, b);
    assert Flat(buf[next..next + 1]) == b;
    FinishAfter(crc, buf, next, 1);
  }

  /** crc ^= *(uint64_t *)next, then the eight-table expression */
  function SliceStep(t: array2<Word>, crc: Word, eight: seq<Octet>): Word
    reads t
    requires t.Length0 == 8 && t.Length1 == 256 && |eight| == 8
  {
    Slices(t, Xor(crc + Zeros(32), Flat(eight)), 8)
  }

  lemma SliceStepFinish(t: array2<Word>, crc: Word, buf: seq<Octet>, next: nat)
    requires IsTable(t) && next + 8 <= |buf|
    ensures Finish(SliceStep(t, crc, buf[next..next + 8]), buf, next + 8) == Finish(crc, buf, next)
  {
    var w := Flat(buf[next..next + 8]);
    var x := Xor(crc + Zeros(32), w);
    FeedMerge(crc, w);
    SlicesFeed(t, x, 8);
    assert x[..64] + Zeros(0) == x;
    FinishAfter(crc, buf, next, 8);
  }

  /** `crc32c_sw` on a buffer that starts at address `addr`; its 64-bit register never leaves 32 bits. */
  method CrcSoftware(t: array2<Word>, crci: Word, buf: seq<Octet>, addr: nat) returns (r: Word)
    requires IsTable(t)
    ensures r == Crc(crci, buf)
  {
    hide Finish, TableStep, SliceStep, Crc;
    FinishWhole(crci, buf);
    var crc: Word := Xor(crci, ONES);
    ghost var result := Finish(crc, buf, 0);
    var next := 0;
    while next < |buf| && (addr + next) % 8 != 0
      invariant 0 <= next <= |buf|
      invariant Finish(crc, buf, next) == result
    {
      TableStepFinish(t, crc, buf, next);
      crc := TableStep(t, crc, buf[next]);
      next := next + 1;
    }
    while |buf| - next >= 8
      invariant 0 <= next <= |buf| && (next < |buf| ==> (addr + next) % 8 == 0)
      invariant Finish(crc, buf, next) == result
    {
      SliceStepFinish(t, crc, buf, next);
      crc := SliceStep(t, crc, buf[next..next + 8]);
      next := next + 8;
    }
    while next < |buf|
      invariant 0 <= next <= |buf|
      invariant Finish(crc, buf, next) == result
    {
      TableStepFinish(t, crc, buf, next);
      crc := TableStep(t, crc, buf[next]);
      next := next + 1;
    }
    FinishEnd(crc, buf);
    r := Xor(crc, ONES);
  }
}
