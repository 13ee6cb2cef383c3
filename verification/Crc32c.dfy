/** CRC-32C, one message bit at a time, and the linear algebra that every fast form rests on. */
module Crc32c {
  import opened Words

  /** 0x82f63b78: the CRC-32C polynomial of RFC 3720 section 12.1 in reversed bit order. */
  const POLY: Word := [
    false, false, false, true, true, true, true, false, true, true, false, true, true, true, false, false,
    false, true, true, false, true, true, true, true, false, true, false, false, false, false, false, true]

  const ZERO: Word := Zeros(32)
  const ONES: Word := Ones(32)

  // ----- the reference -----

  /** Shift one message bit into the register and reduce. */
  function FeedBit(c: Word, bit: bool): Word {
    if c[0] != bit then Xor(Shr(c, 1), POLY) else Shr(c, 1)
  }

  function Feed(c: Word, bits: Bits): Word
    decreases |bits|
  {
    if bits == [] then c else Feed(FeedBit(c, bits[0]), bits[1..])
  }

  /** The bits of a message in transmission order. */
  function Flat(message: seq<Octet>): (bits: Bits)
    ensures |bits| == 8 * |message|
  {
    if message == [] then [] else message[0] + Flat(message[1..])
  }

  /** The CRC of `message` continued from the finished CRC `crc` (0 to start). */
  function Crc(crc: Word, message: seq<Octet>): Word {
    Xor(Feed(Xor(crc, ONES), Flat(message)), ONES)
  }

  // ----- Feed is linear, and composes -----

  lemma FeedBitLinear(a: Word, b: Word, p: bool, q: bool)
    ensures FeedBit(Xor(a, b), p != q) == Xor(FeedBit(a, p), FeedBit(b, q))
  {
    assert Shr(Xor(a, b), 1) == Xor(Shr(a, 1), Shr(b, 1));
  }

  lemma {:induction false} FeedLinear(a: Word, b: Word, u: Bits, v: Bits)
    requires |u| == |v|
    ensures Feed(Xor(a, b), Xor(u, v)) == Xor(Feed(a, u), Feed(b, v))
    decreases |u|
  {
    if u != [] {
      FeedBitLinear(a, b, u[0], v[0]);
      assert Xor(u, v)[1..] == Xor(u[1..], v[1..]);
      FeedLinear(FeedBit(a, u[0]), FeedBit(b, v[0]), u[1..], v[1..]);
    }
  }

  lemma {:induction false} FeedAppend(c: Word, u: Bits, v: Bits)
    ensures Feed(c, u + v) == Feed(Feed(c, u), v)
    decreases |u|
  {
    if u == [] {
      assert u + v == v;
    } else {
      assert (u + v)[1..] == u[1..] + v;
      FeedAppend(FeedBit(c, u[0]), u[1..], v);
    }
  }

  lemma {:induction false} FlatAppend(a: seq<Octet>, b: seq<Octet>)
    ensures Flat(a + b) == Flat(a) + Flat(b)
  {
    if a == [] {
      assert a + b == b;
    } else {
      assert (a + b)[1..] == a[1..] + b;
      FlatAppend(a[1..], b);
    }
  }

  /** A register fed exactly the bits it holds is left empty. */
  lemma {:induction false} FeedOwn(y: Bits, n: nat)
    requires |y| + n == 32
    ensures Feed(y + Zeros(n), y) == ZERO
    decreases |y|
  {
    if y == [] {
      assert y + Zeros(n) == ZERO;
    } else {
      assert Shr(y + Zeros(n), 1) == y[1..] + Zeros(n + 1);
      FeedOwn(y[1..], n + 1);
    }
  }

  /** Zero bits shift down a register whose low bits are clear. */
  lemma {:induction false} FeedClear(n: nat, y: Bits)
    requires n + |y| == 32
    ensures Feed(Zeros(n) + y, Zeros(n)) == y + Zeros(n)
    decreases n
  {
    if n == 0 {
      assert Zeros(0) + y == y == y + Zeros(0);
    } else {
      var y' := y + [false];
      assert Shr(Zeros(n) + y, 1) == Zeros(n - 1) + y';
      assert Zeros(n)[1..] == Zeros(n - 1);
      FeedClear(n - 1, y');
      assert y' + Zeros(n - 1) == y + Zeros(n);
    }
  }

  /** The start value passes through a message as through zeros, and adds. */
  lemma FeedSplit(c: Word, u: Bits)
    ensures Feed(c, u) == Xor(Feed(c, Zeros(|u|)), Feed(ZERO, u))
  {
    XorZeros(c);
    XorZeros(u);
    FeedLinear(c, ZERO, Zeros(|u|), u);
  }

  /** A register and a message at least as long meet only through the xor of their first 32 bits. */
  lemma FeedMerge(c: Word, w: Bits)
    requires |w| >= 32
    ensures Feed(c, w) == Feed(ZERO, Xor(c + Zeros(|w| - 32), w))
  {
    var pad := Zeros(|w| - 32);
    var x := Xor(c + pad, w);
    assert Feed(c, c + pad) == Feed(ZERO, pad) by {
      FeedAppend(c, c, pad);
      FeedOwn(c, 0);
      assert c + Zeros(0) == c;
    }
    assert Feed(c, c + pad) == ZERO by { FeedZero(|w| - 32); }
    assert Xor(x, c + pad) == w;
    XorZeros(c);
    FeedLinear(ZERO, c, x, c + pad);
    XorZeros(Feed(ZERO, x));
  }

  lemma {:induction false} FeedZero(n: nat)
    ensures Feed(ZERO, Zeros(n)) == ZERO
  {
    if n != 0 {
      assert Shr(ZERO, 1) == ZERO;
      assert Zeros(n)[1..] == Zeros(n - 1);
      FeedZero(n - 1);
    }
  }

  /** One byte through a one-byte table: look up the low byte, shift the rest. */
  lemma FeedByte(c: Word, b: Octet)
    ensures Feed(c, b) == Xor(Feed(ZERO, Xor(c[..8], b)), Shr(c, 8))
  {
    hide Feed;
    var lo, hi := c[..8] + Zeros(24), Zeros(8) + c[8..];
    assert Xor(lo, hi) == c;
    XorZeros(b);
    FeedLinear(lo, hi, b, Zeros(8));
    FeedClear(8, c[8..]);
    var x := Xor(c[..8], b);
    assert Xor(x, c[..8]) == b;
    XorZeros(lo);
    FeedLinear(ZERO, lo, x, c[..8]);
    FeedOwn(c[..8], 24);
    XorZeros(Feed(ZERO, x));
  }

  // ----- messages in pieces -----

  /** Three streams computed apart, recombined by shifting over their lengths. */
  lemma ThreeStreams(c: Word, a: Bits, b: Bits, d: Bits)
    ensures Feed(c, a + b + d)
         == Xor(Feed(Xor(Feed(Feed(c, a), Zeros(|b|)), Feed(ZERO, b)), Zeros(|d|)), Feed(ZERO, d))
  {
    FeedAppend(c, a + b, d);
    FeedAppend(c, a, b);
    FeedSplit(Feed(c, a), b);
    FeedSplit(Feed(c, a + b), d);
  }

  /** Checking a message piece by piece gives the CRC of the whole message. */
  lemma CrcAppend(crc: Word, a: seq<Octet>, b: seq<Octet>)
    ensures Crc(Crc(crc, a), b) == Crc(crc, a + b)
  {
    var start := Xor(crc, ONES);
    FlatAppend(a, b);
    FeedAppend(start, Flat(a), Flat(b));
    XorCancel(Feed(start, Flat(a)), ONES);
  }

  function Concat(pieces: seq<seq<Octet>>): seq<Octet> {
    if pieces == [] then [] else Concat(pieces[..|pieces| - 1]) + pieces[|pieces| - 1]
  }

  /** The readback check of a chunked item: iovec by iovec, skipping the 32-byte header prefix. */
  method CrcIovecs(iov: seq<seq<Octet>>) returns (crc2: Word)
    requires |iov| >= 1 && |iov[0]| >= 32
    ensures |Concat(iov)| >= 32 && crc2 == Crc(ZERO, Concat(iov)[32..])
  {
    hide Crc;
    crc2 := Crc(ZERO, iov[0][32..]);
    assert Concat(iov[..1]) == iov[0] by { assert iov[..1][..0] == []; }
    for x := 1 to |iov|
      invariant |Concat(iov[..x])| >= 32
      invariant crc2 == Crc(ZERO, Concat(iov[..x])[32..])
    {
      assert iov[..x + 1][..x] == iov[..x];
      CrcAppend(ZERO, Concat(iov[..x])[32..], iov[x]);
      assert Concat(iov[..x + 1])[32..] == Concat(iov[..x])[32..] + iov[x];
      crc2 := Crc(crc2, iov[x]);
    }
    assert iov[..|iov|] == iov;
  }
}
