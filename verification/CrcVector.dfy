/** The CRC-32C of 32 zero bytes, as appendix B.4 of RFC 3720 publishes it, computed on machine words. */
module CrcVector {
  import opened Words
  import opened Crc32c

  // ----- the register as a machine word -----

  function Odd(w: bv32): bool {
    w & 1 == 1
  }

  function Half(w: bv32): bv32 {
    w >> 1
  }

  function Shift4(w: bv32): bv32 {
    w >> 4
  }

  function Xor32(w: bv32, v: bv32): bv32 {
    w ^ v
  }

  /** crc & 1 ? (crc >> 1) ^ POLY : crc >> 1 */
  function Turn(w: bv32): bv32 {
    if Odd(w) then Xor32(Half(w), 0x82f63b78) else Half(w)
  }

  function Turn8(w: bv32): bv32 {
    Turn(Turn(Turn(Turn(Turn(Turn(Turn(Turn(w))))))))
  }

  function Turns(w: bv32): bv32 {
    Turn8(Turn8(Turn8(Turn8(Turn8(Turn8(Turn8(Turn8(w))))))))
  }

  lemma FirstEight()
    ensures Turns(0xffffffff) == 0x73d74d75
  {
    assert Turn8(0xffffffff) == 0xad82acae;
    assert Turn8(0xad82acae) == 0x0e9e882d;
    assert Turn8(0x0e9e882d) == 0x9f9b5c85;
    assert Turn8(0x9f9b5c85) == 0xb798b438;
    assert Turn8(0xb798b438) == 0xba8d89ca;
    assert Turn8(0xba8d89ca) == 0xa8d58375;
    assert Turn8(0xa8d58375) == 0x44c19592;
    assert Turn8(0x44c19592) == 0x73d74d75;
  }

  lemma SecondEight()
    ensures Turns(0x73d74d75) == 0xbd8f6515
  {
    assert Turn8(0x73d74d75) == 0x441a975c;
    assert Turn8(0x441a975c) == 0x1c220f94;
    assert Turn8(0x1c220f94) == 0x552e4907;
    assert Turn8(0x552e4907) == 0xd49f4aa2;
    assert Turn8(0xd49f4aa2) == 0x43a45a1b;
    assert Turn8(0x43a45a1b) == 0x8994c80e;
    assert Turn8(0x8994c80e) == 0xacf12bef;
    assert Turn8(0xacf12bef) == 0xbd8f6515;
  }

  lemma ThirdEight()
    ensures Turns(0xbd8f6515) == 0x7b041311
  {
    assert Turn8(0xbd8f6515) == 0x25125c16;
    assert Turn8(0x25125c16) == 0x36da32db;
    assert Turn8(0x36da32db) == 0x4a6c90a2;
    assert Turn8(0x4a6c90a2) == 0x433aa9c1;
    assert Turn8(0x433aa9c1) == 0x31a59f6e;
    assert Turn8(0x31a59f6e) == 0xcd8f89da;
    assert Turn8(0xcd8f89da) == 0xb8fc461a;
    assert Turn8(0xb8fc461a) == 0x7b041311;
  }

  lemma FourthEight()
    ensures Turns(0x7b041311) == 0x756ec955
  {
    assert Turn8(0x7b041311) == 0xe24e407f;
    assert Turn8(0xe24e407f) == 0x2f692669;
    assert Turn8(0x2f692669) == 0x195b2188;
    assert Turn8(0x195b2188) == 0x08363896;
    assert Turn8(0x08363896) == 0xb4012dc7;
    assert Turn8(0xb4012dc7) == 0x17f34302;
    assert Turn8(0x17f34302) == 0xe12c83b4;
    assert Turn8(0xe12c83b4) == 0x756ec955;
  }

  /** The low n bits of w. */
  function Low(w: bv32, n: nat): (b: Bits)
    ensures |b| == n
  {
    if n == 0 then [] else [Odd(w)] + Low(Half(w), n - 1)
  }

  predicate Fits(w: bv32, n: nat) {
    if n == 0 then w == 0 else Fits(Half(w), n - 1)
  }

  lemma XorBit(w: bv32, v: bv32)
    ensures Odd(Xor32(w, v)) == (Odd(w) != Odd(v))
  {
  }

  lemma XorShift(w: bv32, v: bv32)
    ensures Half(Xor32(w, v)) == Xor32(Half(w), Half(v))
  {
  }

  lemma HalfFour(w: bv32)
    ensures Half(Half(Half(Half(w)))) == Shift4(w)
  {
  }

  lemma ShiftOut(w: bv32)
    ensures Shift4(Shift4(Shift4(Shift4(Shift4(Shift4(Shift4(Shift4(w)))))))) == 0
  {
  }

  lemma {:induction false} LowXor(w: bv32, v: bv32, n: nat)
    ensures Low(Xor32(w, v), n) == Xor(Low(w, n), Low(v, n))
    decreases n
  {
    hide Odd, Half, Xor32;
    if n > 0 {
      XorBit(w, v);
      XorShift(w, v);
      LowXor(Half(w), Half(v), n - 1);
    }
  }

  lemma {:induction false} LowFits(w: bv32, n: nat)
    requires Fits(w, n)
    ensures Low(w, n + 1) == Low(w, n) + [false]
    decreases n
  {
    if n > 0 {
      hide Odd, Half;
      LowFits(Half(w), n - 1);
    }
  }

  lemma FitsFour(w: bv32, n: nat)
    requires Fits(Shift4(w), n)
    ensures Fits(w, n + 4)
  {
    hide Odd, Half, Shift4;
    HalfFour(w);
    assert Fits(Half(Half(Half(w))), n + 1);
    assert Fits(Half(Half(w)), n + 2);
    assert Fits(Half(w), n + 3);
  }

  lemma {:induction false} AllFit(w: bv32)
    ensures Fits(Half(w), 31)
  {
    hide Odd, Half, Shift4;
    ShiftOut(w);
    var w1 := Shift4(w);
    var w2 := Shift4(w1);
    var w3 := Shift4(w2);
    var w4 := Shift4(w3);
    var w5 := Shift4(w4);
    var w6 := Shift4(w5);
    var w7 := Shift4(w6);
    FitsFour(w7, 0);
    FitsFour(w6, 4);
    FitsFour(w5, 8);
    FitsFour(w4, 12);
    FitsFour(w3, 16);
    FitsFour(w2, 20);
    FitsFour(w1, 24);
    FitsFour(w, 28);
  }

  lemma LowOne(w: bv32, n: nat)
    ensures Low(w, n + 1) == [Odd(w)] + Low(Half(w), n) && Low(w, 0) == []
  {
  }

  /** The last four bits of w, and the others. */
  predicate Nibble(w: bv32, a: bool, b: bool, c: bool, d: bool, rest: bv32) {
    a == Odd(w) && b == Odd(Half(w)) && c == Odd(Half(Half(w))) && d == Odd(Half(Half(Half(w)))) && rest == Shift4(w)
  }

  lemma LowFour(w: bv32, n: nat, a: bool, b: bool, c: bool, d: bool, rest: bv32)
    requires Nibble(w, a, b, c, d, rest)
    ensures Low(w, n + 4) == [a, b, c, d] + Low(rest, n)
  {
    hide Odd, Half, Shift4, Low;
    HalfFour(w);
    LowOne(w, n + 3);
    LowOne(Half(w), n + 2);
    LowOne(Half(Half(w)), n + 1);
    LowOne(Half(Half(Half(w))), n);
  }

  lemma PolyNibbles()
    ensures Nibble(0x82f63b78, false, false, false, true, 0x82f63b7)
    ensures Nibble(0x82f63b7, true, true, true, false, 0x82f63b)
    ensures Nibble(0x82f63b, true, true, false, true, 0x82f63)
    ensures Nibble(0x82f63, true, true, false, false, 0x82f6)
    ensures Nibble(0x82f6, false, true, true, false, 0x82f)
    ensures Nibble(0x82f, true, true, true, true, 0x82)
    ensures Nibble(0x82, false, true, false, false, 0x8)
    ensures Nibble(0x8, false, false, false, true, 0x0)
  {
  }

  lemma PolyBits()
    ensures Low(0x82f63b78, 32) == POLY
  {
    hide Nibble, Low;
    PolyLowBits();
    PolyHighBits();
    assert POLY == POLY[..16] + POLY[16..];
  }

  lemma PolyLowBits()
    ensures Low(0x82f63b78, 32) == POLY[..16] + Low(0x82f6, 16)
  {
    hide Nibble, Low;
    PolyNibbles();
    LowFour(0x82f63b78, 28, false, false, false, true, 0x82f63b7);
    LowFour(0x82f63b7, 24, true, true, true, false, 0x82f63b);
    LowFour(0x82f63b, 20, true, true, false, true, 0x82f63);
    LowFour(0x82f63, 16, true, true, false, false, 0x82f6);
  }

  lemma PolyHighBits()
    ensures Low(0x82f6, 16) == POLY[16..]
  {
    hide Nibble, Low;
    PolyNibbles();
    LowFour(0x82f6, 12, false, true, true, false, 0x82f);
    LowFour(0x82f, 8, true, true, true, true, 0x82);
    LowFour(0x82, 4, false, true, false, false, 0x8);
    LowFour(0x8, 0, false, false, false, true, 0x0);
    LowOne(0, 0);
  }

  lemma OnesNibbles()
    ensures Nibble(0xffffffff, true, true, true, true, 0xfffffff)
    ensures Nibble(0xfffffff, true, true, true, true, 0xffffff)
    ensures Nibble(0xffffff, true, true, true, true, 0xfffff)
    ensures Nibble(0xfffff, true, true, true, true, 0xffff)
    ensures Nibble(0xffff, true, true, true, true, 0xfff)
    ensures Nibble(0xfff, true, true, true, true, 0xff)
    ensures Nibble(0xff, true, true, true, true, 0xf)
    ensures Nibble(0xf, true, true, true, true, 0x0)
  {
  }

  lemma OnesBits()
    ensures Low(0xffffffff, 32) == ONES
  {
    hide Nibble, Low;
    OnesNibbles();
    LowFour(0xffffffff, 28, true, true, true, true, 0xfffffff);
    LowFour(0xfffffff, 24, true, true, true, true, 0xffffff);
    LowFour(0xffffff, 20, true, true, true, true, 0xfffff);
    LowFour(0xfffff, 16, true, true, true, true, 0xffff);
    LowFour(0xffff, 12, true, true, true, true, 0xfff);
    LowFour(0xfff, 8, true, true, true, true, 0xff);
    LowFour(0xff, 4, true, true, true, true, 0xf);
    LowFour(0xf, 0, true, true, true, true, 0x0);
    LowOne(0, 0);
  }

  lemma TurnFeeds(w: bv32)
    ensures FeedBit(Low(w, 32), false) == Low(Turn(w), 32)
  {
    hide Odd, Half, Xor32;
    var v := Half(w);
    assert Low(w, 32) == [Odd(w)] + Low(v, 31);
    AllFit(w);
    LowFits(v, 31);
    assert Shr(Low(w, 32), 1) == Low(v, 32);
    PolyBits();
    LowXor(v, 0x82f63b78, 32);
  }

  // ----- thirty-two zero bytes -----

  lemma BitFeeds(w: bv32, n: nat)
    ensures Feed(Low(w, 32), Zeros(n + 1)) == Feed(Low(Turn(w), 32), Zeros(n))
  {
    hide Turn, Low, FeedBit;
    TurnFeeds(w);
    assert Zeros(n + 1)[1..] == Zeros(n);
  }

  lemma ByteFeeds(w: bv32, n: nat)
    ensures Feed(Low(w, 32), Zeros(n + 8)) == Feed(Low(Turn8(w), 32), Zeros(n))
  {
    hide Turn, Low, Feed;
    var w1 := Turn(w);
    var w2 := Turn(w1);
    var w3 := Turn(w2);
    var w4 := Turn(w3);
    var w5 := Turn(w4);
    var w6 := Turn(w5);
    BitFeeds(w, n + 7);
    BitFeeds(w1, n + 6);
    BitFeeds(w2, n + 5);
    BitFeeds(w3, n + 4);
    BitFeeds(w4, n + 3);
    BitFeeds(w5, n + 2);
    BitFeeds(w6, n + 1);
    BitFeeds(Turn(w6), n);
  }

  lemma EightFeed(w: bv32, n: nat)
    ensures Feed(Low(w, 32), Zeros(n + 64)) == Feed(Low(Turns(w), 32), Zeros(n))
  {
    hide Turn8, Low, Feed;
    var w1 := Turn8(w);
    var w2 := Turn8(w1);
    var w3 := Turn8(w2);
    var w4 := Turn8(w3);
    var w5 := Turn8(w4);
    var w6 := Turn8(w5);
    ByteFeeds(w, n + 56);
    ByteFeeds(w1, n + 48);
    ByteFeeds(w2, n + 40);
    ByteFeeds(w3, n + 32);
    ByteFeeds(w4, n + 24);
    ByteFeeds(w5, n + 16);
    ByteFeeds(w6, n + 8);
    ByteFeeds(Turn8(w6), n);
  }

  lemma {:induction false} FlatZeros(n: nat)
    ensures Flat(seq(n, (_: nat) => Zeros(8))) == Zeros(8 * n)
  {
    var m: seq<Octet> := seq(n, (_: nat) => Zeros(8));
    if n > 0 {
      assert m[1..] == seq(n - 1, (_: nat) => Zeros(8));
      FlatZeros(n - 1);
      assert Zeros(8) + Zeros(8 * (n - 1)) == Zeros(8 * n);
    }
  }

  /** The published value, and with it the polynomial, the inverted start and the inverted end. */
  lemma ZeroBytesCrc()
    ensures Crc(ZERO, seq(32, (_: nat) => Zeros(8))) == Low(0x8a9136aa, 32)
  {
    hide Low, Feed, Turns;
    FlatZeros(32);
    OnesBits();
    XorZeros(ONES);
    FirstEight();
    SecondEight();
    ThirdEight();
    FourthEight();
    EightFeed(0xffffffff, 192);
    EightFeed(0x73d74d75, 128);
    EightFeed(0xbd8f6515, 64);
    EightFeed(0x7b041311, 0);
    FedNothing(Low(0x756ec955, 32));
    LowXor(0x756ec955, 0xffffffff, 32);
    Inverted();
  }

  lemma FedNothing(c: Word)
    ensures Feed(c, Zeros(0)) == c
  {
  }

  lemma Inverted()
    ensures Xor32(0x756ec955, 0xffffffff) == 0x8a9136aa
  {
  }
}
