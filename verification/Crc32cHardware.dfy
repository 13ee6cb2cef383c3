/** Zeros operators over GF(2) and the three-way parallel CRC-32C on the `crc32` instruction. */
module Crc32cHardware {
  import opened Arith
  import opened Words
  import opened Crc32c
  import opened Crc32cSoftware

  // ----- matrices over GF(2) -----

  /** 1 << i */
  function Unit(i: nat): Word
    requires i < 32
  {
    Zeros(i) + [true] + Zeros(31 - i)
  }

  /** Column i of the operator that applies k zero bits: what becomes of bit i. */
  ghost function Column(i: nat, k: nat): Word
    requires i < 32
  {
    Feed(Unit(i), Zeros(k))
  }

  ghost predicate IsOperator(mat: seq<Word>, k: nat) {
    |mat| == 32 && forall i :: 0 <= i < 32 ==> mat[i] == Column(i, k)
  }

  /** vec without its bits below i. */
  function Above(vec: Word, i: nat): Word
    requires i <= 32
  {
    Zeros(i) + vec[i..]
  }

  /** What the running sum comes to once the bits from i on are added. */
  ghost function Finished(sum: Word, vec: Word, i: nat, k: nat): Word
    requires i <= 32
  {
    Xor(sum, Feed(Above(vec, i), Zeros(k)))
  }

  lemma FinishedStart(vec: Word, k: nat)
    ensures Finished(ZERO, vec, 0, k) == Feed(vec, Zeros(k))
  {
    assert Above(vec, 0) == vec;
    XorZeros(Feed(vec, Zeros(k)));
  }

  /** A set bit i contributes the operator's column i. */
  lemma FinishedStep(mat: seq<Word>, sum: Word, vec: Word, i: nat, k: nat)
    requires IsOperator(mat, k) && i < 32
    ensures Finished(if vec[i] then Xor(sum, mat[i]) else sum, vec, i + 1, k) == Finished(sum, vec, i, k)
  {
    if vec[i] {
      assert Xor(Unit(i), Above(vec, i + 1)) == Above(vec, i);
      XorZeros(Zeros(k));
      FeedLinear(Unit(i), Above(vec, i + 1), Zeros(k), Zeros(k));
      XorAssoc(sum, mat[i], Feed(Above(vec, i + 1), Zeros(k)));
    } else {
      assert Above(vec, i) == Above(vec, i + 1);
    }
  }

  lemma FinishedEnd(sum: Word, vec: Word, i: nat, k: nat)
    requires i <= 32 && Shr(vec, i) == ZERO
    ensures Finished(sum, vec, i, k) == sum
  {
    assert forall j :: i <= j < 32 ==> vec[j] == Shr(vec, i)[j - i];
    assert Above(vec, i) == ZERO;
    FeedZero(k);
    XorZeros(sum);
  }

  lemma ShrOneMore(vec: Word, i: nat)
    requires i < 32
    ensures Shr(vec, i)[0] == vec[i]
    ensures Shr(Shr(vec, i), 1) == Shr(vec, i + 1)
  {
  }

  /** `gf2_matrix_times`: with an operator it applies the operator. */
  method MatrixTimes(mat: array<Word>, vec: Word, ghost k: nat) returns (sum: Word)
    requires IsOperator(mat[..], k)
    ensures sum == Feed(vec, Zeros(k))
  {
    sum := ZERO;
    var rest: Word, i := vec, 0;
    FinishedStart(vec, k);
    assert Shr(vec, 0) == vec;
    while rest != ZERO
      invariant 0 <= i <= 32
      invariant rest == Shr(vec, i)
      invariant Finished(sum, vec, i, k) == Feed(vec, Zeros(k))
      decreases 32 - i
    {
      assert i < 32 by { assert Shr(vec, 32) == ZERO; }
      FinishedStep(mat[..], sum, vec, i, k);
      ShrOneMore(vec, i);
      if rest[0] {
        sum := Xor(sum, mat[i]);
      }
      rest := Shr(rest, 1);
      i := i + 1;
    }
    FinishedEnd(sum, vec, i, k);
  }

  /** `gf2_matrix_square`: squaring an operator doubles the number of zero bits it applies. */
  method MatrixSquare(square: array<Word>, mat: array<Word>, ghost k: nat)
    requires square.Length == 32 && square != mat
    requires IsOperator(mat[..], k)
    modifies square
    ensures IsOperator(square[..], 2 * k)
  {
    hide Feed;
    for n := 0 to 32
      invariant mat[..] == old(mat[..])
      invariant forall i :: 0 <= i < n ==> square[i] == Column(i, 2 * k)
    {
      var column := MatrixTimes(mat, mat[n], k);
      assert mat[..][n] == Column(n, k);
      assert Zeros(2 * k) == Zeros(k) + Zeros(k);
      FeedAppend(Unit(n), Zeros(k), Zeros(k));
      square[n] := column;
    }
  }

  // ----- the operator for a power of two of zero bytes -----

  /** The largest power of two not above len; 1 for len == 0. */
  function TopPower(len: nat): nat {
    if len <= 1 then 1 else 2 * TopPower(len / 2)
  }

  lemma {:induction false} TopPowerBounds(len: nat) returns (n: nat)
    ensures TopPower(len) == Pow2(n)
    ensures len >= 1 ==> TopPower(len) <= len < 2 * TopPower(len)
  {
    if len <= 1 {
      n := 0;
    } else {
      n := TopPowerBounds(len / 2);
      n := n + 1;
    }
  }

  lemma OneZeroBit(i: nat)
    requires i < 32
    ensures Column(i, 1) == if i == 0 then POLY else Unit(i - 1)
  {
    assert Zeros(1)[1..] == [];
    assert Column(i, 1) == FeedBit(Unit(i), false);
    if i == 0 {
      assert Shr(Unit(0), 1) == ZERO;
      XorZeros(POLY);
    } else {
      assert Shr(Unit(i), 1) == Unit(i - 1);
    }
  }

  lemma UnitUp(n: nat)
    requires 1 <= n < 32
    ensures Shl(Unit(n - 1), 1) == Unit(n)
  {
  }

  method OneBitOperator(odd: array<Word>)
    requires odd.Length == 32
    modifies odd
    ensures IsOperator(odd[..], 1)
  {
    OneZeroBit(0);
    odd[0] := POLY;
    var row := Unit(0);
    for n := 1 to 32
      invariant row == Unit(n - 1)
      invariant forall i :: 0 <= i < n ==> odd[i] == Column(i, 1)
    {
      OneZeroBit(n);
      UnitUp(n);
      odd[n] := row;
      row := Shl(row, 1);
    }
  }

  /** Zero bits applied by the answer when odd applies k and `rest` is still to be shifted down. */
  ghost function AnswerBits(k: nat, rest: nat): nat
    decreases rest
  {
    if rest <= 1 then 2 * k else AnswerBits(2 * k, rest / 2)
  }

  lemma {:induction false} AnswerBitsPower(k: nat, rest: nat)
    ensures AnswerBits(k, rest) == 2 * k * TopPower(rest)
    decreases rest
  {
    if rest > 1 {
      AnswerBitsPower(2 * k, rest / 2);
      MulAssociates(2 * k, 2, TopPower(rest / 2));
    }
  }

  /** The do-while of `crc32c_zeros_op`: true if the answer ended up in even, false if in odd. */
  method SquareUp(even: array<Word>, odd: array<Word>, len: nat) returns (inEven: bool)
    requires even.Length == odd.Length == 32 && even != odd
    requires IsOperator(odd[..], 4)
    modifies even, odd
    ensures IsOperator(if inEven then even[..] else odd[..], 8 * TopPower(len))
  {
    hide Column, TopPower;
    AnswerBitsPower(4, len);
    var rest := len;
    ghost var k: nat := 4;
    while true
      invariant IsOperator(odd[..], k)
      invariant AnswerBits(k, rest) == 8 * TopPower(len)
      decreases rest
    {
      MatrixSquare(even, odd, k);
      if rest / 2 == 0 {
        return true;
      }
      rest := rest / 2;
      MatrixSquare(odd, even, 2 * k);
      if rest / 2 == 0 {
        return false;
      }
      rest, k := rest / 2, 4 * k;
    }
  }

  /** `crc32c_zeros_op`: the operator for the top power of two of len zero bytes. */
  method ZerosOp(even: array<Word>, len: nat)
    requires even.Length == 32
    modifies even
    ensures IsOperator(even[..], 8 * TopPower(len))
  {
    hide Column, TopPower;
    var odd := new Word[32];
    OneBitOperator(odd);
    MatrixSquare(even, odd, 1);
    MatrixSquare(odd, even, 2);
    var inEven := SquareUp(even, odd, len);
    if !inEven {
      for n := 0 to 32
        invariant IsOperator(odd[..], 8 * TopPower(len))
        invariant forall i :: 0 <= i < n ==> even[i] == odd[i]
      {
        even[n] := odd[n];
      }
      assert even[..] == odd[..];
    }
  }

  // ----- shifting by tables -----

  /** n << 8 * lane, as a register */
  function InLane(lane: nat, b: Octet): Word
    requires lane < 4
  {
    Zeros(8 * lane) + b + Zeros(24 - 8 * lane)
  }

  /** zeros[lane][n] is the operator for `bytes` zero bytes on byte n in that lane. */
  ghost predicate IsShiftTable(zeros: array2<Word>, bytes: nat)
    reads zeros
  {
    && zeros.Length0 == 4
    && zeros.Length1 == 256
    && forall lane, n :: 0 <= lane < 4 && 0 <= n < 256 ==>
         zeros[lane, n] == Feed(InLane(lane, OfNat(8, n)), Zeros(8 * bytes))
  }

  /** `crc32c_zeros` */
  method ZerosTable(zeros: array2<Word>, len: nat)
    requires zeros.Length0 == 4 && zeros.Length1 == 256
    modifies zeros
    ensures IsShiftTable(zeros, TopPower(len))
  {
    hide Feed, TopPower, InLane, OfNat, Column;
    var op := new Word[32];
    ZerosOp(op, len);
    ghost var bits := 8 * TopPower(len);
    for n := 0 to 256
      invariant IsOperator(op[..], bits)
      invariant forall lane, m :: 0 <= lane < 4 && 0 <= m < n ==>
                  zeros[lane, m] == Feed(InLane(lane, OfNat(8, m)), Zeros(bits))
    {
      var b := OfNat(8, n);
      var z0 := MatrixTimes(op, InLane(0, b), bits);
      var z1 := MatrixTimes(op, InLane(1, b), bits);
      var z2 := MatrixTimes(op, InLane(2, b), bits);
      var z3 := MatrixTimes(op, InLane(3, b), bits);
      zeros[0, n], zeros[1, n], zeros[2, n], zeros[3, n] := z0, z1, z2, z3;
    }
  }

  /** `crc32c_shift` */
  function Shift(zeros: array2<Word>, crc: Word): Word
    reads zeros
    requires zeros.Length0 == 4 && zeros.Length1 == 256
  {
    Xor(Xor(Xor(
      zeros[0, Index(crc[..8])],
      zeros[1, Index(crc[8..16])]),
      zeros[2, Index(crc[16..24])]),
      zeros[3, Index(crc[24..])])
  }

  lemma FeedXorZeros(a: Word, b: Word, k: nat)
    ensures Feed(Xor(a, b), Zeros(k)) == Xor(Feed(a, Zeros(k)), Feed(b, Zeros(k)))
  {
    XorZeros(Zeros(k));
    FeedLinear(a, b, Zeros(k), Zeros(k));
  }

  lemma ShiftEntry(zeros: array2<Word>, bytes: nat, lane: nat, b: Octet)
    requires IsShiftTable(zeros, bytes) && lane < 4
    ensures zeros[lane, Index(b)] == Feed(InLane(lane, b), Zeros(8 * bytes))
  {
  }

  /** A register is the xor of its bytes, each in its lane. */
  lemma LanesJoin(crc: Word)
    ensures crc == Xor(Xor(Xor(InLane(0, crc[..8]), InLane(1, crc[8..16])), InLane(2, crc[16..24])),
                       InLane(3, crc[24..]))
  {
    var w0, w1, w2, w3 :=
      InLane(0, crc[..8]), InLane(1, crc[8..16]), InLane(2, crc[16..24]), InLane(3, crc[24..]);
    forall i | 0 <= i < 32
      ensures crc[i] == Xor(Xor(Xor(w0, w1), w2), w3)[i]
    {
    }
  }

  /** The four lookups apply the zeros operator to the whole register. */
  lemma ShiftApplies(zeros: array2<Word>, bytes: nat, crc: Word)
    requires IsShiftTable(zeros, bytes)
    ensures Shift(zeros, crc) == Feed(crc, Zeros(8 * bytes))
  {
    LanesJoin(crc);
    hide Feed, Index, Xor, InLane, IsShiftTable;
    var k := 8 * bytes;
    var w0, w1, w2, w3 :=
      InLane(0, crc[..8]), InLane(1, crc[8..16]), InLane(2, crc[16..24]), InLane(3, crc[24..]);
    ShiftEntry(zeros, bytes, 0, crc[..8]);
    ShiftEntry(zeros, bytes, 1, crc[8..16]);
    ShiftEntry(zeros, bytes, 2, crc[16..24]);
    ShiftEntry(zeros, bytes, 3, crc[24..]);
    FeedXorZeros(Xor(Xor(w0, w1), w2), w3, k);
    FeedXorZeros(Xor(w0, w1), w2, k);
    FeedXorZeros(w0, w1, k);
  }

  // ----- the crc32 instruction -----

  const LONG := 8192
  const SHORT := 256

  /** `crc32b` on the low half of its register; the high half becomes zero. */
  function Crc32b(crc: Word, b: Octet): Word {
    Feed(crc, b)
  }

  /** `crc32q`, likewise. */
  function Crc32q(crc: Word, quad: seq<Octet>): Word
    requires |quad| == 8
  {
    Feed(crc, Flat(quad))
  }

  /** The register after n bytes of the buffer from `from` on. */
  ghost function Stream(crc: Word, buf: seq<Octet>, from: nat, n: nat): Word
    requires from + n <= |buf|
  {
    Feed(crc, Flat(buf[from..from + n]))
  }

  lemma StreamStart(crc: Word, buf: seq<Octet>, from: nat)
    requires from <= |buf|
    ensures Stream(crc, buf, from, 0) == crc
  {
  }

  lemma StreamQuad(crc: Word, buf: seq<Octet>, from: nat, n: nat)
    requires from + n + 8 <= |buf|
    ensures Crc32q(Stream(crc, buf, from, n), buf[from + n..from + n + 8]) == Stream(crc, buf, from, n + 8)
  {
    var a, b := buf[from..from + n], buf[from + n..from + n + 8];
    assert buf[from..from + (n + 8)] == a + b;
    FlatAppend(a, b);
    FeedAppend(crc, Flat(a), Flat(b));
  }

  /** Three streams of `block` bytes each, as one. */
  lemma StreamThree(crc: Word, buf: seq<Octet>, from: nat, block: nat)
    requires from + 3 * block <= |buf|
    ensures Stream(crc, buf, from, 3 * block)
         == Xor(Feed(Xor(Feed(Stream(crc, buf, from, block), Zeros(8 * block)),
                         Stream(ZERO, buf, from + block, block)), Zeros(8 * block)),
                Stream(ZERO, buf, from + 2 * block, block))
  {
    hide Feed, Flat;
    var a, b := buf[from..from + block], buf[from + block..from + block + block];
    var d := buf[from + 2 * block..from + 2 * block + block];
    assert buf[from..from + 3 * block] == a + b + d;
    FlatAppend(a + b, d);
    FlatAppend(a, b);
    ThreeStreams(crc, Flat(a), Flat(b), Flat(d));
  }

  /** Recombining the three registers continues the single-stream CRC over all three blocks. */
  lemma Recombine(zeros: array2<Word>, crc: Word, buf: seq<Octet>, from: nat, block: nat)
    requires from + 3 * block <= |buf|
    requires IsShiftTable(zeros, block)
    ensures var x := Xor(Shift(zeros, Stream(crc, buf, from, block)), Stream(ZERO, buf, from + block, block));
            Xor(Shift(zeros, x), Stream(ZERO, buf, from + 2 * block, block))
            == Stream(crc, buf, from, 3 * block)
  {
    var x := Xor(Shift(zeros, Stream(crc, buf, from, block)), Stream(ZERO, buf, from + block, block));
    ShiftApplies(zeros, block, Stream(crc, buf, from, block));
    ShiftApplies(zeros, block, x);
    StreamThree(crc, buf, from, block);
  }

  /** One LONG or SHORT round: three independent streams of `block` bytes each. */
  method ThreeWay(zeros: array2<Word>, crc: Word, buf: seq<Octet>, from: nat, block: nat) returns (r: Word)
    requires block > 0 && block % 8 == 0 && from + 3 * block <= |buf|
    requires IsShiftTable(zeros, block)
    ensures r == Stream(crc, buf, from, 3 * block)
  {
    hide Stream, Crc32q, Shift;
    var crc0, crc1, crc2 := crc, ZERO, ZERO;
    var from1, from2 := from + block, from + 2 * block;
    StreamStart(crc, buf, from);
    StreamStart(ZERO, buf, from1);
    StreamStart(ZERO, buf, from2);
    var n := 0;
    while n < block
      invariant 0 <= n <= block && n % 8 == 0
      invariant crc0 == Stream(crc, buf, from, n)
      invariant crc1 == Stream(ZERO, buf, from1, n)
      invariant crc2 == Stream(ZERO, buf, from2, n)
    {
      StreamQuad(crc, buf, from, n);
      StreamQuad(ZERO, buf, from1, n);
      StreamQuad(ZERO, buf, from2, n);
      crc0 := Crc32q(crc0, buf[from + n..from + n + 8]);
      crc1 := Crc32q(crc1, buf[from1 + n..from1 + n + 8]);
      crc2 := Crc32q(crc2, buf[from2 + n..from2 + n + 8]);
      n := n + 8;
    }
    Recombine(zeros, crc, buf, from, block);
    crc0 := Xor(Shift(zeros, crc0), crc1);
    r := Xor(Shift(zeros, crc0), crc2);
  }

  /** `crc32c_init_hw` */
  method InitTables(long: array2<Word>, short: array2<Word>)
    requires long.Length0 == short.Length0 == 4 && long.Length1 == short.Length1 == 256 && long != short
    modifies long, short
    ensures IsShiftTable(long, LONG) && IsShiftTable(short, SHORT)
  {
    hide IsShiftTable;
    assert TopPower(LONG) == LONG && TopPower(SHORT) == SHORT;
    ZerosTable(long, LONG);
    ZerosTable(short, SHORT);
  }

  /** `crc32c_hw` on a buffer that starts at address `addr`. */
  method CrcHardware(long: array2<Word>, short: array2<Word>, crci: Word, buf: seq<Octet>, addr: nat)
    returns (r: Word)
    requires IsShiftTable(long, LONG) && IsShiftTable(short, SHORT)
    ensures r == Crc(crci, buf)
  {
    hide Finish, Stream, Crc32b, Crc32q, Crc, IsShiftTable, Xor;
    FinishWhole(crci, buf);
    var crc: Word := Xor(crci, ONES);
    ghost var result := Finish(crc, buf, 0);
    var next := 0;
    while next < |buf| && (addr + next) % 8 != 0
      invariant 0 <= next <= |buf|
      invariant Finish(crc, buf, next) == result
    {
      Crc32bFinish(crc, buf, next);
      crc := Crc32b(crc, buf[next]);
      next := next + 1;
    }
    while |buf| - next >= LONG * 3
      invariant 0 <= next <= |buf|
      invariant Finish(crc, buf, next) == result
    {
      StreamFinish(crc, buf, next, 3 * LONG);
      crc := ThreeWay(long, crc, buf, next, LONG);
      next := next + 3 * LONG;
    }
    while |buf| - next >= SHORT * 3
      invariant 0 <= next <= |buf|
      invariant Finish(crc, buf, next) == result
    {
      StreamFinish(crc, buf, next, 3 * SHORT);
      crc := ThreeWay(short, crc, buf, next, SHORT);
      next := next + 3 * SHORT;
    }
    var end := next + (|buf| - next - (|buf| - next) % 8);
    while next < end
      invariant 0 <= next <= end <= |buf| && (end - next) % 8 == 0
      invariant Finish(crc, buf, next) == result
    {
      Crc32qFinish(crc, buf, next);
      crc := Crc32q(crc, buf[next..next + 8]);
      next := next + 8;
    }
    while next < |buf|
      invariant 0 <= next <= |buf|
      invariant Finish(crc, buf, next) == result
    {
      Crc32bFinish(crc, buf, next);
      crc := Crc32b(crc, buf[next]);
      next := next + 1;
    }
    FinishEnd(crc, buf);
    r := Xor(crc, ONES);
  }

  lemma Crc32qFinish(crc: Word, buf: seq<Octet>, next: nat)
    requires next + 8 <= |buf|
    ensures Finish(Crc32q(crc, buf[next..next + 8]), buf, next + 8) == Finish(crc, buf, next)
  {
    FinishAfter(crc, buf, next, 8);
  }

  lemma StreamFinish(crc: Word, buf: seq<Octet>, next: nat, n: nat)
    requires next + n <= |buf|
    ensures Finish(Stream(crc, buf, next, n), buf, next + n) == Finish(crc, buf, next)
  {
    FinishAfter(crc, buf, next, n);
  }

  lemma Crc32bFinish(crc: Word, buf: seq<Octet>, next: nat)
    requires next < |buf|
    ensures Finish(Crc32b(crc, buf[next]), buf, next + 1) == Finish(crc, buf, next)
  {
    assert Flat(buf[next..next + 1]) == buf[next];
    FinishAfter(crc, buf, next, 1);
  }
}
