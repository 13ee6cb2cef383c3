/** Unsigned machine words as their bits, least significant bit first. */
module Words {
  import opened Arith

  type Bits = seq<bool>
  type Octet = b: Bits | |b| == 8 witness Zeros(8)
  type Word = w: Bits | |w| == 32 witness Zeros(32)

  function Zeros(n: nat): (z: Bits)
    ensures |z| == n
  {
    seq(n, (_: nat) => false)
  }

  function Ones(n: nat): (z: Bits)
    ensures |z| == n
  {
    seq(n, (_: nat) => true)
  }

  function Xor(a: Bits, b: Bits): (x: Bits)
    requires |a| == |b|
    ensures |x| == |a|
    ensures forall i :: 0 <= i < |a| ==> x[i] == (a[i] != b[i])
  {
    seq(|a|, i requires 0 <= i < |a| => a[i] != b[i])
  }

  /** x >> n */
  function Shr(x: Bits, n: nat): (y: Bits)
    requires n <= |x|
    ensures |y| == |x|
  {
    x[n..] + Zeros(n)
  }

  /** x << n, in the width of x */
  function Shl(x: Bits, n: nat): (y: Bits)
    requires n <= |x|
    ensures |y| == |x|
  {
    Zeros(n) + x[..|x| - n]
  }

  /** The number a word stands for. */
  function Value(x: Bits): nat {
    if x == [] then 0 else (if x[0] then 1 else 0) + 2 * Value(x[1..])
  }

  /** The low `width` bits of v. */
  function OfNat(width: nat, v: nat): (x: Bits)
    ensures |x| == width
  {
    if width == 0 then [] else [v % 2 == 1] + OfNat(width - 1, v / 2)
  }

  lemma {:induction false} OfNatValue(x: Bits)
    ensures Value(x) < Pow2(|x|)
    ensures OfNat(|x|, Value(x)) == x
  {
    if x != [] {
      OfNatValue(x[1..]);
      assert Value(x) / 2 == Value(x[1..]);
      assert x == [x[0]] + x[1..];
    }
  }

  lemma {:induction false} OfNatWiden(n: nat, m: nat, v: nat)
    requires v < Pow2(n)
    ensures OfNat(n + m, v) == OfNat(n, v) + Zeros(m)
  {
    if n == 0 {
      if m != 0 {
        OfNatWiden(0, m - 1, 0);
        assert Zeros(m) == [false] + Zeros(m - 1);
      }
    } else {
      OfNatWiden(n - 1, m, v / 2);
    }
  }

  lemma ByteRange()
    ensures Pow2(8) == 256
  {
    assert Pow2(4) == 16;
    assert Pow2(6) == 64;
  }

  lemma XorZeros(a: Bits)
    ensures Xor(a, Zeros(|a|)) == a
    ensures Xor(Zeros(|a|), a) == a
    ensures Xor(a, a) == Zeros(|a|)
  {
  }

  lemma XorAssoc(a: Bits, b: Bits, c: Bits)
    requires |a| == |b| == |c|
    ensures Xor(Xor(a, b), c) == Xor(a, Xor(b, c))
  {
  }

  lemma XorCancel(a: Bits, b: Bits)
    requires |a| == |b|
    ensures Xor(Xor(a, b), b) == a
  {
  }
}
