/** CRC-32C as the remainder of a division of polynomials over GF(2), and a published value of it. */
module CrcPolynomial {
  import opened Words
  import opened Crc32c

  /** A polynomial is the set of its exponents. */
  type Poly = set<nat>

  /** The CRC-32C generator, as section 12.1 of RFC 3720 gives it. */
  const G: Poly := {32, 28, 27, 26, 25, 23, 22, 20, 19, 18, 14, 13, 11, 10, 9, 8, 6, 0}

  function Plus(p: Poly, q: Poly): (r: Poly)
    ensures forall e :: e in r <==> (e in p) != (e in q)
  {
    (p - q) + (q - p)
  }

  /** p times the n-th power of x */
  function Shifted(p: Poly, n: nat): (r: Poly)
    ensures forall e :: e in r <==> e >= n && e - n in p
  {
    set e | e in p :: e + n
  }

  /** The polynomial with these coefficients, that of the highest power first. */
  function Of(bits: Bits): (r: Poly)
    ensures forall e :: e in r <==> 0 <= e < |bits| && bits[|bits| - 1 - e]
  {
    set i | 0 <= i < |bits| && bits[i] :: |bits| - 1 - i
  }

  /** The product of a polynomial, given by its coefficients, with g. */
  function Product(q: Bits, g: Poly): Poly {
    if q == [] then {}
    else
      var n := |q| - 1;
      Plus(Shifted(Product(q[..n], g), 1), Once(q[n], g))
  }

  /** r is what a division of p by the generator leaves. */
  ghost predicate IsRemainder(p: Poly, r: Poly) {
    (forall e :: e in r ==> e < 32) && exists q: Bits :: p == Plus(Product(q, G), r)
  }

  // ----- one division, bit by bit -----

  /** A register with the coefficients of g below its 32nd power, that of the highest power first. */
  ghost predicate Reversed(poly: Word, g: Poly) {
    && 32 in g && (forall e :: e in g ==> e <= 32)
    && forall i :: 0 <= i < 32 ==> (poly[i] <==> 31 - i in g)
  }

  lemma PolyIs()
    ensures Reversed(POLY, G)
  {
  }

  function Power(bit: bool, e: nat): Poly {
    if bit then {e} else {}
  }

  function Once(times: bool, g: Poly): Poly {
    if times then g else {}
  }

  /** Feeding a bit multiplies by x, adds the bit, and takes the generator off if that gave a 32nd power. */
  lemma BitDivides(c: Word, bit: bool)
    ensures Of(FeedBit(c, bit)) == Plus(Plus(Shifted(Of(c), 1), Power(bit, 32)), Once(c[0] != bit, G))
  {
    hide Of, Plus, Shifted, Xor, Shr;
    PolyIs();
    TakenOff(c, bit, POLY, G);
  }

  lemma TakenOff(c: Word, bit: bool, poly: Word, g: Poly)
    requires Reversed(poly, g)
    ensures Of(if c[0] != bit then Xor(Shr(c, 1), poly) else Shr(c, 1))
         == Plus(Plus(Shifted(Of(c), 1), Power(bit, 32)), Once(c[0] != bit, g))
  {
    hide Of, Plus, Shifted, Xor;
    var r := if c[0] != bit then Xor(Shr(c, 1), poly) else Shr(c, 1);
    forall e: nat
      ensures e in Of(r) <==> e in Plus(Plus(Shifted(Of(c), 1), Power(bit, 32)), Once(c[0] != bit, g))
    {
      if 0 < e < 32 {
        assert Shr(c, 1)[31 - e] == c[32 - e];
        assert poly[31 - e] <==> 31 - (31 - e) in g;
      } else if e == 0 {
        assert !Shr(c, 1)[31];
        assert poly[31] <==> 31 - 31 in g;
      }
    }
  }

  /** The quotient the register goes through. */
  function Quotient(c: Word, m: Bits): (q: Bits)
    ensures |q| == |m|
  {
    if m == [] then []
    else
      var n := |m| - 1;
      Quotient(c, m[..n]) + [Feed(c, m[..n])[0] != m[n]]
  }

  /** The start value and the message after it, with 32 zero coefficients at the end. */
  function Dividend(c: Word, m: Bits): Poly {
    Plus(Shifted(Of(c), |m|), Shifted(Of(m), 32))
  }

  lemma DividendStep(c: Word, m: Bits, bit: bool)
    ensures Dividend(c, m + [bit]) == Plus(Shifted(Dividend(c, m), 1), Power(bit, 32))
  {
    hide Of, Plus, Shifted;
    var m' := m + [bit];
    forall e: nat
      ensures e in Of(m') <==> if e == 0 then bit else e - 1 in Of(m)
    {
      if 0 < e <= |m| {
        assert m'[|m'| - 1 - e] == m[|m| - 1 - (e - 1)];
      }
    }
    assert Of(m') == Plus(Shifted(Of(m), 1), Power(bit, 0));
  }

  lemma ShiftedPlus(p: Poly, q: Poly, n: nat)
    ensures Shifted(Plus(p, q), n) == Plus(Shifted(p, n), Shifted(q, n))
  {
  }

  /** The register is what is left of the dividend after the multiples of the generator taken off so far. */
  lemma {:induction false} FeedDivides(c: Word, m: Bits)
    ensures Dividend(c, m) == Plus(Product(Quotient(c, m), G), Of(Feed(c, m)))
    decreases |m|
  {
    hide Plus, Shifted, Of, FeedBit;
    if m == [] {
      assert Shifted(Of(c), 0) == Of(c) && Shifted(Of([]), 32) == {} && Of([]) == {};
    } else {
      var n := |m| - 1;
      var m0, bit := m[..n], m[n];
      assert m == m0 + [bit];
      FeedDivides(c, m0);
      var r, q0 := Feed(c, m0), Quotient(c, m0);
      FeedAppend(c, m0, [bit]);
      assert Feed(r, [bit]) == FeedBit(r, bit) by {
        assert [bit][1..] == [];
      }
      DividendStep(c, m0, bit);
      BitDivides(r, bit);
      ShiftedPlus(Product(q0, G), Of(r), 1);
      var t := r[0] != bit;
      var q := Quotient(c, m);
      assert q == q0 + [t] && q[..n] == q0 && q[n] == t;
      Cancels(Shifted(Product(q0, G), 1), Shifted(Of(r), 1), Power(bit, 32), Once(t, G));
    }
  }

  lemma Cancels(a: Poly, b: Poly, d: Poly, g: Poly)
    ensures Plus(Plus(a, b), d) == Plus(Plus(a, g), Plus(Plus(b, d), g))
  {
  }

  // ----- the remainder is the only one -----

  lemma {:induction false} ProductSum(p: Bits, q: Bits, g: Poly)
    requires |p| == |q|
    ensures Product(Xor(p, q), g) == Plus(Product(p, g), Product(q, g))
    decreases |p|
  {
    hide Plus, Shifted, Xor;
    if p != [] {
      var n := |p| - 1;
      assert Xor(p, q)[..n] == Xor(p[..n], q[..n]);
      ProductSum(p[..n], q[..n], g);
      ShiftedPlus(Product(p[..n], g), Product(q[..n], g), 1);
      Sorts(Shifted(Product(p[..n], g), 1), Shifted(Product(q[..n], g), 1), Once(p[n], g), Once(q[n], g));
      assert Once(p[n] != q[n], g) == Plus(Once(p[n], g), Once(q[n], g));
    }
  }

  lemma Sorts(a: Poly, b: Poly, g: Poly, h: Poly)
    ensures Plus(Plus(a, b), Plus(g, h)) == Plus(Plus(a, g), Plus(b, h))
  {
  }

  lemma {:induction false} ProductPad(n: nat, q: Bits, g: Poly)
    ensures Product(Zeros(n) + q, g) == Product(q, g)
    decreases n + |q|
  {
    hide Plus, Shifted;
    var z := Zeros(n) + q;
    if q != [] {
      assert z[..|z| - 1] == Zeros(n) + q[..|q| - 1];
      ProductPad(n, q[..|q| - 1], g);
    } else if n > 0 {
      assert z[..|z| - 1] == Zeros(n - 1) + [];
      ProductPad(n - 1, [], g);
      assert Shifted({}, 1) == {} && Plus({}, {}) == {};
    }
  }

  /** It has this power and no higher one. */
  ghost predicate Degree(p: Poly, top: nat) {
    top in p && forall e :: e in p ==> e <= top
  }

  /** A product with a polynomial of degree 32 is nothing, or has at least that degree. */
  lemma {:induction false} ProductHigh(q: Bits, g: Poly) returns (top: nat)
    requires Degree(g, 32)
    ensures Product(q, g) == {} || (top >= 32 && Degree(Product(q, g), top))
    decreases |q|
  {
    hide Plus, Shifted, Degree, Product, Once;
    top := 32;
    if q == [] {
      ProductNone(g);
    } else {
      var n := |q| - 1;
      var p, h := Product(q[..n], g), Once(q[n], g);
      ProductLast(q, g);
      top := ProductHigh(q[..n], g);
      if p == {} {
        Nothing(h);
        top := 32;
      } else {
        Below(g, h);
        Raised(p, top, h);
        top := top + 1;
      }
    }
  }

  lemma ProductNone(g: Poly)
    ensures Product([], g) == {}
  {
  }

  lemma ProductLast(q: Bits, g: Poly)
    requires q != []
    ensures var n := |q| - 1; Product(q, g) == Plus(Shifted(Product(q[..n], g), 1), Once(q[n], g))
    ensures Once(q[|q| - 1], g) in {g, {}}
  {
  }

  lemma Nothing(h: Poly)
    ensures Plus(Shifted({}, 1), h) == h
  {
  }

  lemma Below(g: Poly, h: Poly)
    requires Degree(g, 32) && (h == g || h == {})
    ensures forall e :: e in h ==> e <= 32
  {
  }

  lemma Raised(p: Poly, top: nat, h: Poly)
    requires Degree(p, top) && top >= 32 && forall e :: e in h ==> e <= 32
    ensures Degree(Plus(Shifted(p, 1), h), top + 1)
  {
  }

  /** A polynomial has one remainder. */
  lemma RemainderUnique(p: Poly, r: Poly, r': Poly)
    requires IsRemainder(p, r) && IsRemainder(p, r')
    ensures r == r'
  {
    var q: Bits :| p == Plus(Product(q, G), r);
    var q': Bits :| p == Plus(Product(q', G), r');
    hide Plus, Product;
    PolyIs();
    ProductPad(|q'|, q, G);
    ProductPad(|q|, q', G);
    var u, u' := Zeros(|q'|) + q, Zeros(|q|) + q';
    ProductSum(u, u', G);
    var _ := ProductHigh(Xor(u, u'), G);
    Difference(p, Product(q, G), r, Product(q', G), r');
  }

  /** Two polynomials of degree below 32 whose difference is nothing or of degree 32 or more are the same. */
  lemma Difference(p: Poly, a: Poly, r: Poly, a': Poly, r': Poly)
    requires p == Plus(a, r) && p == Plus(a', r') && forall e :: e in r || e in r' ==> e < 32
    requires Plus(a, a') == {} || exists e :: e in Plus(a, a') && e >= 32
    ensures r == r'
  {
    forall e: nat
      ensures e in Plus(a, a') <==> (e in r) != (e in r')
    {
      assert e in p <==> (e in a) != (e in r);
      assert e in p <==> (e in a') != (e in r');
    }
  }

  /** What the CRC is: the inverted start value and the message, divided by the generator; the remainder, inverted. */
  lemma CrcIsRemainder(crc: Word, message: seq<Octet>)
    ensures var m := Flat(message);
            IsRemainder(Plus(Shifted(Of(Xor(crc, ONES)), |m|), Shifted(Of(m), 32)), Of(Xor(Crc(crc, message), ONES)))
  {
    var m, start := Flat(message), Xor(crc, ONES);
    FeedDivides(start, m);
    XorCancel(Feed(start, m), ONES);
  }
}
