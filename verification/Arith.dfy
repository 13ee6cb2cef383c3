/** Powers of two, quotients and remainders. */
module Arith {
  function Pow2(n: nat): (r: nat)
    ensures r > 0
  {
    if n == 0 then 1 else 2 * Pow2(n - 1)
  }

  lemma MulAssociates(a: int, b: int, c: int)
    ensures (a * b) * c == a * (b * c)
  {
  }

  lemma MulDistributes(a: int, b: int, c: int)
    ensures (a + b) * c == a * c + b * c
  {
  }

  lemma DivMod(x: int, d: nat)
    requires d > 0
    ensures x == (x / d) * d + x % d && 0 <= x % d < d
  {
  }

  /** A product above or below 0 is at least d away from it. */
  lemma MulApart(e: int, d: nat)
    ensures e > 0 ==> e * d >= d
    ensures e < 0 ==> e * d <= -(d as int)
  {
    if e > 0 {
      MulDistributes(e - 1, 1, d);
    } else if e < 0 {
      MulDistributes(e + 1, -1, d);
    }
  }

  lemma QuotientUnique(x: int, d: nat, q: int, r: nat)
    requires r < d && x == q * d + r
    ensures x / d == q && x % d == r
  {
    DivMod(x, d);
    MulDistributes(q - x / d, x / d, d);
    MulApart(q - x / d, d);
  }

  lemma ModOfSum(x: nat, a: nat, k: nat, r: nat)
    requires a > 0 && x == k * a + r
    ensures x % a == r % a
  {
    DivMod(r, a);
    MulDistributes(k, r / a, a);
    QuotientUnique(x, a, k + r / a, r % a);
  }

  lemma ModOfMultiple(x: nat, a: nat, b: nat, n: nat)
    requires a > 0 && n > 0 && n == b * a
    ensures (x % n) % a == x % a
  {
    var q := x / n;
    DivMod(x, n);
    assert q * n == q * (b * a);
    MulAssociates(q, b, a);
    MulApart(q, b);
    ModOfSum(x, a, q * b, x % n);
  }

  /** A remainder by a multiple of a has the same remainder by a. */
  lemma ModOfMod(x: nat, a: nat, b: nat)
    requires a > 0 && b > 0
    ensures b * a > 0 && (x % (b * a)) % a == x % a
  {
    MulApart(b, a);
    ModOfMultiple(x, a, b, b * a);
  }
}
