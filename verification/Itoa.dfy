/** The decimal printer: two digits at a time from a table, through a fall-through switch. */
module Itoa {
  import opened Prelude
  import opened Arith

  const U32 := 0x1_0000_0000
  const U64 := 0x1_0000_0000_0000_0000

  function Pow10(n: nat): (r: nat)
    ensures r > 0
  {
    if n == 0 then 1 else 10 * Pow10(n - 1)
  }

  function Quot(u: nat, k: nat): nat
    requires k > 0
  {
    u / k
  }

  function Rem(u: nat, k: nat): nat
    requires k > 0
  {
    u % k
  }

  function Digit(d: nat): char
    requires d < 10
  {
    ('0' as int + d) as char
  }

  // ----- what is to be printed -----

  /** The decimal digits of a number. */
  function Decimal(u: nat): (r: string)
    ensures r != []
  {
    if u < 10 then [Digit(u)] else Decimal(u / 10) + [Digit(u % 10)]
  }

  predicate IsDigit(c: char) {
    '0' <= c <= '9'
  }

  /** The number a digit string reads as. */
  function Parse(s: string): nat {
    if s == [] || !IsDigit(s[|s| - 1]) then 0 else 10 * Parse(s[..|s| - 1]) + (s[|s| - 1] as int - '0' as int)
  }

  /** Printed digits read back as the number, and do not start with a zero unless they are "0". */
  lemma {:induction false} DecimalRoundTrip(u: nat)
    ensures forall i :: 0 <= i < |Decimal(u)| ==> IsDigit(Decimal(u)[i])
    ensures Parse(Decimal(u)) == u
    ensures Decimal(u)[0] == '0' ==> u == 0 && Decimal(u) == "0"
  {
    if u >= 10 {
      DecimalRoundTrip(u / 10);
      assert Decimal(u)[..|Decimal(u)| - 1] == Decimal(u / 10);
    } else {
      assert Parse([]) == 0 && Decimal(u)[..0] == [];
    }
  }

  /** The last n digits of a number, leading zeros included. */
  function Padded(u: nat, n: nat): (r: string)
    ensures |r| == n
  {
    if n == 0 then [] else Padded(u / 10, n - 1) + [Digit(u % 10)]
  }

  lemma DivDiv(u: nat, k: nat)
    requires k > 0
    ensures (u / 10) / k == u / (10 * k)
    ensures (u / 10) % k == u % (10 * k) / 10 && u % 10 == u % (10 * k) % 10
  {
    var q, r := u / (10 * k), u % (10 * k);
    assert u == q * (10 * k) + r;
    assert u == (q * k + r / 10) * 10 + r % 10 by {
      assert q * (10 * k) == (q * k) * 10;
      assert (q * k + r / 10) * 10 == (q * k) * 10 + (r / 10) * 10;
    }
    QuotientUnique(u, 10, q * k + r / 10, r % 10);
    QuotientUnique(u / 10, k, q, r / 10);
  }

  /** A padded number splits into its high and low digits. */
  lemma {:induction false} PaddedSplit(u: nat, a: nat, b: nat)
    ensures Padded(u, a + b) == Padded(Quot(u, Pow10(b)), a) + Padded(Rem(u, Pow10(b)), b)
  {
    if b > 0 {
      var k := Pow10(b - 1);
      PaddedSplit(u / 10, a, b - 1);
      DivDiv(u, k);
      assert Padded(u, a + b) == Padded(u / 10, a + (b - 1)) + [Digit(u % 10)];
    } else {
      assert u / 1 == u;
    }
  }

  /** A number with exactly n digits is printed as its n digits. */
  lemma {:induction false} PaddedDecimal(u: nat, n: nat)
    requires n > 0 && u < Pow10(n) && (n > 1 ==> u >= Pow10(n - 1))
    ensures Padded(u, n) == Decimal(u)
  {
    if n > 1 {
      assert Pow10(n) == 10 * Pow10(n - 1) && Pow10(n - 1) == 10 * Pow10(n - 2);
      PaddedDecimal(u / 10, n - 1);
    } else {
      assert Pow10(1) == 10;
      assert Padded(u, 1) == Padded(u / 10, 0) + [Digit(u % 10)];
    }
  }

  /** A large number is its upper digits followed by n padded lower ones. */
  lemma {:induction false} DecimalSplit(u: nat, n: nat)
    requires u >= Pow10(n)
    ensures Decimal(u) == Decimal(Quot(u, Pow10(n))) + Padded(Rem(u, Pow10(n)), n)
  {
    if n > 0 {
      var k := Pow10(n - 1);
      DivDiv(u, k);
      DecimalSplit(u / 10, n - 1);
      assert Decimal(u) == Decimal(u / 10) + [Digit(u % 10)];
    } else {
      assert u / 1 == u;
    }
  }

  lemma Powers()
    ensures Pow10(0) == 1 && Pow10(1) == 10 && Pow10(2) == 100 && Pow10(3) == 1000 && Pow10(4) == 10000
    ensures Pow10(5) == 100000 && Pow10(6) == 1000000 && Pow10(7) == 10000000 && Pow10(8) == 100000000
    ensures Pow10(9) == 1000000000 && Pow10(10) == 10000000000
  {
  }

  // ----- the code -----

  /** lut: the two digits of each number below a hundred. */
  function Lut(d: nat): (r: string)
    requires d < 100
    ensures r == Padded(d, 2)
  {
    assert Padded(d, 2) == Padded(d / 10, 1) + [Digit(d % 10)];
    assert Padded(d / 10, 1) == Padded(d / 10 / 10, 0) + [Digit(d / 10 % 10)];
    [Digit(d / 10), Digit(d % 10)]
  }

  /** From q on the buffer is unchanged. */
  twostate predicate Kept(buf: array<char>, q: nat)
    reads buf
  {
    forall i :: q <= i < buf.Length ==> buf[i] == old(buf[i])
  }

  /** The buffer up to q is what it was up to p, followed by text; from q on it is unchanged. */
  twostate predicate Wrote(buf: array<char>, p: nat, text: string, q: nat)
    requires p <= q <= buf.Length
    reads buf
  {
    buf[..q] == old(buf[..p]) + text && Kept(buf, q)
  }

  method Out2(d: nat, buf: array<char>, p: nat) returns (q: nat)
    requires d < 100 && p + 2 <= buf.Length
    modifies buf
    ensures q == p + 2 && Wrote(buf, p, Padded(d, 2), q)
  {
    var pair := Lut(d);
    buf[p], buf[p + 1] := pair[0], pair[1];
    q := p + 2;
  }

  method Out1(c: char, buf: array<char>, p: nat) returns (q: nat)
    requires p + 1 <= buf.Length
    modifies buf
    ensures q == p + 1 && Wrote(buf, p, [c], q)
  {
    buf[p] := c;
    q := p + 1;
  }

  lemma PairSplit(u: nat, b: nat, k: nat)
    requires k == Pow10(b)
    ensures Padded(u, b + 2) == Padded(Quot(u, k), 2) + Padded(Rem(u, k), b)
  {
    PaddedSplit(u, 2, b);
  }

  /** What the switch prints: all n digits of u, or those after the first when n is odd and the first is out. */
  function Rest(u: nat, n: nat): nat {
    if n % 2 == 0 then u else Rem(u, Pow10(n - 1))
  }

  lemma QuotRem(u: nat, k: nat)
    requires k > 0
    ensures u == Quot(u, k) * k + Rem(u, k) && Rem(u, k) < k
  {
  }

  /** The digits still to print when the switch, entered at case n, stands before case c, c even. */
  function Owed(u: nat, n: nat, c: nat): string {
    if n >= c then Padded(u, c) else Padded(Rest(u, n), n - n % 2)
  }

  /** What u and d are then. */
  predicate Before(u: nat, d: nat, n: nat, c: nat)
    requires n > 0
  {
    if n >= c then u < Pow10(c)
    else if n % 2 == 0 then u < Pow10(n)
    else d == Quot(u, Pow10(n - 1))
  }

  lemma RungPrints(u: nat, n: nat, c: nat, k: nat)
    requires n > 0 && c >= 2 && c % 2 == 0 && k == Pow10(c - 2)
    ensures n >= c ==> Owed(u, n, c) == Padded(Quot(u, k), 2) + Owed(Rem(u, k), n, c - 2)
    ensures n == c - 1 ==> Owed(u, n, c) == Owed(Rem(u, k), n, c - 2)
    ensures n < c - 1 ==> Owed(u, n, c) == Owed(u, n, c - 2)
  {
    hide Padded, Pow10, Quot, Rem;
    if n >= c {
      PairSplit(u, c - 2, k);
    } else if n == c - 1 {
      assert n % 2 == 1 && n - 1 == c - 2;
    }
  }

  lemma RungBefore(u: nat, d: nat, n: nat, c: nat, k: nat)
    requires n > 0 && c >= 2 && c % 2 == 0 && k == Pow10(c - 2) && Pow10(c) == k * 100 && Before(u, d, n, c)
    ensures n >= c ==> Quot(u, k) < 100 && Before(Rem(u, k), Quot(u, k), n, c - 2)
    ensures n == c - 1 ==> d == Quot(u, k) && Before(Rem(u, k), d, n, c - 2)
    ensures n < c - 1 ==> Before(u, d, n, c - 2)
    ensures u - Quot(u, k) * k == Rem(u, k)
  {
    QuotRem(u, k);
    if n >= c {
      QuotBelow(u, k, 100);
    }
    hide Quot, Rem, Pow10;
  }

  /** Cases c and c - 1 of the switch, c even: the next two digits, and their removal from u. */
  method Rung(n: nat, c: nat, k: nat, u0: nat, d0: nat, buf: array<char>, p0: nat, ghost text: string)
    returns (u: nat, d: nat, p: nat)
    requires n > 0 && c >= 2 && c % 2 == 0 && k == Pow10(c - 2) && Pow10(c) == k * 100
    requires |text| <= buf.Length && p0 <= buf.Length
    requires Before(u0, d0, n, c) && buf[..p0] + Owed(u0, n, c) == text
    modifies buf
    ensures p0 <= p <= buf.Length && Kept(buf, p)
    ensures Before(u, d, n, c - 2) && buf[..p] + Owed(u, n, c - 2) == text
  {
    hide Quot, Rem, Owed, Pow10, Before, Padded;
    RungPrints(u0, n, c, k);
    RungBefore(u0, d0, n, c, k);
    u, d, p := u0, d0, p0;
    if n >= c {
      d := Quot(u, k);
      p := Out2(d, buf, p);
    }
    if n >= c - 1 {
      u := u - d * k;
    }
  }

  /** `itoa`: the switch, entered at case n. */
  method Switch(u0: nat, buf: array<char>, p0: nat, d0: nat, n: nat) returns (p: nat)
    requires 1 <= n <= 10 && p0 + n < buf.Length + n % 2 && Before(u0, d0, n, 10)
    modifies buf
    ensures p == p0 + n - n % 2 < buf.Length
    ensures buf[..p] == old(buf[..p0]) + Padded(Rest(u0, n), n - n % 2)
    ensures buf[p] == 0 as char && Kept(buf, p + 1)
  {
    Powers();
    SwitchOwes(u0, n);
    hide Pow10, Padded, Owed, Before, Rest;
    ghost var text := buf[..p0] + Owed(u0, n, 10);
    var u, d;
    u, d, p := Rung(n, 10, 100000000, u0, d0, buf, p0, text);
    u, d, p := Rung(n, 8, 1000000, u, d, buf, p, text);
    u, d, p := Rung(n, 6, 10000, u, d, buf, p, text);
    u, d, p := Rung(n, 4, 100, u, d, buf, p, text);
    LastOwed(u, d, n);
    if n >= 2 {
      d := u / 1;
      p := Out2(d, buf, p);
    }
    buf[p] := 0 as char;
  }

  lemma SwitchOwes(u: nat, n: nat)
    requires 1 <= n <= 10
    ensures Owed(u, n, 10) == Padded(Rest(u, n), n - n % 2)
  {
    hide Padded;
  }

  lemma LastOwed(u: nat, d: nat, n: nat)
    requires n > 0 && Before(u, d, n, 2)
    ensures if n >= 2 then u < 100 && Owed(u, n, 2) == Padded(u, 2) else Owed(u, n, 2) == ""
  {
    Powers();
    hide Pow10;
  }

  /** `digits`: if u has an odd number of digits, the first is printed here. */
  method Digits(u: nat, k: nat, d0: nat, buf: array<char>, p0: nat, n0: nat) returns (d: nat, p: nat, n: nat)
    requires k > 0 && (u < k * 10 ==> p0 + 1 <= buf.Length) && n0 > 0
    modifies buf
    ensures n == if u < k * 10 then n0 - 1 else n0
    ensures u < k * 10 ==> d == Quot(u, k) < 10 && p == p0 + 1 && Wrote(buf, p0, [Digit(d)], p)
    ensures u >= k * 10 ==> d == d0 && p == p0 && buf[..] == old(buf[..])
  {
    d, p, n := d0, p0, n0;
    if u < k * 10 {
      QuotBelow(u, k, 10);
      d := Quot(u, k);
      p := Out1(Digit(d), buf, p);
      n := n - 1;
    }
  }

  lemma QuotBelow(u: nat, k: nat, n: nat)
    requires k > 0 && u < k * n
    ensures Quot(u, k) < n
  {
    QuotRem(u, k);
    hide Quot, Rem;
    var q := Quot(u, k);
    assert q >= n ==> q * k >= n * k;
  }

  /** How many digits a number below 10^10 has. */
  function Length(u: nat): nat {
    if u < 10 then 1 else if u < 100 then 2 else if u < 1000 then 3 else if u < 10000 then 4
    else if u < 100000 then 5 else if u < 1000000 then 6 else if u < 10000000 then 7
    else if u < 100000000 then 8 else if u < 1000000000 then 9 else 10
  }

  lemma LengthDecimal(u: nat)
    requires u < 10000000000
    ensures Padded(u, Length(u)) == Decimal(u) && |Decimal(u)| == Length(u)
  {
    Powers();
    hide Pow10;
    PaddedDecimal(u, Length(u));
  }

  /** The first of n digits, then the others. */
  lemma FirstDigit(u: nat, n: nat)
    requires n > 0 && Quot(u, Pow10(n - 1)) < 10
    ensures Padded(u, n) == [Digit(Quot(u, Pow10(n - 1)))] + Padded(Rem(u, Pow10(n - 1)), n - 1)
  {
    PaddedSplit(u, 1, n - 1);
    hide Pow10, Quot, Rem;
    var d := Quot(u, Pow10(n - 1));
    assert Padded(d, 1) == Padded(d / 10, 0) + [Digit(d % 10)];
  }

  /** The choice of case in `itoa_u32`, with the first digit printed when their number is odd. */
  method Enter(u: nat, buf: array<char>, p0: nat) returns (d: nat, p: nat, n: nat)
    requires u < U32 && p0 + 1 <= buf.Length
    modifies buf
    ensures n == Length(u) && p == p0 + n % 2
    ensures if n % 2 == 1 then d == Quot(u, Pow10(n - 1)) < 10 && Wrote(buf, p0, [Digit(d)], p)
            else buf[..] == old(buf[..])
  {
    Powers();
    hide Pow10, Quot;
    d := 0;
    if u >= 100000000 {
      d, p, n := Digits(u, 100000000, d, buf, p0, 10);
    } else if u < 100 {
      d, p, n := Digits(u, 1, d, buf, p0, 2);
    } else if u < 10000 {
      d, p, n := Digits(u, 100, d, buf, p0, 4);
    } else if u < 1000000 {
      d, p, n := Digits(u, 10000, d, buf, p0, 6);
    } else {
      d, p, n := Digits(u, 1000000, d, buf, p0, 8);
    }
  }

  lemma LengthBelow(u: nat)
    requires u < 10000000000
    ensures u < Pow10(Length(u)) && 1 <= Length(u) <= 10
  {
    Powers();
    hide Pow10;
  }

  lemma PrintsAll(u: nat, d: nat, n: nat)
    requires 1 <= n <= 10 && u < Pow10(n) && (n % 2 == 1 ==> d == Quot(u, Pow10(n - 1)) < 10)
    ensures Before(u, d, n, 10)
    ensures Padded(u, n) == (if n % 2 == 1 then [Digit(d)] else "") + Padded(Rest(u, n), n - n % 2)
  {
    if n % 2 == 1 {
      FirstDigit(u, n);
    }
    hide Padded, Pow10, Quot;
  }

  /** `itoa_u32` */
  method ItoaU32(u: nat, buf: array<char>, p0: nat) returns (p: nat)
    requires u < U32 && p0 + |Decimal(u)| < buf.Length
    modifies buf
    ensures p == p0 + |Decimal(u)| && buf[..p] == old(buf[..p0]) + Decimal(u)
    ensures buf[p] == 0 as char && Kept(buf, p + 1)
  {
    LengthDecimal(u);
    LengthBelow(u);
    hide Pow10, Padded, Decimal, Length, Quot, Rem, Rest;
    var d, n;
    d, p, n := Enter(u, buf, p0);
    PrintsAll(u, d, n);
    p := Switch(u, buf, p, d, n);
  }

  /** `itoa_u64`: nine digits at a time from the low end. */
  method ItoaU64(u: nat, buf: array<char>, p0: nat) returns (p: nat)
    requires u < U64 && p0 + |Decimal(u)| < buf.Length
    modifies buf
    ensures p == p0 + |Decimal(u)| && buf[..p] == old(buf[..p0]) + Decimal(u)
    ensures buf[p] == 0 as char && Kept(buf, p + 1)
    decreases u
  {
    hide Decimal, Padded, Pow10, Rem, Quot, Rest, Before;
    var lower := u % U32;
    if lower == u {
      p := ItoaU32(lower, buf, p0);
      return;
    }
    assert u >= U32 by {
      if u < U32 {
        Negation(u, U32);
      }
    }
    NineMore(u);
    var upper := u / 1000000000;
    p := ItoaU64(upper, buf, p0);
    lower := u - upper * 1000000000;
    var d := lower / 100000000;
    p := Out1(Digit(d), buf, p);
    assert buf[..p] == old(buf[..p0]) + (Decimal(upper) + [Digit(d)]);
    p := Switch(lower, buf, p, d, 9);
  }

  lemma NineMore(u: nat)
    requires u >= 1000000000
    ensures var upper := u / 1000000000;
            var lower := u - upper * 1000000000;
            && lower / 100000000 < 10 && Before(lower, lower / 100000000, 9, 10)
            && Decimal(u) == Decimal(upper) + [Digit(lower / 100000000)] + Padded(Rest(lower, 9), 8)
            && |Decimal(u)| == |Decimal(upper)| + 9
  {
    Powers();
    hide Pow10;
    var upper := u / 1000000000;
    var lower := u - upper * 1000000000;
    DecimalSplit(u, 9);
    FirstDigit(lower, 9);
    hide Decimal, Padded;
    assert Quot(u, 1000000000) == upper && Rem(u, 1000000000) == lower;
  }

  // ----- signed numbers -----

  /** The text of a signed number. */
  function Signed(i: int): string {
    if i < 0 then "-" + Decimal(-i) else Decimal(i)
  }

  /** `itoa_32`: negation wraps, so the least number is printed too. */
  method Itoa32(i: int, buf: array<char>, p0: nat) returns (p: nat)
    requires -0x8000_0000 <= i < 0x8000_0000 && p0 + |Signed(i)| < buf.Length
    modifies buf
    ensures p == p0 + |Signed(i)| && buf[..p] == old(buf[..p0]) + Signed(i)
    ensures buf[p] == 0 as char && Kept(buf, p + 1)
  {
    hide Decimal;
    Negation(i, U32);
    var u := i % U32;
    p := p0;
    if i < 0 {
      p := Out1('-', buf, p);
      u := (-u) % U32;
    }
    p := ItoaU32(u, buf, p);
  }

  /** Negating the unsigned form of a negative number gives its absolute value. */
  lemma Negation(i: int, m: int)
    requires -m < i < m
    ensures i >= 0 ==> i % m == i
    ensures i < 0 ==> (-(i % m)) % m == -i
  {
    if i >= 0 {
      QuotientUnique(i, m, 0, i);
    } else {
      QuotientUnique(i, m, -1, i + m);
      QuotientUnique(-(i + m), m, -1, -i);
    }
  }

  /** `itoa_64` */
  method Itoa64(i: int, buf: array<char>, p0: nat) returns (p: nat)
    requires -0x8000_0000_0000_0000 <= i < 0x8000_0000_0000_0000 && p0 + |Signed(i)| < buf.Length
    modifies buf
    ensures p == p0 + |Signed(i)| && buf[..p] == old(buf[..p0]) + Signed(i)
    ensures buf[p] == 0 as char && Kept(buf, p + 1)
  {
    hide Decimal;
    Negation(i, U64);
    var u := i % U64;
    p := p0;
    if i < 0 {
      p := Out1('-', buf, p);
      u := (-u) % U64;
    }
    p := ItoaU64(u, buf, p);
  }

  // ----- the suffix of a get response -----

  /** What follows the key in a VALUE line. */
  function SuffixText(flags: Option<nat>, size: nat, cas: Option<nat>): string {
    FlagsText(flags, size) + CasText(cas) + "\r\n"
  }

  function FlagsText(flags: Option<nat>, size: nat): string {
    match flags case Some(f) => " " + Decimal(f) + " " + Decimal(size) case None => ""
  }

  function CasText(cas: Option<nat>): string {
    match cas case Some(c) => " " + Decimal(c) case None => ""
  }

  // ----- reading the suffix back -----

  /** How many digits a text starts with. */
  function Leading(s: string): nat {
    if s == [] || !IsDigit(s[0]) then 0 else 1 + Leading(s[1..])
  }

  lemma {:induction false} LeadingThen(s: string, rest: string)
    requires (forall i :: 0 <= i < |s| ==> IsDigit(s[i])) && (rest == [] || !IsDigit(rest[0]))
    ensures Leading(s + rest) == |s|
  {
    if s == [] {
      assert s + rest == rest;
    } else {
      assert (s + rest)[1..] == s[1..] + rest;
      LeadingThen(s[1..], rest);
    }
  }

  lemma {:induction false} LeadingWithin(s: string)
    ensures Leading(s) <= |s|
  {
    if s != [] {
      LeadingWithin(s[1..]);
    }
  }

  /** The numbers of a text, each after a blank, up to the line end. */
  function ReadNumbers(s: string): Option<seq<nat>> {
    if s == "\r\n" then Some([])
    else if s == [] || s[0] != ' ' || Leading(s[1..]) == 0 then None
    else
      var n := Leading(s[1..]);
      LeadingWithin(s[1..]);
      match ReadNumbers(s[1 + n..])
      case Some(numbers) => Some([Parse(s[1..1 + n])] + numbers)
      case None => None
  }

  lemma ReadOne(u: nat, rest: string, numbers: seq<nat>)
    requires rest != [] && !IsDigit(rest[0]) && ReadNumbers(rest) == Some(numbers)
    ensures ReadNumbers(" " + Decimal(u) + rest) == Some([u] + numbers)
  {
    hide Decimal, Leading, Parse;
    DecimalRoundTrip(u);
    LeadingThen(Decimal(u), rest);
    var s, n := " " + Decimal(u) + rest, |Decimal(u)|;
    assert s[1..] == Decimal(u) + rest;
    assert s[1..1 + n] == Decimal(u) && s[1 + n..] == rest;
  }

  /** A suffix reads back as flags, size and CAS, in this order, and a line end. */
  lemma SuffixReads(flags: Option<nat>, size: nat, cas: Option<nat>)
    ensures ReadNumbers(SuffixText(flags, size, cas))
         == Some((if flags.Some? then [flags.value, size] else []) + if cas.Some? then [cas.value] else [])
  {
    hide Decimal, ReadNumbers, CasText;
    CasReads(cas);
    var tail := CasText(cas) + "\r\n";
    var last: seq<nat> := if cas.Some? then [cas.value] else [];
    if flags.Some? {
      ReadOne(size, tail, last);
      ReadOne(flags.value, " " + Decimal(size) + tail, [size] + last);
      assert SuffixText(flags, size, cas) == " " + Decimal(flags.value) + (" " + Decimal(size) + tail);
      assert [flags.value] + ([size] + last) == [flags.value, size] + last;
    } else {
      assert SuffixText(flags, size, cas) == tail && [] + last == last;
    }
  }

  lemma CasReads(cas: Option<nat>)
    ensures var tail := CasText(cas) + "\r\n";
            && ReadNumbers(tail) == Some(if cas.Some? then [cas.value] else [])
            && tail != [] && !IsDigit(tail[0])
  {
    hide Decimal, ReadNumbers;
    LineEnd();
    if cas.Some? {
      ReadOne(cas.value, "\r\n", []);
      assert [cas.value] + [] == [cas.value];
    } else {
      assert CasText(cas) + "\r\n" == "\r\n";
    }
  }

  lemma LineEnd()
    ensures ReadNumbers("\r\n") == Some([]) && "\r\n"[0] == '\r'
  {
  }

  const SUFFIX_SIZE := 50

  lemma {:induction false} DecimalShort(u: nat, n: nat)
    requires n > 0 && u < Pow10(n)
    ensures |Decimal(u)| <= n
  {
    if n > 1 && u >= 10 {
      assert Pow10(n) == 10 * Pow10(n - 1);
      DecimalShort(u / 10, n - 1);
    } else if n == 1 {
      assert Pow10(1) == 10;
    }
  }

  lemma SuffixFits(flags: Option<nat>, size: nat, cas: Option<nat>)
    requires (flags.Some? ==> flags.value < U32) && size < U32 && (cas.Some? ==> cas.value < U64)
    ensures |SuffixText(flags, size, cas)| + 1 <= 46 < SUFFIX_SIZE
    ensures |Decimal(size)| <= 10 && (flags.Some? ==> |Decimal(flags.value)| <= 10)
    ensures cas.Some? ==> |Decimal(cas.value)| <= 20
  {
    Powers();
    PaddedPow();
    hide Pow10;
    DecimalShort(size, 10);
    if flags.Some? {
      DecimalShort(flags.value, 10);
    }
    if cas.Some? {
      DecimalShort(cas.value, 20);
    }
  }

  lemma PaddedPow()
    ensures Pow10(20) > U64
  {
    assert Pow10(10) == 10000000000;
    PowSplit(10, 10);
  }

  lemma {:induction false} PowSplit(a: nat, b: nat)
    ensures Pow10(a + b) == Pow10(a) * Pow10(b)
  {
    if a > 0 {
      PowSplit(a - 1, b);
    }
  }

  /**
   * `make_ascii_get_suffix` for the suffix buffer's 50 bytes. `inline` is settings.inline_ascii_response;
   * `stored` are the client flags, None when the item stores none.
   */
  method MakeAsciiGetSuffix(buf: array<char>, inline: bool, stored: Option<nat>, nbytes: int, cas: Option<nat>)
    returns (len: nat)
    requires buf.Length >= SUFFIX_SIZE && (stored.Some? ==> stored.value < U32)
    requires -0x8000_0000 <= nbytes - 2 && nbytes < 0x8000_0000 && (cas.Some? ==> cas.value < U64)
    modifies buf
    ensures var flags := if inline then None else if stored.None? then Some(0) else stored;
            len + 1 <= SUFFIX_SIZE && buf[..len] == SuffixText(flags, (nbytes - 2) % U32, cas)
    ensures buf[len] == 0 as char
    ensures ReadNumbers(buf[..len])
         == Some((if inline then [] else [if stored.Some? then stored.value else 0, (nbytes - 2) % U32])
                 + if cas.Some? then [cas.value] else [])
  {
    ghost var flags := if inline then None else if stored.None? then Some(0) else stored;
    SuffixFits(flags, (nbytes - 2) % U32, cas);
    SuffixReads(flags, (nbytes - 2) % U32, cas);
    hide Decimal, FlagsText, ReadNumbers;
    var p := WriteFlagsAndSize(buf, inline, stored, (nbytes - 2) % U32);
    p := WriteCas(buf, p, cas);
    hide CasText;
    p := Out1('\r', buf, p);
    p := Out1('\n', buf, p);
    buf[p] := 0 as char;
    len := p;
  }

  method WriteFlagsAndSize(buf: array<char>, inline: bool, stored: Option<nat>, size: nat) returns (p: nat)
    requires buf.Length >= SUFFIX_SIZE && (stored.Some? ==> stored.value < U32) && size < U32
    requires |Decimal(size)| <= 10 && (!inline && stored.Some? ==> |Decimal(stored.value)| <= 10)
    modifies buf
    ensures var flags := if inline then None else if stored.None? then Some(0) else stored;
            p <= 22 && buf[..p] == FlagsText(flags, size)
  {
    hide Decimal;
    p := 0;
    if !inline {
      p := Out1(' ', buf, p);
      p := WriteFlags(buf, p, stored);
      p := Out1(' ', buf, p);
      p := ItoaU32(size, buf, p);
    }
  }

  method WriteCas(buf: array<char>, p0: nat, cas: Option<nat>) returns (p: nat)
    requires (cas.Some? ==> cas.value < U64 && |Decimal(cas.value)| <= 20) && p0 + 22 < buf.Length
    modifies buf
    ensures p0 <= p <= p0 + 21 && buf[..p] == old(buf[..p0]) + CasText(cas)
  {
    hide Decimal;
    p := p0;
    if cas.Some? {
      p := Out1(' ', buf, p);
      p := ItoaU64(cas.value, buf, p);
    }
  }

  method WriteFlags(buf: array<char>, p0: nat, stored: Option<nat>) returns (p: nat)
    requires (stored.Some? ==> stored.value < U32) && p0 + 11 < buf.Length
    requires stored.Some? ==> |Decimal(stored.value)| <= 10
    modifies buf
    ensures p <= p0 + 10 && buf[..p] == old(buf[..p0]) + Decimal(if stored.Some? then stored.value else 0)
  {
    if stored.None? {
      buf[p0] := '0';
      p := p0 + 1;
    } else {
      p := ItoaU32(stored.value, buf, p0);
    }
  }
}
