/** Digit strings: what `BigInt("0x...")`, `BigInt("0b...")` and `toString(radix)` do. */
module Numerals {
  import opened Wrappers

  function Pow(base: nat, exponent: nat): nat {
    if exponent == 0 then 1 else base * Pow(base, exponent - 1)
  }

  function DigitChar(d: nat): char
    requires d < 16
  {
    if d < 10 then ('0' as int + d) as char else ('a' as int + (d - 10)) as char
  }

  /** The value of a digit, upper or lower case; 16 for any other character. */
  function DigitValue(c: char): (d: nat)
    ensures d <= 16
  {
    if '0' <= c <= '9' then c as int - '0' as int
    else if 'a' <= c <= 'f' then c as int - 'a' as int + 10
    else if 'A' <= c <= 'F' then c as int - 'A' as int + 10
    else 16
  }

  lemma DigitRoundTrip(d: nat)
    requires d < 16
    ensures DigitValue(DigitChar(d)) == d
  {
  }

  predicate AreDigits(s: string, base: nat) {
    forall i :: 0 <= i < |s| ==> DigitValue(s[i]) < base
  }

  function Value(s: string, base: nat): nat
    requires AreDigits(s, base)
  {
    if s == [] then 0 else Value(s[..|s| - 1], base) * base + DigitValue(s[|s| - 1])
  }

  /** `BigInt` on a prefixed literal: it throws on no digits and on a wrong one. */
  function ParseBigInt(s: string, base: nat): Option<nat> {
    if s == [] || !AreDigits(s, base) then None else Some(Value(s, base))
  }

  /** `toString(base)`: no leading zeros. */
  function Print(n: nat, base: nat): (s: string)
    requires 2 <= base <= 16
    ensures |s| > 0
  {
    if n < base then [DigitChar(n)] else Print(n / base, base) + [DigitChar(n % base)]
  }

  lemma ValueAppend(s: string, c: char, base: nat)
    requires AreDigits(s, base) && DigitValue(c) < base
    ensures AreDigits(s + [c], base) && Value(s + [c], base) == Value(s, base) * base + DigitValue(c)
  {
    assert (s + [c])[..|s|] == s;
  }

  /** Reading what was printed gives the number back. */
  lemma {:induction false} ValueOfPrint(n: nat, base: nat)
    requires 2 <= base <= 16
    ensures AreDigits(Print(n, base), base) && Value(Print(n, base), base) == n
  {
    if n < base {
      OneDigit(n, base);
    } else {
      ValueOfPrint(n / base, base);
      DigitRoundTrip(n % base);
      ValueAppend(Print(n / base, base), DigitChar(n % base), base);
      QuotientAndRest(n, base);
    }
  }

  lemma ValueOfDigit(c: char, base: nat)
    requires DigitValue(c) < base
    ensures AreDigits([c], base) && Value([c], base) == DigitValue(c)
  {
    assert [c][..0] == [];
    assert Value([c][..0], base) == 0;
  }

  lemma OneDigit(n: nat, base: nat)
    requires n < base <= 16
    ensures AreDigits([DigitChar(n)], base) && Value([DigitChar(n)], base) == n
  {
    DigitRoundTrip(n);
    ValueOfDigit(DigitChar(n), base);
  }

  lemma QuotientAndRest(n: nat, base: nat)
    requires base > 0
    ensures n / base * base + n % base == n
  {
  }

  /** No leading zeros: only 0 prints with one, and alone. */
  lemma {:induction false} NoLeadingZero(n: nat, base: nat)
    requires 2 <= base <= 16
    ensures if n == 0 then Print(n, base) == "0" else Print(n, base)[0] != '0'
  {
    if n >= base { NoLeadingZero(n / base, base); }
  }

  /** The digits, upper and lower case, and nothing else. */
  lemma DigitAlphabet(c: char, d: nat)
    requires d < 16
    ensures DigitChar(d) == "0123456789abcdef"[d]
    ensures DigitValue(c) == d <==> c == "0123456789abcdef"[d] || c == "0123456789ABCDEF"[d]
  {
  }

  /** Distinct numbers print differently. */
  lemma PrintIsInjective(m: nat, n: nat, base: nat)
    requires 2 <= base <= 16 && Print(m, base) == Print(n, base)
    ensures m == n
  {
    ValueOfPrint(m, base);
    ValueOfPrint(n, base);
  }

  /** Only the characters 0 to 9. */
  predicate IsDecimal(s: string) {
    forall i :: 0 <= i < |s| ==> '0' <= s[i] <= '9'
  }

  lemma {:induction false} PrintIsDecimal(n: nat)
    ensures IsDecimal(Print(n, 10))
  {
    if n >= 10 { PrintIsDecimal(n / 10); }
  }

  lemma {:induction false} ValueConcat(a: string, b: string, base: nat)
    requires AreDigits(a, base) && AreDigits(b, base)
    ensures AreDigits(a + b, base)
    ensures Value(a + b, base) == Value(a, base) * Pow(base, |b|) + Value(b, base)
  {
    if b == [] {
      assert a + b == a;
    } else {
      var init, last := b[..|b| - 1], b[|b| - 1];
      ValueConcat(a, init, base);
      ValueAppend(a + init, last, base);
      assert a + b == (a + init) + [last];
      PowStep(Value(a, base), base, |init|, Value(init, base), DigitValue(last));
    }
  }

  /** The first digit weighs as much as there are digits after it. */
  lemma ValueOfFirst(c: char, s: string, base: nat)
    requires AreDigits(s, base) && DigitValue(c) < base
    ensures AreDigits([c] + s, base) && Value([c] + s, base) == DigitValue(c) * Pow(base, |s|) + Value(s, base)
  {
    ValueOfDigit(c, base);
    ValueConcat([c], s, base);
  }

  lemma PowStep(x: nat, base: nat, k: nat, y: nat, d: nat)
    ensures (x * Pow(base, k) + y) * base + d == x * Pow(base, k + 1) + (y * base + d)
  {
    var p := Pow(base, k);
    assert x * p * base == x * (base * p);
  }

  lemma {:induction false} ValueIsBounded(s: string, base: nat)
    requires AreDigits(s, base) && base > 0
    ensures Value(s, base) < Pow(base, |s|)
  {
    if s != [] {
      ValueIsBounded(s[..|s| - 1], base);
      BoundStep(Value(s[..|s| - 1], base), Pow(base, |s| - 1), base, DigitValue(s[|s| - 1]));
    }
  }

  lemma BoundStep(v: nat, p: nat, base: nat, d: nat)
    requires v < p && d < base
    ensures v * base + d < base * p
  {
    assert (v + 1) * base <= p * base;
  }

  lemma {:induction false} PowAdd(base: nat, a: nat, b: nat)
    ensures Pow(base, a + b) == Pow(base, a) * Pow(base, b)
  {
    if a > 0 {
      PowAdd(base, a - 1, b);
      assert a + b - 1 == a - 1 + b;
      Associate(base, Pow(base, a - 1), Pow(base, b));
    }
  }

  lemma Associate(x: nat, y: nat, z: nat)
    ensures x * (y * z) == x * y * z
  {
  }

  const TWO_63: nat := 0x8000_0000_0000_0000

  /** A remainder of 2^63 with a multiple of it. */
  lemma RemainderOf(n: nat, q: nat, r: nat)
    requires r < TWO_63 && n == q * TWO_63 + r
    ensures n % TWO_63 == r
  {
  }

  lemma LowBitsOfSmall(n: nat)
    ensures n % TWO_63 == n <==> n < TWO_63
  {
  }

  lemma PowersOfTwo()
    ensures Pow(2, 8) == 256 && Pow(2, 63) == TWO_63 && Pow(2, 64) == 2 * TWO_63
    ensures Pow(16, 16) == 2 * TWO_63
  {
    assert Pow(2, 4) == 16;
    PowAdd(2, 4, 4);
    PowAdd(2, 8, 8);
    PowAdd(2, 16, 16);
    PowAdd(2, 32, 32);
    assert Pow(2, 64) == 2 * Pow(2, 63);
    assert Pow(16, 2) == 256;
    PowAdd(16, 2, 2);
    PowAdd(16, 4, 4);
    PowAdd(16, 8, 8);
  }
}
