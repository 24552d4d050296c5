/**
  Digits and the numbers they denote.
*/
module Numerals {

  type Base = b: nat | b == 10 || b == 16 witness 10

  const DIGITS := "0123456789ABCDEF"

  function Digit(d: nat): char
    requires d < 16
  {
    DIGITS[d]
  }

  function DigitValue(c: char): nat {
    if '0' <= c <= '9' then c as nat - '0' as nat
    else if 'A' <= c <= 'F' then c as nat - 'A' as nat + 10
    else 0
  }

  /** What a string of digits denotes. */
  function Value(s: string, base: Base): nat {
    if s == [] then 0 else Value(s[..|s| - 1], base) * base + DigitValue(s[|s| - 1])
  }

  /** The digits of `n`, at least `minCount` of them. */
  function Numeral(n: nat, base: Base, minCount: nat): string
    decreases n, minCount
  {
    if n == 0 && minCount == 0 then ""
    else Numeral(n / base, base, if minCount > 0 then minCount - 1 else 0) + [Digit(n % base)]
  }

  /** Decimal digits, and upper case letters for the rest. */
  lemma DigitsAre(d: nat)
    requires d < 16
    ensures Digit(d) == if d < 10 then '0' + d as char else 'A' + (d - 10) as char
  {
  }

  lemma DivMod(n: nat, base: Base)
    ensures n == (n / base) * base + n % base && n % base < base
    ensures n > 0 ==> n / base < n
  {
  }

  lemma DigitDenotes(d: nat)
    requires d < 16
    ensures DigitValue(Digit(d)) == d && (d != 0 ==> Digit(d) != '0')
  {
  }

  lemma ValueOfLast(s: string, c: char, base: Base)
    ensures Value(s + [c], base) == Value(s, base) * base + DigitValue(c)
  {
    assert (s + [c])[..|s|] == s;
  }

  lemma {:induction false} ValueOfNumeral(n: nat, base: Base, minCount: nat)
    ensures Value(Numeral(n, base, minCount), base) == n
    decreases n, minCount
  {
    if n != 0 || minCount != 0 {
      DivMod(n, base);
      var m := if minCount > 0 then minCount - 1 else 0;
      ValueOfNumeral(n / base, base, m);
      ValueOfLast(Numeral(n / base, base, m), Digit(n % base), base);
      DigitDenotes(n % base);
    }
  }

  /** At least the minimum of digits, and no leading zero beyond that. */
  lemma {:induction false} NoLeadingZeros(n: nat, base: Base, minCount: nat)
    ensures var s := Numeral(n, base, minCount);
            |s| >= minCount && (|s| > minCount ==> s[0] != '0')
    decreases n, minCount
  {
    if n != 0 || minCount != 0 {
      DivMod(n, base);
      var m := if minCount > 0 then minCount - 1 else 0;
      NoLeadingZeros(n / base, base, m);
      if n / base == 0 && m == 0 {
        assert Numeral(n, base, minCount) == [Digit(n % base)];
        DigitDenotes(n % base);
      }
    }
  }
}
