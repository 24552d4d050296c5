/**
  libpng's number formatting for messages: digits are written from the end of a buffer backwards.
*/
module PngNumbers {
  import opened Numerals

  datatype Format = U | U02 | X | X02 | Fixed | OtherFormat

  // ---------- Fixed point: hundred-thousandths ----------

  /** The text from digit number `count` on; `output` tells whether a digit was written before. */
  function FixedText(n: nat, count: nat, output: bool): string
    decreases n, 5 - count
  {
    if n == 0 && count >= 5 then ""
    else
      var d := n % 10;
      var out := output || d != 0;
      FixedText(n / 10, count + 1, out)
      + (if count + 1 != 5 then "" else if out then "." else if n / 10 == 0 then "0" else "")
      + (if out then [Digit(d)] else "")
  }

  function Pow10(k: nat): nat {
    if k == 0 then 1 else 10 * Pow10(k - 1)
  }

  function Shift(n: nat, k: nat): nat {
    if k == 0 then n else Shift(n / 10, k - 1)
  }

  /** The last `k` digits of `n`, as a number. */
  function Low(n: nat, k: nat): nat {
    if k == 0 then 0 else n % 10 + 10 * Low(n / 10, k - 1)
  }

  /** Exactly `k` digits. */
  function Padded(n: nat, k: nat): string {
    if k == 0 then "" else Padded(n / 10, k - 1) + [Digit(n % 10)]
  }

  /** The last `k` digits without the zeros at the end. */
  function Fraction(n: nat, k: nat): string {
    if k == 0 then "" else if n % 10 == 0 then Fraction(n / 10, k - 1) else Padded(n, k)
  }

  /** The digits of a positive number without the zeros at the end. */
  function Stripped(n: nat): string {
    if n == 0 then "" else if n % 10 == 0 then Stripped(n / 10) else Numeral(n, 10, 0)
  }

  lemma OneDigit(n: nat)
    ensures Padded(n, 1) == [Digit(n % 10)] && Shift(n, 1) == n / 10 && Low(n, 1) == n % 10
    ensures n % 10 != 0 ==> Fraction(n, 1) == [Digit(n % 10)]
  {
    assert Padded(n / 10, 0) == "" && Shift(n / 10, 0) == n / 10 && Low(n / 10, 0) == 0;
  }

  lemma {:induction false} AfterPoint(n: nat, count: nat)
    requires count >= 5
    ensures FixedText(n, count, true) == Numeral(n, 10, 0)
    ensures FixedText(n, count, false) == Stripped(n)
    decreases n
  {
    if n != 0 {
      AfterPoint(n / 10, count + 1);
    }
  }

  lemma {:induction false} WithOutput(n: nat, count: nat)
    requires count < 5
    ensures FixedText(n, count, true) == Numeral(Shift(n, 5 - count), 10, 0) + "." + Padded(n, 5 - count)
    decreases 5 - count
  {
    hide Numeral, Digit;
    if count == 4 {
      AfterPoint(n / 10, 5);
      OneDigit(n);
    } else {
      WithOutput(n / 10, count + 1);
      MoreDigits(Numeral(Shift(n, 5 - count), 10, 0), n, 5 - count);
    }
  }

  lemma MoreDigits(whole: string, n: nat, k: nat)
    requires k > 0
    ensures whole + "." + Padded(n / 10, k - 1) + [Digit(n % 10)] == whole + "." + Padded(n, k)
  {
  }

  /** One digit of the fraction while nothing has been written. */
  lemma FirstDigits(n: nat, count: nat)
    requires count < 4
    ensures n % 10 == 0 ==> FixedText(n, count, false) == FixedText(n / 10, count + 1, false)
    ensures n % 10 != 0 ==> FixedText(n, count, false) == FixedText(n / 10, count + 1, true) + [Digit(n % 10)]
  {
  }

  /** The last digit of the fraction, and then the point, a zero, or neither. */
  lemma LastDigit(n: nat)
    ensures FixedText(n, 4, false) ==
            if n % 10 != 0 then Numeral(n / 10, 10, 0) + "." + [Digit(n % 10)]
            else if n / 10 == 0 then "0" else Stripped(n / 10)
  {
    hide Numeral, Digit;
    AfterPoint(n / 10, 5);
  }

  lemma {:induction false} WithoutOutput(n: nat, count: nat)
    requires count < 5
    ensures var k := 5 - count;
            FixedText(n, count, false) ==
              if Low(n, k) != 0 then Numeral(Shift(n, k), 10, 0) + "." + Fraction(n, k)
              else if Shift(n, k) == 0 then "0" else Stripped(Shift(n, k))
    decreases 5 - count
  {
    hide FixedText, Numeral, Stripped, Digit;
    var k := 5 - count;
    if count == 4 {
      LastDigit(n);
      OneDigit(n);
    } else {
      FirstDigits(n, count);
      if n % 10 == 0 {
        WithoutOutput(n / 10, count + 1);
      } else {
        WithOutput(n / 10, count + 1);
        MoreDigits(Numeral(Shift(n, k), 10, 0), n, k);
      }
    }
  }

  // ---------- What the fixed text denotes ----------

  /** Hundred-thousandths denoted by digits with at most one point and at most five digits after it. */
  ghost predicate Denotes(s: string, n: nat) {
    || ('.' !in s && Value(s, 10) * 100000 == n)
    || exists whole: string, fraction: string ::
         && s == whole + "." + fraction && '.' !in whole && '.' !in fraction && |fraction| <= 5
         && Value(whole, 10) * 100000 + Value(fraction, 10) * Pow10(5 - |fraction|) == n
  }

  lemma {:induction false} NumeralHasNoPoint(n: nat, base: Base, minCount: nat)
    ensures '.' !in Numeral(n, base, minCount)
    decreases n, minCount
  {
    if n != 0 || minCount != 0 {
      DivMod(n, base);
      NumeralHasNoPoint(n / base, base, if minCount > 0 then minCount - 1 else 0);
      DigitIsNoPoint(n % base);
    }
  }

  lemma DigitIsNoPoint(d: nat)
    requires d < 16
    ensures Digit(d) != '.'
  {
  }

  lemma ValueOfNothing()
    ensures Value("", 10) == 0
  {
  }

  lemma {:induction false} PaddedDenotes(n: nat, k: nat)
    ensures |Padded(n, k)| == k && '.' !in Padded(n, k) && Value(Padded(n, k), 10) == Low(n, k)
    decreases k
  {
    hide Digit, DigitValue, Value, Shift;
    if k == 0 {
      assert Value("", 10) == 0 by { ValueOfNothing(); }
    } else {
      PaddedDenotes(n / 10, k - 1);
      ValueOfLast(Padded(n / 10, k - 1), Digit(n % 10), 10);
      DigitDenotes(n % 10);
      DigitIsNoPoint(n % 10);
      LowStep(n, k);
    }
  }

  lemma {:induction false} FractionDenotes(n: nat, k: nat)
    ensures var f := Fraction(n, k);
            |f| <= k && '.' !in f && Value(f, 10) * Pow10(k - |f|) == Low(n, k)
    decreases k
  {
    if k > 0 {
      if n % 10 == 0 {
        FractionDenotes(n / 10, k - 1);
        var f := Fraction(n / 10, k - 1);
        assert Pow10(k - |f|) == 10 * Pow10(k - 1 - |f|);
        TenTimes(Value(f, 10), Pow10(k - 1 - |f|));
      } else {
        PaddedDenotes(n, k);
        assert Pow10(0) == 1;
      }
    }
  }

  lemma TenTimes(a: nat, b: nat)
    ensures a * (10 * b) == 10 * (a * b)
  {
  }

  lemma LowStep(n: nat, k: nat)
    requires k > 0
    ensures Shift(n, k) == Shift(n / 10, k - 1) && Low(n, k) == n % 10 + 10 * Low(n / 10, k - 1)
  {
  }

  lemma FiveDigits(n: nat)
    ensures Shift(n, 5) == n / 100000 && Low(n, 5) == n % 100000
  {
    hide Shift, Low;
    var a := n / 10;
    var b := a / 10;
    var c := b / 10;
    var d := c / 10;
    LowStep(n, 5);
    LowStep(a, 4);
    LowStep(b, 3);
    LowStep(c, 2);
    OneDigit(d);
    OnlyQuotient(n, d / 10, n % 10 + 10 * (a % 10) + 100 * (b % 10) + 1000 * (c % 10) + 10000 * (d % 10));
  }

  lemma OnlyQuotient(n: nat, q: nat, r: nat)
    requires n == q * 100000 + r && r < 100000
    ensures n / 100000 == q && n % 100000 == r
  {
  }

  lemma {:induction false} StrippedDenotes(n: nat)
    ensures '.' !in Stripped(n)
    ensures Value(Stripped(n), 10) <= n
    ensures Value(Stripped(n), 10) == n <==> n == 0 || n % 10 != 0
    decreases n
  {
    if n != 0 && n % 10 == 0 {
      StrippedDenotes(n / 10);
    } else if n != 0 {
      ValueOfNumeral(n, 10, 0);
      NumeralHasNoPoint(n, 10, 0);
    }
  }

  /**
    The fixed format denotes the number except when it is a positive multiple of ten units with
    no fraction: then the zeros at the end of the integer part are dropped too.
  */
  lemma FixedDenotesIff(n: nat)
    ensures Denotes(FixedText(n, 0, false), n) <==> n == 0 || n % 100000 != 0 || (n / 100000) % 10 != 0
  {
    hide FixedText, Numeral, Stripped, Fraction, Pow10;
    WithoutOutput(n, 0);
    FiveDigits(n);
    var whole := n / 100000;
    if n % 100000 != 0 {
      ValueOfNumeral(whole, 10, 0);
      NumeralHasNoPoint(whole, 10, 0);
      FractionDenotes(n, 5);
      assert FixedText(n, 0, false) == Numeral(whole, 10, 0) + "." + Fraction(n, 5);
    } else if whole == 0 {
      assert Value("0", 10) == 0 by { ValueOfLast("", '0', 10); assert "" + "0" == "0"; }
    } else {
      StrippedDenotes(whole);
      PointOnlyInSplit(Stripped(whole));
    }
  }

  /** Ten units without a fraction are written as one unit. */
  lemma ZerosDropped()
    ensures FixedText(1000000, 0, false) == "1" && !Denotes("1", 1000000)
  {
    hide FixedText, Fraction;
    WithoutOutput(1000000, 0);
    FiveDigits(1000000);
    FixedDenotesIff(1000000);
    assert Numeral(1, 10, 0) == Numeral(0, 10, 0) + [Digit(1)];
    assert Stripped(10) == Stripped(1) == Numeral(1, 10, 0);
  }

  lemma HasPoint(whole: string, fraction: string)
    ensures '.' in whole + "." + fraction
  {
    assert (whole + "." + fraction)[|whole|] == '.';
  }

  lemma PointOnlyInSplit(s: string)
    requires '.' !in s
    ensures forall n :: Denotes(s, n) <==> Value(s, 10) * 100000 == n
  {
    forall whole: string, fraction: string | s == whole + "." + fraction ensures false {
      HasPoint(whole, fraction);
    }
  }

  // ---------- The formatter ----------

  /** The whole text of a number in a format. */
  function FormatText(format: Format, n: nat): string {
    match format
    case U => Numeral(n, 10, 1)
    case U02 => Numeral(n, 10, 2)
    case X => Numeral(n, 16, 1)
    case X02 => Numeral(n, 16, 2)
    case Fixed => FixedText(n, 0, false)
    case OtherFormat => ""
  }

  /** The last `room` characters. */
  function Suffix(s: string, room: nat): string {
    if |s| <= room then s else s[|s| - room..]
  }

  /** The longest end of the text that there is room for. */
  lemma SuffixIs(s: string, room: nat)
    ensures |Suffix(s, room)| <= room && |Suffix(s, room)| <= |s|
    ensures s[|s| - |Suffix(s, room)|..] == Suffix(s, room)
    ensures |Suffix(s, room)| < room ==> Suffix(s, room) == s
  {
  }

  /** With room for all of it the integer formats denote the number without needless zeros. */
  lemma IntegerFormats(format: Format, n: nat)
    requires format in {U, U02, X, X02}
    ensures FormatText(OtherFormat, n) == ""
    ensures var s, base := FormatText(format, n), if format in {U, U02} then 10 else 16;
            var minCount := if format in {U, X} then 1 else 2;
            Value(s, base) == n && |s| >= minCount && (|s| > minCount ==> s[0] != '0')
  {
    var base := if format in {U, U02} then 10 else 16;
    var minCount := if format in {U, X} then 1 else 2;
    ValueOfNumeral(n, base, minCount);
    NoLeadingZeros(n, base, minCount);
  }

  function BaseOf(format: Format): Base {
    if format in {X, X02} then 16 else 10
  }

  function MinCount(format: Format): nat {
    match format
    case Fixed => 5
    case U02 => 2
    case X02 => 2
    case _ => 1
  }

  /** What is still to be written in front, after `count` digits. */
  function Remaining(format: Format, n: nat, count: nat, output: bool): string {
    match format
    case Fixed => FixedText(n, count, output)
    case OtherFormat => ""
    case _ => Numeral(n, BaseOf(format), if count < MinCount(format) then MinCount(format) - count else 0)
  }

  /** The digit that is written next, and what the fixed format writes in front of it. */
  function NextDigit(format: Format, n: nat, output: bool): string {
    match format
    case Fixed => if output || n % 10 != 0 then [Digit(n % 10)] else ""
    case OtherFormat => ""
    case _ => [Digit(n % BaseOf(format))]
  }

  /** What is written at the end of the fraction, the number and the flag being the new ones. */
  function NextPoint(format: Format, n: nat, count: nat, output: bool): string {
    if format != Fixed || count != 5 then "" else if output then "." else if n == 0 then "0" else ""
  }

  /** The number without that digit; an unknown format ends at once. */
  function NextNumber(format: Format, n: nat): nat {
    if format == OtherFormat then 0 else n / BaseOf(format)
  }

  function NextOutput(format: Format, n: nat, output: bool): bool {
    output || (format == Fixed && n % 10 != 0)
  }

  lemma OneDigitMore(format: Format, n: nat, count: nat, output: bool)
    requires n != 0 || count < MinCount(format)
    ensures Remaining(format, n, count, output) ==
              Remaining(format, NextNumber(format, n), count + 1, NextOutput(format, n, output))
              + NextPoint(format, NextNumber(format, n), count + 1, NextOutput(format, n, output))
              + NextDigit(format, n, output)
  {
    hide Digit;
  }

  lemma NumberFalls(format: Format, n: nat)
    ensures NextNumber(format, n) <= n && (n > 0 ==> NextNumber(format, n) < n)
    ensures format == OtherFormat ==> NextNumber(format, n) == 0
  {
  }

  lemma NothingRemains(format: Format, count: nat, output: bool)
    requires count >= MinCount(format)
    ensures Remaining(format, 0, count, output) == ""
  {
  }

  /** A string moves from what remains to what is written. */
  lemma SuffixShift(front: string, middle: string, back: string, room: nat, whole: string)
    requires Suffix((front + middle) + back, room) == whole
    ensures Suffix(front + (middle + back), room) == whole
  {
    assert (front + middle) + back == front + (middle + back);
  }

  lemma SuffixFull(front: string, other: string, back: string)
    ensures Suffix(front + back, |back|) == back == Suffix(other + back, |back|)
  {
  }

  /**
    Write the number and a NUL backwards from `end`; the text is `buffer[r..end - 1]`.  When
    there is too little room the first characters are missing.
  */
  method FormatNumber(buffer: array<char>, start: nat, end: nat, format: Format, number: nat) returns (r: nat)
    requires start < end <= buffer.Length
    modifies buffer
    ensures start <= r < end && buffer[end - 1] == '\0'
    ensures buffer[r..end - 1] == Suffix(FormatText(format, number), end - 1 - start)
    ensures forall k :: 0 <= k < r || end <= k < buffer.Length ==> buffer[k] == old(buffer[k])
  {
    hide *;
    var count: nat, mincount: nat, output: bool, n: nat := 0, 1, false, number;
    r := end - 1;
    buffer[r] := '\0';
    ghost var room, whole := end - 1 - start, Suffix(FormatText(format, number), end - 1 - start);
    AtFirst(format, number);
    assert buffer[r..end - 1] == "";
    while r > start && (n != 0 || count < mincount)
      invariant start <= r < end && buffer[end - 1] == '\0'
      invariant forall k :: 0 <= k < r || end <= k < buffer.Length ==> buffer[k] == old(buffer[k])
      invariant mincount == if count == 0 then 1 else MinCount(format)
      invariant format == OtherFormat && count > 0 ==> n == 0
      invariant Suffix(Remaining(format, n, count, output) + buffer[r..end - 1], room) == whole
      decreases n, if count < 5 then 5 - count else 0
    {
      MinCounts(format);
      NumberFalls(format, n);
      OneDigitMore(format, n, count, output);
      ghost var front, back := Remaining(format, n, count, output), buffer[r..end - 1];
      ghost var digit := NextDigit(format, n, output);
      r, n, mincount, output := WriteDigit(buffer, start, r, end, format, n, output);
      count := count + 1;
      ghost var rest, point := Remaining(format, n, count, output), NextPoint(format, n, count, output);
      assert front == (rest + point) + digit;
      SuffixShift(rest + point, digit, back, room, whole);
      assert buffer[r..end - 1] == digit + back;
      if r > start {
        SuffixShift(rest, point, digit + back, room, whole);
      } else {
        SuffixFull(rest + point, rest, digit + back);
        assert "" + (digit + back) == digit + back;
      }
      var r' := WritePoint(buffer, start, r, end, format, n, count, output);
      assert buffer[r'..end - 1] == (if r > start then point else "") + (digit + back);
      r := r';
    }
    if r == start {
      SuffixFull(Remaining(format, n, count, output), FormatText(format, number), buffer[r..end - 1]);
    } else {
      NothingRemains(format, count, output);
      SuffixFits(buffer[r..end - 1], room);
    }
  }

  lemma MinCounts(format: Format)
    ensures 1 <= MinCount(format) <= 5 && (format != Fixed ==> MinCount(format) <= 2)
  {
  }

  /** The digit of one round. */
  method WriteDigit(buffer: array<char>, start: nat, end0: nat, end: nat, format: Format, number: nat, wasOutput: bool)
    returns (r: nat, n: nat, mincount: nat, output: bool)
    requires start < end0 < end <= buffer.Length
    modifies buffer
    ensures start <= r < end
    ensures n == NextNumber(format, number)
    ensures mincount == MinCount(format) && output == NextOutput(format, number, wasOutput)
    ensures buffer[r..end - 1] == NextDigit(format, number, wasOutput) + old(buffer[end0..end - 1])
    ensures forall k :: 0 <= k < r || end - 1 <= k < buffer.Length ==> buffer[k] == old(buffer[k])
  {
    hide Digit;
    r, n, mincount, output := end0, number, 1, wasOutput;
    match format
    case Fixed =>
      // five digits for the fraction
      mincount := 5;
      if output || n % 10 != 0 {
        r := Put(buffer, r, end, Digit(n % 10));
        output := true;
      }
      n := n / 10;
    case U02 =>
      mincount := 2;
      r := Put(buffer, r, end, Digit(n % 10));
      n := n / 10;
    case U =>
      r := Put(buffer, r, end, Digit(n % 10));
      n := n / 10;
    case X02 =>
      mincount := 2;
      r := Put(buffer, r, end, Digit(n % 16));
      n := n / 16;
    case X =>
      r := Put(buffer, r, end, Digit(n % 16));
      n := n / 16;
    case OtherFormat =>
      n := 0;
  }

  /** After the fraction: a point if a digit was written, a zero if there is nothing more. */
  method WritePoint(buffer: array<char>, start: nat, end0: nat, end: nat, format: Format, n: nat, count: nat,
                    output: bool)
    returns (r: nat)
    requires start <= end0 < end <= buffer.Length
    modifies buffer
    ensures start <= r < end
    ensures buffer[r..end - 1] ==
              (if end0 > start then NextPoint(format, n, count, output) else "") + old(buffer[end0..end - 1])
    ensures forall k :: 0 <= k < r || end - 1 <= k < buffer.Length ==> buffer[k] == old(buffer[k])
  {
    r := end0;
    if format == Fixed && count == 5 && r > start {
      if output {
        r := Put(buffer, r, end, '.');
      } else if n == 0 {
        r := Put(buffer, r, end, '0');
      }
    }
  }

  lemma AtFirst(format: Format, n: nat)
    ensures Remaining(format, n, 0, false) + "" == FormatText(format, n)
  {
  }

  lemma SuffixFits(s: string, room: nat)
    requires |s| <= room
    ensures Suffix("" + s, room) == s
  {
    assert "" + s == s;
  }

  /** Write one character in front. */
  method Put(buffer: array<char>, r: nat, end: nat, c: char) returns (r': nat)
    requires 0 < r < end <= buffer.Length
    modifies buffer
    ensures r' == r - 1 && buffer[r'..end - 1] == [c] + old(buffer[r..end - 1])
    ensures forall k :: 0 <= k < r' || end - 1 <= k < buffer.Length ==> buffer[k] == old(buffer[k])
  {
    r' := r - 1;
    buffer[r'] := c;
  }

  // ---------- The number buffer ----------

  const NUMBER_BUFFER_SIZE := 24

  function Power(base: Base, k: nat): nat {
    if k == 0 then 1 else Power(base, k - 1) * base
  }

  lemma {:induction false} NumeralLength(n: nat, base: Base, minCount: nat, k: nat)
    requires n < Power(base, k) && minCount <= k
    ensures |Numeral(n, base, minCount)| <= k
    decreases k
  {
    if n != 0 || minCount != 0 {
      DivMod(n, base);
      FallsBelow(n / base, Power(base, k - 1), base, n);
      NumeralLength(n / base, base, if minCount > 0 then minCount - 1 else 0, k - 1);
    }
  }

  lemma FallsBelow(q: nat, p: nat, base: Base, n: nat)
    requires q * base <= n < p * base
    ensures q < p
  {
  }

  lemma {:induction false} StrippedLength(n: nat, k: nat)
    requires n < Power(10, k)
    ensures |Stripped(n)| <= k
    decreases n
  {
    if n % 10 != 0 {
      NumeralLength(n, 10, 0, k);
    } else if n != 0 {
      StrippedLength(n / 10, k);
    }
  }

  lemma {:induction false} PowerSum(base: Base, j: nat, k: nat)
    ensures Power(base, j + k) == Power(base, j) * Power(base, k)
  {
    if k > 0 {
      PowerSum(base, j, k - 1);
      assert j + k - 1 == j + (k - 1);
      Regroup(Power(base, j), Power(base, k - 1), base);
    }
  }

  lemma Regroup(a: nat, b: nat, c: nat)
    ensures a * b * c == a * (b * c)
  {
  }

  lemma FifthPower(base: Base)
    ensures Power(base, 5) == base * base * base * base * base
  {
    assert Power(base, 0) == 1 && Power(base, 1) == base && Power(base, 2) == base * base;
    assert Power(base, 3) == base * base * base;
  }

  lemma Powers()
    ensures Power(10, 20) == 100_000_000_000_000_000_000
    ensures Power(10, 15) == 1_000_000_000_000_000
    ensures Power(16, 16) == 0x1_0000_0000_0000_0000
  {
    hide Power;
    FifthPower(10);
    PowerSum(10, 5, 5);
    PowerSum(10, 10, 5);
    PowerSum(10, 15, 5);
    FifthPower(16);
    PowerSum(16, 5, 5);
    PowerSum(16, 10, 5);
    PowerSum(16, 15, 1);
    assert Power(16, 1) == 16 by { FirstPower(16); }
  }

  lemma FirstPower(base: Base)
    ensures Power(base, 1) == base
  {
    assert Power(base, 0) == 1;
  }

  /** Every 64-bit number has its whole text, a sign and a NUL within the buffer for numbers. */
  lemma NumberFits(format: Format, n: nat)
    requires n < TWO_TO_64
    ensures |FormatText(format, n)| + 2 <= NUMBER_BUFFER_SIZE
  {
    hide FixedText, Numeral, Stripped, Fraction;
    Powers();
    match format
    case U => NumeralLength(n, 10, 1, 20);
    case U02 => NumeralLength(n, 10, 2, 20);
    case X => NumeralLength(n, 16, 1, 16);
    case X02 => NumeralLength(n, 16, 2, 16);
    case OtherFormat =>
    case Fixed =>
      WithoutOutput(n, 0);
      FiveDigits(n);
      FractionDenotes(n, 5);
      NumeralLength(n / 100000, 10, 0, 15);
      StrippedLength(n / 100000, 15);
  }

  /** The text of a signed number. */
  function SignedText(format: Format, value: int): string {
    if value < 0 then "-" + FormatText(format, -value) else FormatText(format, value)
  }

  /** The negation is computed in 64 bits without overflow, and there is always room for the sign. */
  method FormatSigned(format: Format, value: int) returns (text: string)
    requires -0x8000_0000 <= value < 0x8000_0000
    ensures text == SignedText(format, value)
  {
    hide FormatText, SignedText, Suffix;
    var u := value % TWO_TO_64;
    if value < 0 {
      // the complement, plus one
      u := (TWO_TO_64 - 1 - u + 1) % TWO_TO_64;
    }
    NegatedInRange(value);
    SignedMeans(format, value);
    var buffer := new char[NUMBER_BUFFER_SIZE](_ => '\0');
    var end := buffer.Length;
    var str := FormatWhole(buffer, format, u);
    if value < 0 && str > 0 {
      str := Put(buffer, str, end, '-');
    }
    text := buffer[str..end - 1];
  }

  /** With the whole buffer there is room for the text and a sign. */
  method FormatWhole(buffer: array<char>, format: Format, number: nat) returns (str: nat)
    requires buffer.Length == NUMBER_BUFFER_SIZE && number < TWO_TO_64
    modifies buffer
    ensures 0 < str < buffer.Length && buffer[str..buffer.Length - 1] == FormatText(format, number)
  {
    hide FormatText, Suffix;
    NumberFits(format, number);
    str := FormatNumber(buffer, 0, buffer.Length, format, number);
    SuffixFits(FormatText(format, number), buffer.Length - 1);
    assert "" + FormatText(format, number) == FormatText(format, number);
  }

  const TWO_TO_64: nat := 0x1_0000_0000_0000_0000

  lemma NegatedInRange(value: int)
    requires -0x8000_0000 <= value < 0x8000_0000
    ensures value >= 0 ==> value % TWO_TO_64 == value
    ensures value < 0 ==> (TWO_TO_64 - 1 - value % TWO_TO_64 + 1) % TWO_TO_64 == -value
  {
    assert value < 0 ==> value % TWO_TO_64 == value + TWO_TO_64;
  }

  lemma SignedMeans(format: Format, value: int)
    ensures SignedText(format, value) ==
            if value < 0 then ['-'] + FormatText(format, -value) else FormatText(format, value)
  {
  }
}
