/**
  Digits in groups, as a locale asks for.
*/
module NumberFormat {
  import opened Numerals

  /** How many digits a group has. */
  type Size = n: nat | n > 0 witness 1

  /** The last size goes on for all remaining groups. */
  function SizeAt(sizes: seq<Size>, k: nat): Size
    requires sizes != []
  {
    sizes[if k < |sizes| then k else |sizes| - 1]
  }

  function Next(sizes: seq<Size>): seq<Size> {
    if |sizes| > 1 then sizes[1..] else sizes
  }

  function Concat(parts: seq<string>): string {
    if parts == [] then "" else Concat(parts[..|parts| - 1]) + parts[|parts| - 1]
  }

  function Join(parts: seq<string>, separator: string): string {
    if parts == [] then ""
    else if |parts| == 1 then parts[0]
    else Join(parts[..|parts| - 1], separator) + separator + parts[|parts| - 1]
  }

  /**
    Counted from the right, group `k` has the `k`-th size, the last size being repeated; only the
    leftmost may have fewer digits, but at least one.  Without sizes there is one group.
  */
  ghost predicate IsGrouping(parts: seq<string>, s: string, sizes: seq<Size>) {
    && Concat(parts) == s
    && parts != []
    && parts[0] != ""
    && (sizes == [] ==> |parts| == 1)
    && (sizes != [] ==>
          && |parts[0]| <= SizeAt(sizes, |parts| - 1)
          && forall k :: 0 <= k < |parts| - 1 ==> |parts[|parts| - 1 - k]| == SizeAt(sizes, k))
  }

  function Groups(s: string, sizes: seq<Size>): seq<string> {
    if sizes == [] || |s| <= sizes[0] then [s]
    else Groups(s[..|s| - sizes[0]], Next(sizes)) + [s[|s| - sizes[0]..]]
  }

  lemma SizesAre(sizes: seq<Size>, k: nat)
    requires sizes != []
    ensures k < |sizes| ==> SizeAt(sizes, k) == sizes[k]
    ensures k >= |sizes| ==> SizeAt(sizes, k) == sizes[|sizes| - 1]
  {
  }

  lemma NextSize(sizes: seq<Size>, k: nat)
    requires sizes != []
    ensures Next(sizes) != [] && SizeAt(Next(sizes), k) == SizeAt(sizes, k + 1)
  {
  }

  /** One more group at the right. */
  lemma GroupBehind(parts: seq<string>, s: string, last: string, sizes: seq<Size>)
    requires sizes != [] && |last| == sizes[0] && IsGrouping(parts, s, Next(sizes))
    ensures IsGrouping(parts + [last], s + last, sizes)
  {
    var all := parts + [last];
    assert all[..|all| - 1] == parts;
    NextSize(sizes, |parts| - 1);
    forall k | 0 <= k < |all| - 1 ensures |all[|all| - 1 - k]| == SizeAt(sizes, k) {
      if k > 0 {
        NextSize(sizes, k - 1);
        assert all[|all| - 1 - k] == parts[|parts| - 1 - (k - 1)];
      }
    }
  }

  /** Leaving out the group at the right. */
  lemma GroupBefore(parts: seq<string>, s: string, sizes: seq<Size>)
    requires |parts| > 1 && IsGrouping(parts, s, sizes)
    ensures var front, last := parts[..|parts| - 1], parts[|parts| - 1];
            |last| == sizes[0] && s == Concat(front) + last && IsGrouping(front, Concat(front), Next(sizes))
  {
    var front := parts[..|parts| - 1];
    NextSize(sizes, |front| - 1);
    assert |parts[|parts| - 1 - 0]| == SizeAt(sizes, 0);
    forall k | 0 <= k < |front| - 1 ensures |front[|front| - 1 - k]| == SizeAt(Next(sizes), k) {
      NextSize(sizes, k);
      assert front[|front| - 1 - k] == parts[|parts| - 1 - (k + 1)];
    }
  }

  lemma {:induction false} GroupsAreGrouping(s: string, sizes: seq<Size>)
    requires s != ""
    ensures IsGrouping(Groups(s, sizes), s, sizes)
    decreases |s|
  {
    if sizes == [] || |s| <= sizes[0] {
      assert [s][..0] == [] && Concat([s]) == "" + s == s;
    } else {
      var front, last := s[..|s| - sizes[0]], s[|s| - sizes[0]..];
      GroupsAreGrouping(front, Next(sizes));
      GroupBehind(Groups(front, Next(sizes)), front, last, sizes);
      assert front + last == s;
    }
  }

  lemma {:induction false} NonEmptyText(parts: seq<string>)
    requires parts != [] && parts[0] != ""
    ensures Concat(parts) != ""
  {
    if |parts| > 1 {
      NonEmptyText(parts[..|parts| - 1]);
    }
  }

  /** There is only one grouping. */
  lemma {:induction false} OnlyGrouping(parts: seq<string>, s: string, sizes: seq<Size>)
    requires IsGrouping(parts, s, sizes)
    ensures parts == Groups(s, sizes)
    decreases |parts|
  {
    if |parts| == 1 {
      assert parts[..0] == [] && "" + parts[0] == parts[0];
      assert parts == [s];
    } else {
      var front, last := parts[..|parts| - 1], parts[|parts| - 1];
      GroupBefore(parts, s, sizes);
      NonEmptyText(front);
      OnlyGrouping(front, Concat(front), Next(sizes));
      assert s[..|s| - sizes[0]] == Concat(front) && s[|s| - sizes[0]..] == last;
      assert parts == front + [last];
    }
  }

  /** A size that is no smaller than the number: no further grouping. */
  lemma NoFurtherGrouping(parts: seq<string>, s: string, sizes: seq<Size>, k: nat)
    requires IsGrouping(parts, s, sizes) && sizes != [] && SizeAt(sizes, k) >= |s|
    ensures |parts| <= k + 1
  {
    if |parts| > k + 1 {
      PartIsShorter(parts, |parts| - 1 - k);
    }
  }

  lemma {:induction false} PartIsShorter(parts: seq<string>, at: nat)
    requires 0 < at < |parts| && parts[0] != ""
    ensures |parts[at]| < |Concat(parts)|
  {
    if at == |parts| - 1 {
      NonEmptyText(parts[..at]);
    } else {
      PartIsShorter(parts[..|parts| - 1], at);
    }
  }

  // ---------- Deleting the separators ----------

  function Without(s: string, separator: string): string {
    if s == "" then "" else (if s[0] in separator then "" else [s[0]]) + Without(s[1..], separator)
  }

  lemma {:induction false} WithoutAppend(a: string, b: string, separator: string)
    ensures Without(a + b, separator) == Without(a, separator) + Without(b, separator)
  {
    if a == "" {
      assert "" + b == b && "" + Without(b, separator) == Without(b, separator);
    } else {
      assert (a + b)[1..] == a[1..] + b;
      WithoutAppend(a[1..], b, separator);
    }
  }

  lemma {:induction false} WithoutAll(s: string, separator: string)
    requires forall c :: c in s ==> c in separator
    ensures Without(s, separator) == ""
  {
    if s != "" {
      WithoutAll(s[1..], separator);
    }
  }

  lemma {:induction false} WithoutNone(s: string, separator: string)
    requires forall c :: c in s ==> c !in separator
    ensures Without(s, separator) == s
  {
    if s != "" {
      WithoutNone(s[1..], separator);
    }
  }

  /** The separators can be taken out again. */
  lemma {:induction false} DeletingSeparators(parts: seq<string>, separator: string)
    requires forall c :: c in Concat(parts) ==> c !in separator
    ensures Without(Join(parts, separator), separator) == Concat(parts)
    decreases |parts|
  {
    if |parts| == 1 {
      assert parts[..0] == [] && "" + parts[0] == parts[0];
      WithoutNone(parts[0], separator);
    } else if parts != [] {
      var front, last := parts[..|parts| - 1], parts[|parts| - 1];
      DeletingSeparators(front, separator);
      WithoutNone(last, separator);
      WithoutAll(separator, separator);
      WithoutAppend(Join(front, separator), separator, separator);
      WithoutAppend(Join(front, separator) + separator, last, separator);
      assert Concat(front) + "" == Concat(front);
    }
  }

  // ---------- The formatter ----------

  /** The number as the stream prints it. */
  function Decimal(num: int): string {
    if num < 0 then "-" + Numeral(-num, 10, 1) else Numeral(num, 10, 1)
  }

  lemma DecimalIsNotEmpty(num: int)
    ensures Decimal(num) != ""
  {
    NoLeadingZeros(if num < 0 then -num else num, 10, 1);
  }

  lemma {:induction false} OnlyDigits(n: nat, minCount: nat)
    ensures forall c :: c in Numeral(n, 10, minCount) ==> '0' <= c <= '9'
    decreases n, minCount
  {
    if n != 0 || minCount != 0 {
      DivMod(n, 10);
      OnlyDigits(n / 10, if minCount > 0 then minCount - 1 else 0);
    }
  }

  /** A separator without digits can be deleted from a formatted number, and leaves the number. */
  lemma FormattedDenotes(num: nat, sizes: seq<Size>, separator: string)
    requires forall c :: c in separator ==> !('0' <= c <= '9')
    ensures var formatted := Join(Groups(Decimal(num), sizes), separator);
            Value(Without(formatted, separator), 10) == num
  {
    DecimalIsNotEmpty(num);
    GroupsAreGrouping(Decimal(num), sizes);
    OnlyDigits(num, 1);
    DeletingSeparators(Groups(Decimal(num), sizes), separator);
    ValueOfNumeral(num, 10, 1);
  }

  /** The leftmost group has all the digits its size allows. */
  predicate LeftmostIsFull(s: string, sizes: seq<Size>) {
    sizes != [] && |s| >= sizes[0] && (|s| == sizes[0] || LeftmostIsFull(s[..|s| - sizes[0]], Next(sizes)))
  }

  /** As the number of digits in the groups tells. */
  lemma {:induction false} FullIffSize(s: string, sizes: seq<Size>)
    requires s != "" && sizes != []
    ensures var parts := Groups(s, sizes);
            parts != [] && (LeftmostIsFull(s, sizes) <==> |parts[0]| == SizeAt(sizes, |parts| - 1))
    decreases |s|
  {
    if |s| > sizes[0] {
      var front, last := s[..|s| - sizes[0]], s[|s| - sizes[0]..];
      FullIffSize(front, Next(sizes));
      var parts := Groups(front, Next(sizes));
      assert Groups(s, sizes) == parts + [last];
      NextSize(sizes, |parts| - 1);
    }
  }

  /** One character more in front: it goes to the leftmost group, or stands alone if that is full. */
  lemma {:induction false} OneInFront(c: char, s: string, sizes: seq<Size>)
    requires s != ""
    ensures Groups(s, sizes) != []
    ensures var parts := Groups(s, sizes);
            Groups([c] + s, sizes) ==
              if LeftmostIsFull(s, sizes) then [[c]] + parts else [[c] + parts[0]] + parts[1..]
    decreases |s|
  {
    var t := [c] + s;
    if sizes == [] || |s| < sizes[0] {
      assert [s][1..] == [];
    } else if |s| == sizes[0] {
      assert t[..1] == [c] && t[1..] == s;
      assert Groups([c], Next(sizes)) == [[c]];
    } else {
      var front, last := s[..|s| - sizes[0]], s[|s| - sizes[0]..];
      assert t[..|t| - sizes[0]] == [c] + front && t[|t| - sizes[0]..] == last;
      OneInFront(c, front, Next(sizes));
      var parts := Groups(front, Next(sizes));
      assert ([[c]] + parts) + [last] == [[c]] + (parts + [last]);
      assert (parts + [last])[1..] == parts[1..] + [last];
      assert ([[c] + parts[0]] + parts[1..]) + [last] == [[c] + parts[0]] + (parts[1..] + [last]);
    }
  }

  /**
    The sign of a negative number is grouped like a digit: it stands alone, in front of a
    separator, exactly when the digits fill their leftmost group.
  */
  lemma SignAloneIff(num: int, sizes: seq<Size>)
    requires num < 0
    ensures Groups(Decimal(num), sizes) != []
    ensures Groups(Decimal(num), sizes)[0] == "-" <==> LeftmostIsFull(Decimal(-num), sizes)
  {
    DecimalIsNotEmpty(-num);
    OneInFront('-', Decimal(-num), sizes);
    GroupsAreGrouping(Decimal(-num), sizes);
  }

  /** -123 in groups of three. */
  lemma SignAlone()
    ensures Join(Groups("-123", [3]), ",") == "-,123"
  {
    assert "-123"[..1] == "-" && "-123"[1..] == "123";
    assert Groups("-", [3]) == ["-"];
    JoinBehind(["-"], "123", ",");
  }

  /** Deleting the separators gives the sign and the digits. */
  lemma SignedDenotes(num: int, sizes: seq<Size>, separator: string)
    requires num < 0 && '-' !in separator && forall c :: c in separator ==> !('0' <= c <= '9')
    ensures var text := Without(Join(Groups(Decimal(num), sizes), separator), separator);
            text != "" && text[0] == '-' && Value(text[1..], 10) == -num
  {
    hide Join, Groups, Without, Value, Numeral;
    DecimalIsNotEmpty(num);
    GroupsAreGrouping(Decimal(num), sizes);
    NegativeText(num);
    DeletingSeparators(Groups(Decimal(num), sizes), separator);
    ValueOfNumeral(-num, 10, 1);
  }

  lemma NegativeText(num: int)
    requires num < 0
    ensures var s := Decimal(num);
            && s != "" && s[0] == '-' && s[1..] == Numeral(-num, 10, 1)
            && forall c :: c in s ==> c == '-' || '0' <= c <= '9'
  {
    hide Numeral;
    OnlyDigits(-num, 1);
  }

  lemma JoinBehind(parts: seq<string>, last: string, separator: string)
    requires parts != []
    ensures Join(parts + [last], separator) == Join(parts, separator) + separator + last
  {
    assert (parts + [last])[..|parts|] == parts;
  }

  lemma {:induction false} GroupsNotEmpty(s: string, sizes: seq<Size>)
    ensures Groups(s, sizes) != []
  {
  }

  /** `grouping` is the locale's string of sizes, in front of the NUL that ends it. */
  method GetNumberFormat(num: int, grouping: seq<Size>, separator: string) returns (formatted: string)
    ensures formatted == Join(Groups(Decimal(num), grouping), separator)
  {
    hide Groups, Join;
    var number := Decimal(num);
    DecimalIsNotEmpty(num);
    formatted := "";
    var ig := 0;
    var i, size := |number|, if grouping == [] then |number| else grouping[0];
    ghost var whole, sizes := Join(Groups(number, grouping), separator), grouping;
    while i > 0
      invariant i == |number| && size > 0
      invariant sizes == [] ==> grouping == [] && (i > 0 ==> size == i)
      invariant sizes != [] ==> ig < |grouping| && sizes == grouping[ig..] && size == sizes[0]
      invariant whole == (if i > 0 then Join(Groups(number, sizes), separator) else "") + formatted
    {
      ghost var s, behind := number, formatted;
      var group := if i < size then number else number[i - size..];
      formatted := group + formatted;
      i := if i < size then 0 else i - size;
      if i > 0 {
        formatted := separator + formatted;
      }
      number := number[..i];
      GroupStep(s, sizes, size, separator);
      if i > 0 {
        Regroup(Join(Groups(number, Next(sizes)), separator), separator, group, behind);
      }
      if ig < |grouping| && ig + 1 < |grouping| {
        ig := ig + 1;
        size := grouping[ig];
      }
      sizes := Next(sizes);
    }
  }

  lemma Regroup(a: string, b: string, c: string, d: string)
    ensures ((a + b) + c) + d == a + (b + (c + d))
  {
  }

  /** The group at the right, by itself or behind the others. */
  lemma GroupStep(s: string, sizes: seq<Size>, size: Size, separator: string)
    requires s != "" && size == if sizes == [] then |s| else sizes[0]
    ensures var joined := Join(Groups(s, sizes), separator);
            if |s| <= size then joined == s
            else joined == Join(Groups(s[..|s| - size], Next(sizes)), separator) + separator + s[|s| - size..]
  {
    if |s| > size {
      var front := s[..|s| - size];
      GroupsNotEmpty(front, Next(sizes));
      JoinBehind(Groups(front, Next(sizes)), s[|s| - size..], separator);
    }
  }
}
