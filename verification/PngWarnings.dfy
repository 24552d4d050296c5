/**
  libpng's bounded message building: every buffer has a fixed size, and each of these routines is
  an unbounded substitution cut off at the room there is.
*/
module PngWarnings {
  import opened Common
  import opened Numerals
  import Numbers = PngNumbers

  /** The characters of a C string, without the NUL that ends it. */
  type CString = s: string | '\0' !in s

  const PARAMETER_COUNT := 8
  const PARAMETER_SIZE := 32
  const MESSAGE_SIZE := 192
  const MAX_ERROR_TEXT := 196

  function Truncated(s: string, room: nat): string {
    if |s| <= room then s else s[..room]
  }

  /** The longest beginning that there is room for. */
  lemma TruncatedIs(s: string, room: nat)
    ensures Truncated(s, room) <= s && |Truncated(s, room)| <= room
    ensures |Truncated(s, room)| < room ==> Truncated(s, room) == s
  {
  }

  /** What a buffer holds: the characters before the first NUL, or all of them. */
  function TextOf(s: string): string {
    if s == "" || s[0] == '\0' then "" else [s[0]] + TextOf(s[1..])
  }

  lemma {:induction false} TextOfTerminated(s: string, rest: string)
    requires '\0' !in s
    ensures TextOf(s + ['\0'] + rest) == s
  {
    if s != "" {
      assert (s + ['\0'] + rest)[1..] == s[1..] + ['\0'] + rest;
      TextOfTerminated(s[1..], rest);
    }
  }

  // ---------- Appending to a bounded buffer ----------

  /**
    Append as much as fits in front of the NUL, at `pos`; a missing string appends nothing.
    Without a place for the NUL nothing is written.
  */
  method SafeCat(buffer: array<char>, pos: nat, text: Option<CString>) returns (r: nat)
    modifies buffer
    ensures pos >= buffer.Length ==> r == pos && buffer[..] == old(buffer[..])
    ensures pos < buffer.Length ==>
              && pos <= r < buffer.Length && buffer[r] == '\0'
              && buffer[..r] == old(buffer[..pos]) + Truncated(Given(text), buffer.Length - 1 - pos)
              && buffer[r + 1..] == old(buffer[r + 1..])
  {
    r := pos;
    if pos < buffer.Length {
      if text.Some? {
        var k := 0;
        while k < |text.value| && r < buffer.Length - 1
          invariant 0 <= k <= |text.value| && r == pos + k < buffer.Length
          invariant forall j :: pos <= j < r ==> buffer[j] == text.value[j - pos]
          invariant forall j :: 0 <= j < pos || r <= j < buffer.Length ==> buffer[j] == old(buffer[j])
        {
          buffer[r] := text.value[k];
          r, k := r + 1, k + 1;
        }
      }
      buffer[r] := '\0';
      assert buffer[..r] == old(buffer[..pos]) + Truncated(Given(text), buffer.Length - 1 - pos);
    }
  }

  function Given(text: Option<CString>): CString {
    match text case None => "" case Some(s) => s
  }

  /** Several appends in a row, each starting where the one before ended. */
  function CatAll(size: nat, start: string, texts: seq<string>): string
    requires size > 0
    decreases |texts|
  {
    if texts == [] then start
    else CatAll(size, start + Truncated(texts[0], if |start| < size then size - 1 - |start| else 0), texts[1..])
  }

  function Joined(texts: seq<string>): string {
    if texts == [] then "" else texts[0] + Joined(texts[1..])
  }

  /** Appending piece by piece loses nothing that appending all at once would keep. */
  lemma {:induction false} CatAllIsOneCat(size: nat, start: string, texts: seq<string>)
    requires size > 0 && |start| < size
    ensures CatAll(size, start, texts) == Truncated(start + Joined(texts), size - 1)
    decreases |texts|
  {
    if texts != [] {
      var room := size - 1 - |start|;
      var next := start + Truncated(texts[0], room);
      CatAllIsOneCat(size, next, texts[1..]);
      CutTwice(start, texts[0], Joined(texts[1..]), size - 1);
    } else {
      assert start + "" == start;
    }
  }

  lemma CutTwice(a: string, b: string, c: string, room: nat)
    requires |a| <= room
    ensures Truncated((a + Truncated(b, room - |a|)) + c, room) == Truncated(a + (b + c), room)
  {
    assert a + (b + c) == (a + b) + c;
  }

  // ---------- The parameters of a message ----------

  /** A slot after a text was put in front of it. */
  lemma TextOfSlot(slot: string, r: nat, text: CString)
    requires |slot| == PARAMETER_SIZE && r < |slot| && slot[r] == '\0'
    requires slot[..r] == [] + Truncated(text, PARAMETER_SIZE - 1)
    ensures TextOf(slot) == Truncated(text, PARAMETER_SIZE - 1)
  {
    hide TextOf;
    assert slot == slot[..r] + ['\0'] + slot[r + 1..];
    TextOfTerminated(slot[..r], slot[r + 1..]);
  }

  class Parameters {
    const slots: seq<array<char>>

    ghost predicate Valid() {
      && |slots| == PARAMETER_COUNT
      && (forall k :: 0 <= k < |slots| ==> slots[k].Length == PARAMETER_SIZE)
      && (forall j, k :: 0 <= j < k < |slots| ==> slots[j] != slots[k])
    }

    /** Eight parameters, set to nothing in particular. */
    constructor ()
      ensures Valid() && forall k :: 0 <= k < |slots| ==> fresh(slots[k])
    {
      var arrays: seq<array<char>> := [];
      for k := 0 to PARAMETER_COUNT
        invariant |arrays| == k
        invariant forall j :: 0 <= j < k ==> fresh(arrays[j]) && arrays[j].Length == PARAMETER_SIZE
        invariant forall i, j :: 0 <= i < j < k ==> arrays[i] != arrays[j]
      {
        var slot := new char[PARAMETER_SIZE];
        arrays := arrays + [slot];
      }
      slots := arrays;
    }

    /** The text of each parameter; a slot that was never set may fill its whole array. */
    ghost function Texts(): (r: seq<string>)
      reads slots
      requires Valid()
      ensures |r| == PARAMETER_COUNT
    {
      seq(PARAMETER_COUNT, k requires 0 <= k < PARAMETER_COUNT reads slots => TextOf(slots[k][..]))
    }

    /** A number that is no parameter's is ignored. */
    method Set(number: int, text: Option<CString>)
      requires Valid()
      modifies slots
      ensures Texts() == if 1 <= number <= 8
                         then old(Texts())[number - 1 := Truncated(Given(text), 31)]
                         else old(Texts())
    {
      if 0 < number <= PARAMETER_COUNT {
        hide TextOf, Truncated;
        var slot := slots[number - 1];
        var r := SafeCat(slot, 0, text);
        TextOfSlot(slot[..], r, Given(text));
      }
    }

    /** A number's text is short enough to be a parameter whole. */
    method SetSigned(number: int, format: Numbers.Format, value: int)
      requires Valid() && -0x8000_0000 <= value < 0x8000_0000
      modifies slots
      ensures Texts() == if 1 <= number <= 8
                         then old(Texts())[number - 1 := Numbers.SignedText(format, value)]
                         else old(Texts())
    {
      var text := Numbers.FormatSigned(format, value);
      SignedFits(format, value);
      var cstring: CString := text;
      Set(number, Some(cstring));
    }
  }

  lemma {:induction false} NumeralHasNoNul(n: nat, base: Base, minCount: nat)
    ensures '\0' !in Numeral(n, base, minCount)
    decreases n, minCount
  {
    if n != 0 || minCount != 0 {
      DivMod(n, base);
      NumeralHasNoNul(n / base, base, if minCount > 0 then minCount - 1 else 0);
    }
  }

  lemma {:induction false} FixedHasNoNul(n: nat, count: nat, output: bool)
    ensures '\0' !in Numbers.FixedText(n, count, output)
    decreases n, 5 - count
  {
    if n != 0 || count < 5 {
      FixedHasNoNul(n / 10, count + 1, output || n % 10 != 0);
    }
  }

  lemma SignedFits(format: Numbers.Format, value: int)
    requires -0x8000_0000 <= value < 0x8000_0000
    ensures var text := Numbers.SignedText(format, value); '\0' !in text && |text| < PARAMETER_SIZE
  {
    var n := if value < 0 then -value else value;
    Numbers.NumberFits(format, n);
    match format
    case Fixed => FixedHasNoNul(n, 0, false);
    case U => NumeralHasNoNul(n, 10, 1);
    case U02 => NumeralHasNoNul(n, 10, 2);
    case X => NumeralHasNoNul(n, 16, 1);
    case X02 => NumeralHasNoNul(n, 16, 2);
    case OtherFormat =>
  }

  // ---------- The substitution ----------

  /**
    The full message: `@1` to `@8` stand for a parameter, an `@` in front of another character is
    dropped, and an `@` at the end is kept.  Without parameters the message is taken as it is.
  */
  function Expand(message: string, texts: Option<seq<string>>): string
    requires texts.Some? ==> |texts.value| == PARAMETER_COUNT
  {
    if message == "" then ""
    else if texts.Some? && message[0] == '@' && |message| > 1 then
      (if '1' <= message[1] <= '8' then texts.value[message[1] as int - '1' as int] else [message[1]])
      + Expand(message[2..], texts)
    else [message[0]] + Expand(message[1..], texts)
  }

  lemma {:induction false} WithoutParameters(message: string)
    ensures Expand(message, None) == message
  {
    if message != "" {
      WithoutParameters(message[1..]);
    }
  }

  function QuotedChar(c: char): string {
    if c == '@' then "@@" else [c]
  }

  /** Every `@` doubled. */
  function Quoted(text: string): string {
    if text == "" then "" else QuotedChar(text[0]) + Quoted(text[1..])
  }

  lemma QuotedCharIsLiteral(c: char, rest: string, texts: Option<seq<string>>)
    requires texts.Some? && |texts.value| == PARAMETER_COUNT
    ensures Expand(QuotedChar(c) + rest, texts) == [c] + Expand(rest, texts)
  {
    var message := QuotedChar(c) + rest;
    if c == '@' {
      assert message[2..] == rest;
    } else {
      assert message[1..] == rest;
    }
  }

  /** Any text can be written in a message, whatever follows it. */
  lemma {:induction false} QuotedIsLiteral(text: string, rest: string, texts: Option<seq<string>>)
    requires texts.Some? && |texts.value| == PARAMETER_COUNT
    ensures Expand(Quoted(text) + rest, texts) == text + Expand(rest, texts)
  {
    hide Expand, QuotedChar;
    if text == "" {
      assert "" + rest == rest && "" + Expand(rest, texts) == Expand(rest, texts);
    } else {
      var next := Quoted(text[1..]) + rest;
      QuotedIsLiteral(text[1..], rest, texts);
      QuotedCharIsLiteral(text[0], next, texts);
      assert Quoted(text) + rest == QuotedChar(text[0]) + next;
      assert [text[0]] + (text[1..] + Expand(rest, texts)) == text + Expand(rest, texts);
    }
  }

  /** An `@` in front of any other character is dropped, whatever surrounds the two. */
  lemma MarkIsDropped(before: string, c: char, rest: string, texts: Option<seq<string>>)
    requires texts.Some? && |texts.value| == PARAMETER_COUNT && !('1' <= c <= '8')
    ensures Expand(Quoted(before) + (['@', c] + rest), texts) == before + ([c] + Expand(rest, texts))
  {
    hide Quoted;
    QuotedIsLiteral(before, ['@', c] + rest, texts);
    assert (['@', c] + rest)[2..] == rest;
  }

  /** An `@` at the end is kept. */
  lemma LastMarkIsKept(before: string, texts: Option<seq<string>>)
    requires texts.Some? && |texts.value| == PARAMETER_COUNT
    ensures Expand(Quoted(before) + "@", texts) == before + "@"
  {
    hide Quoted;
    QuotedIsLiteral(before, "@", texts);
    ExpandEmpty(texts);
    assert "@"[1..] == "";
  }

  lemma ParameterFirst(k: nat, rest: string, texts: Option<seq<string>>)
    requires texts.Some? && |texts.value| == PARAMETER_COUNT && k < PARAMETER_COUNT
    ensures Expand(['@', '1' + k as char] + rest, texts) == texts.value[k] + Expand(rest, texts)
  {
    assert (['@', '1' + k as char] + rest)[2..] == rest;
  }

  /** A parameter between any two texts. */
  lemma ParameterInPlace(before: string, k: nat, after: string, texts: Option<seq<string>>)
    requires texts.Some? && |texts.value| == PARAMETER_COUNT && k < PARAMETER_COUNT
    ensures Expand(Quoted(before) + (['@', '1' + k as char] + Quoted(after)), texts) ==
            before + (texts.value[k] + after)
  {
    hide Quoted, Expand;
    QuotedIsLiteral(before, ['@', '1' + k as char] + Quoted(after), texts);
    ParameterFirst(k, Quoted(after), texts);
    QuotedIsLiteral(after, "", texts);
    assert Quoted(after) + "" == Quoted(after) && after + "" == after;
    assert Expand("", texts) == "" by { ExpandEmpty(texts); }
  }

  lemma ExpandEmpty(texts: Option<seq<string>>)
    requires texts.Some? ==> |texts.value| == PARAMETER_COUNT
    ensures Expand("", texts) == ""
  {
  }

  // ---------- The formatted warning ----------

  ghost function TextsOf(p: Parameters?): (r: Option<seq<string>>)
    reads p, if p == null then [] else p.slots
    requires p != null ==> p.Valid()
    ensures r.Some? ==> |r.value| == PARAMETER_COUNT
  {
    if p == null then None else Some(p.Texts())
  }

  /** The index of the parameter that a character names, or a larger one. */
  method FindParameter(c: char) returns (parameter: nat)
    requires c != '\0'
    ensures parameter < PARAMETER_COUNT <==> '1' <= c <= '8'
    ensures parameter < PARAMETER_COUNT ==> parameter == c as int - '1' as int
  {
    var validParameters := "123456789\0";
    parameter := 0;
    while validParameters[parameter] != c && validParameters[parameter] != '\0'
      invariant 0 <= parameter <= 9
      invariant forall j :: 0 <= j < parameter ==> validParameters[j] != c
      decreases 9 - parameter
    {
      parameter := parameter + 1;
    }
    assert validParameters == "123456789\0";
    assert forall j :: 0 <= j < 9 ==> validParameters[j] == '1' + j as char;
    assert '1' <= c <= '8' ==> validParameters[c as int - '1' as int] == c;
  }

  lemma TextOfStep(s: string, k: nat)
    requires k < |s| && s[k] != '\0'
    ensures s[..k] + TextOf(s[k..]) == s[..k + 1] + TextOf(s[k + 1..])
  {
    assert s[k..][1..] == s[k + 1..] && s[..k + 1] == s[..k] + [s[k]];
    assert s[..k] + ([s[k]] + TextOf(s[k + 1..])) == s[..k] + [s[k]] + TextOf(s[k + 1..]);
  }

  lemma TextOfStop(s: string, k: nat)
    requires k <= |s| && (k == |s| || s[k] == '\0')
    ensures TextOf(s[k..]) == ""
  {
  }

  lemma CutTail(a: string, b: string, room: nat)
    requires |a| == room || (|a| < room && b == "")
    ensures Truncated(a + b, room) == a
  {
  }

  /** Copy one parameter as far as there is room. */
  method CopyParameter(msg: array<char>, i: nat, parm: array<char>) returns (r: nat)
    requires i < msg.Length && parm != msg
    modifies msg
    ensures i <= r < msg.Length
    ensures msg[..r] == old(msg[..i]) + Truncated(TextOf(parm[..]), msg.Length - 1 - i)
  {
    hide TextOf;
    var k := 0;
    r := i;
    assert parm[..0] == "" && parm[0..] == parm[..];
    while r < msg.Length - 1 && k < parm.Length && parm[k] != '\0'
      invariant 0 <= k <= parm.Length && r == i + k < msg.Length
      invariant msg[..r] == old(msg[..i]) + parm[..k]
      invariant parm[..] == old(parm[..])
      invariant TextOf(parm[..]) == parm[..k] + TextOf(parm[k..])
    {
      TextOfStep(parm[..], k);
      msg[r] := parm[k];
      r, k := r + 1, k + 1;
    }
    if k == parm.Length || parm[k] == '\0' {
      TextOfStop(parm[..], k);
    }
    CutTail(parm[..k], TextOf(parm[k..]), msg.Length - 1 - i);
  }

  /** What is written and what the rest of the message stands for, cut at the room there is. */
  ghost function Whole(written: string, rest: string, texts: Option<seq<string>>): string
    requires texts.Some? ==> |texts.value| == PARAMETER_COUNT
  {
    Truncated(written + Expand(rest, texts), MESSAGE_SIZE - 1)
  }

  /** One step: `piece` is what the consumed part of the message stands for. */
  lemma StepKeepsWhole(written: string, piece: string, rest: string, next: string, texts: Option<seq<string>>)
    requires texts.Some? ==> |texts.value| == PARAMETER_COUNT
    requires |written| < MESSAGE_SIZE && Expand(rest, texts) == piece + Expand(next, texts)
    ensures Whole(written + Truncated(piece, MESSAGE_SIZE - 1 - |written|), next, texts) == Whole(written, rest, texts)
  {
    CutTwice(written, piece, Expand(next, texts), MESSAGE_SIZE - 1);
  }

  lemma PlainKeepsWhole(written: string, c: char, rest: string, next: string, texts: Option<seq<string>>)
    requires texts.Some? ==> |texts.value| == PARAMETER_COUNT
    requires |written| < MESSAGE_SIZE - 1 && Expand(rest, texts) == [c] + Expand(next, texts)
    ensures Whole(written + [c], next, texts) == Whole(written, rest, texts)
  {
    hide Expand, Whole, Truncated;
    OneFits(c, |written|);
    StepKeepsWhole(written, [c], rest, next, texts);
  }

  lemma WholeAtEnd(written: string, rest: string, texts: Option<seq<string>>)
    requires texts.Some? ==> |texts.value| == PARAMETER_COUNT
    requires |written| == MESSAGE_SIZE - 1 || (|written| < MESSAGE_SIZE && rest == "")
    ensures Whole(written, rest, texts) == written
  {
  }

  lemma ExpandStep(message: string, k: nat, texts: Option<seq<string>>)
    requires texts.Some? ==> |texts.value| == PARAMETER_COUNT
    requires k < |message|
    ensures texts.Some? && message[k] == '@' && k + 1 < |message| ==>
              Expand(message[k..], texts) ==
              (if '1' <= message[k + 1] <= '8' then texts.value[message[k + 1] as int - '1' as int]
               else [message[k + 1]])
              + Expand(message[k + 2..], texts)
    ensures texts.None? || message[k] != '@' || k + 1 == |message| ==>
              Expand(message[k..], texts) == [message[k]] + Expand(message[k + 1..], texts)
  {
    assert message[k..][1..] == message[k + 1..];
    if k + 1 < |message| {
      assert message[k..][2..] == message[k + 2..];
    }
  }

  /** The text passed on: the first 191 characters of the full substitution, or all of it. */
  method FormattedWarning(p: Parameters?, message: CString) returns (text: string)
    requires p != null ==> p.Valid()
    ensures text == Truncated(Expand(message, TextsOf(p)), 191)
  {
    hide Expand, Whole, Truncated, TextOf;
    var msg := new char[MESSAGE_SIZE];
    var i, k := 0, 0;
    ghost var texts := TextsOf(p);
    ghost var whole := Whole("", message, texts);
    assert msg[..0] == "" && message[0..] == message;
    while i < msg.Length - 1 && k < |message|
      invariant 0 <= i < msg.Length && 0 <= k <= |message|
      invariant fresh(msg) && TextsOf(p) == texts
      invariant Whole(msg[..i], message[k..], texts) == whole
      decreases |message| - k
    {
      ExpandStep(message, k, texts);
      ghost var written, at := msg[..i], k;
      var copied := false;
      if p != null && message[k] == '@' && k + 1 < |message| {
        k := k + 1;
        var parameter := FindParameter(message[k]);
        if parameter < PARAMETER_COUNT {
          ghost var piece := texts.value[parameter];
          i := CopyParameter(msg, i, p.slots[parameter]);
          StepKeepsWhole(written, piece, message[at..], message[k + 1..], texts);
          copied := true;
        }
      }
      if !copied {
        msg[i] := message[k];
        i := i + 1;
        PlainKeepsWhole(written, message[k], message[at..], message[k + 1..], texts);
        assert msg[..i] == written + [message[k]];
      }
      k := k + 1;
    }
    msg[i] := '\0';
    WholeAtEnd(msg[..i], message[k..], texts);
    WholeAtStart(message, texts);
    text := msg[..i];
  }

  /** A warning with two parameters, a text and a signed number. */
  method WarnAbout(before: string, what: CString, between: string, format: Numbers.Format, value: int, after: string)
    returns (text: string)
    requires '\0' !in before && '\0' !in between && '\0' !in after
    requires -0x8000_0000 <= value < 0x8000_0000
    ensures text == Truncated(
                      before + (Truncated(what, 31)
                                + (between + (Numbers.SignedText(format, value) + after))), 191)
  {
    hide Truncated, Expand, Quoted, TextOf, TwoParameters;
    var p := new Parameters();
    p.Set(1, Some(what));
    p.SetSigned(2, format, value);
    var message := TwoParameters(before, between, after);
    MessageExpands(before, between, after, TextsOf(p));
    MessageHasNoNul(before, between, after);
    text := FormattedWarning(p, message);
  }

  /** The message with the first parameter between two texts, and the second between two. */
  function TwoParameters(before: string, between: string, after: string): string {
    Quoted(before) + (['@', '1'] + (Quoted(between) + (['@', '2'] + Quoted(after))))
  }

  lemma MessageExpands(before: string, between: string, after: string, texts: Option<seq<string>>)
    requires texts.Some? && |texts.value| == PARAMETER_COUNT
    ensures Expand(TwoParameters(before, between, after), texts) ==
            before + (texts.value[0] + (between + (texts.value[1] + after)))
  {
    hide Expand, Quoted;
    var last := ['@', '2'] + Quoted(after);
    QuotedIsLiteral(before, ['@', '1'] + (Quoted(between) + last), texts);
    ParameterFirst(0, Quoted(between) + last, texts);
    QuotedIsLiteral(between, last, texts);
    ParameterFirst(1, Quoted(after), texts);
    QuotedIsLiteral(after, "", texts);
    ExpandEmpty(texts);
    assert Quoted(after) + "" == Quoted(after) && after + "" == after;
  }

  lemma MessageHasNoNul(before: string, between: string, after: string)
    requires '\0' !in before && '\0' !in between && '\0' !in after
    ensures '\0' !in TwoParameters(before, between, after)
  {
    hide Quoted;
    QuotedHasNoNul(before);
    QuotedHasNoNul(between);
    QuotedHasNoNul(after);
  }

  lemma {:induction false} QuotedHasNoNul(text: string)
    requires '\0' !in text
    ensures '\0' !in Quoted(text)
  {
    if text != "" {
      QuotedHasNoNul(text[1..]);
    }
  }

  lemma OneFits(c: char, i: nat)
    requires i < MESSAGE_SIZE - 1
    ensures Truncated([c], MESSAGE_SIZE - 1 - i) == [c]
  {
  }

  lemma WholeAtStart(message: string, texts: Option<seq<string>>)
    requires texts.Some? ==> |texts.value| == PARAMETER_COUNT
    ensures Whole("", message, texts) == Truncated(Expand(message, texts), MESSAGE_SIZE - 1)
  {
    assert "" + Expand(message, texts) == Expand(message, texts);
  }

  // ---------- The message of a chunk ----------

  predicate IsAlpha(c: nat) {
    65 <= c <= 90 || 97 <= c <= 122
  }

  /** One byte of a chunk name: a letter, or its two hexadecimal digits in brackets. */
  function ByteText(c: nat): string
    requires c < 256
  {
    if IsAlpha(c) then [c as char] else ['[', Digit(c / 16), Digit(c % 16), ']']
  }

  /** The letters of ASCII stand for themselves; of any other byte the upper four bits come first. */
  lemma ByteTextIs(c: nat)
    requires c < 256
    ensures var digits := "0123456789ABCDEF";
            ByteText(c) == if 'A' <= c as char <= 'Z' || 'a' <= c as char <= 'z' then [c as char]
                           else ['[', digits[c / 16], digits[c % 16], ']']
  {
  }

  function NameText(name: seq<nat>): string
    requires forall k :: 0 <= k < |name| ==> name[k] < 256
  {
    if name == [] then "" else ByteText(name[0]) + NameText(name[1..])
  }

  /** Read `count` bytes of a name back. */
  function ReadName(s: string, count: nat): Option<(seq<nat>, string)>
    decreases count
  {
    if count == 0 then Some(([], s))
    else if s == "" then None
    else if s[0] == '[' then
      if |s| < 4 then None
      else match ReadName(s[4..], count - 1)
        case None => None
        case Some((rest, after)) =>
          Some(([DigitValue(s[1]) * 16 + DigitValue(s[2])] + rest, after))
    else match ReadName(s[1..], count - 1)
      case None => None
      case Some((rest, after)) => Some(([s[0] as nat] + rest, after))
  }

  lemma ReadByte(c: nat, rest: string, count: nat)
    requires c < 256 && count > 0
    ensures ReadName(ByteText(c) + rest, count) ==
            match ReadName(rest, count - 1) case None => None case Some((name, after)) => Some(([c] + name, after))
  {
    var s := ByteText(c) + rest;
    if IsAlpha(c) {
      assert s[1..] == rest;
    } else {
      assert s[4..] == rest;
      DigitDenotes(c / 16);
      DigitDenotes(c % 16);
    }
  }

  /** The name and the message can both be read back from the text. */
  lemma {:induction false} NameRoundTrip(name: seq<nat>, after: string)
    requires forall k :: 0 <= k < |name| ==> name[k] < 256
    ensures ReadName(NameText(name) + after, |name|) == Some((name, after))
  {
    hide ByteText;
    if name == [] {
      assert "" + after == after;
    } else {
      var first, rest := ByteText(name[0]), NameText(name[1..]) + after;
      assert NameText(name) + after == first + rest;
      ReadByte(name[0], rest, |name|);
      NameRoundTrip(name[1..], after);
      assert [name[0]] + name[1..] == name;
    }
  }

  function NameBytes(name: nat): (r: seq<nat>)
    ensures forall k :: 0 <= k < |r| ==> r[k] < 256
  {
    [name / 0x100_0000 % 256, name / 0x1_0000 % 256, name / 0x100 % 256, name % 256]
  }

  /** The text of a message about a chunk. */
  function ChunkText(name: nat, message: Option<CString>): string {
    NameText(NameBytes(name)) + match message case None => "" case Some(m) => ": " + Truncated(m, MAX_ERROR_TEXT - 1)
  }

  lemma BytesDenote(name: nat)
    requires name < 0x1_0000_0000
    ensures var b := NameBytes(name); |b| == 4 && ((b[0] * 256 + b[1]) * 256 + b[2]) * 256 + b[3] == name
  {
    OneByte(name, 1);
    OneByte(name, 0x100);
    OneByte(name, 0x1_0000);
  }

  /** The digit of the given weight in base 256. */
  lemma OneByte(name: nat, weight: nat)
    requires weight == 1 || weight == 0x100 || weight == 0x1_0000
    ensures name / weight == name / (weight * 256) * 256 + name / weight % 256
  {
  }

  /** The bytes read back are those of the name, the highest first, and the message follows them. */
  lemma ChunkTextReads(name: nat, message: Option<CString>)
    requires name < 0x1_0000_0000
    ensures match ReadName(ChunkText(name, message), 4)
            case None => false
            case Some((b, rest)) =>
              && |b| == 4 && ((b[0] * 256 + b[1]) * 256 + b[2]) * 256 + b[3] == name
              && rest == match message case None => "" case Some(m) => ": " + Truncated(m, 195)
  {
    hide NameText, ReadName, Truncated, NameBytes;
    BytesDenote(name);
    NameRoundTrip(NameBytes(name), match message case None => "" case Some(m) => ": " + Truncated(m, 195));
  }

  lemma {:induction false} NameTextAppend(a: seq<nat>, b: seq<nat>)
    requires (forall j :: 0 <= j < |a| ==> a[j] < 256) && (forall j :: 0 <= j < |b| ==> b[j] < 256)
    ensures NameText(a + b) == NameText(a) + NameText(b)
    decreases |a|
  {
    hide ByteText;
    if a == [] {
      assert a + b == b && "" + NameText(b) == NameText(b);
    } else {
      NameTextAppend(a[1..], b);
      assert (a + b)[1..] == a[1..] + b;
      assert ByteText(a[0]) + (NameText(a[1..]) + NameText(b)) == ByteText(a[0]) + NameText(a[1..]) + NameText(b);
    }
  }

  lemma NameTextStep(name: seq<nat>, k: nat)
    requires forall j :: 0 <= j < |name| ==> name[j] < 256
    requires k < |name|
    ensures NameText(name[..k + 1]) == NameText(name[..k]) + ByteText(name[k])
  {
    hide ByteText;
    assert name[..k + 1] == name[..k] + [name[k]];
    NameTextAppend(name[..k], [name[k]]);
    assert [name[k]][1..] == [] && ByteText(name[k]) + "" == ByteText(name[k]);
  }

  /** Write the text and a NUL; the buffer of the callers always has room. */
  method FormatBuffer(buffer: array<char>, name: nat, message: Option<CString>)
    requires buffer.Length == 18 + MAX_ERROR_TEXT && name < 0x1_0000_0000
    modifies buffer
    ensures exists n ::
              && 0 <= n < buffer.Length && buffer[..n] == ChunkText(name, message) && buffer[n] == '\0'
              && match ReadName(buffer[..n], 4)
                 case None => false
                 case Some((b, rest)) =>
                   && |b| == 4 && ((b[0] * 256 + b[1]) * 256 + b[2]) * 256 + b[3] == name
                   && rest == match message case None => "" case Some(m) => ": " + Truncated(m, 195)
  {
    hide NameText, Truncated, NameBytes, ReadName;
    ChunkTextReads(name, message);
    ghost var prefix := NameText(NameBytes(name));
    var iout := WriteName(buffer, name);
    match message {
      case None =>
        buffer[iout] := '\0';
        assert buffer[..iout] == prefix + "";
      case Some(m) =>
        iout := WriteMessage(buffer, iout, m);
    }
    assert buffer[..iout] == ChunkText(name, message);
  }

  /** A colon and as much of the message as is allowed, and the NUL. */
  method WriteMessage(buffer: array<char>, start: nat, m: CString) returns (iout: nat)
    requires buffer.Length == 18 + MAX_ERROR_TEXT && start <= 16
    modifies buffer
    ensures iout < buffer.Length && buffer[iout] == '\0'
    ensures buffer[..iout] == old(buffer[..start]) + (": " + Truncated(m, MAX_ERROR_TEXT - 1))
  {
    hide Truncated;
    buffer[start], buffer[start + 1] := ':', ' ';
    iout := start + 2;
    var iin := 0;
    while iin < MAX_ERROR_TEXT - 1 && iin < |m|
      invariant 0 <= iin <= |m| && iin < MAX_ERROR_TEXT && iout == start + 2 + iin
      invariant buffer[start] == ':' && buffer[start + 1] == ' '
      invariant forall j :: 0 <= j < start ==> buffer[j] == old(buffer[j])
      invariant forall j :: 0 <= j < iin ==> buffer[start + 2 + j] == m[j]
    {
      buffer[iout] := m[iin];
      iout, iin := iout + 1, iin + 1;
    }
    TruncatedAt(m, iin);
    buffer[iout] := '\0';
    assert buffer[..iout] == old(buffer[..start]) + (": " + m[..iin]);
  }

  lemma TruncatedAt(m: string, n: nat)
    requires n <= |m| && n < MAX_ERROR_TEXT && (n == |m| || n == MAX_ERROR_TEXT - 1)
    ensures Truncated(m, MAX_ERROR_TEXT - 1) == m[..n]
  {
  }

  /** A letter as it is, any other byte as two digits in brackets. */
  method WriteByte(buffer: array<char>, start: nat, c: nat) returns (iout: nat)
    requires c < 256 && start + 4 <= buffer.Length
    modifies buffer
    ensures start <= iout <= start + 4 && buffer[..iout] == old(buffer[..start]) + ByteText(c)
  {
    iout := start;
    if !IsAlpha(c) {
      buffer[iout] := '[';
      buffer[iout + 1] := Digit(c / 16);
      buffer[iout + 2] := Digit(c % 16);
      buffer[iout + 3] := ']';
      iout := iout + 4;
    } else {
      buffer[iout] := c as char;
      iout := iout + 1;
    }
  }

  /** The name, from its highest byte down. */
  method WriteName(buffer: array<char>, name: nat) returns (iout: nat)
    requires buffer.Length == 18 + MAX_ERROR_TEXT && name < 0x1_0000_0000
    modifies buffer
    ensures iout <= 16 && buffer[..iout] == NameText(NameBytes(name))
  {
    hide NameText, ByteText;
    ghost var bytes, k := NameBytes(name), 0;
    iout := 0;
    // the weight of the byte in place of the shift
    var weight := 0x100_0000;
    EmptyName();
    assert buffer[..0] == "" && bytes[..0] == [];
    while weight > 0
      invariant 0 <= k <= 4 && weight == [0x100_0000, 0x1_0000, 0x100, 1, 0][k]
      invariant iout <= 4 * k && buffer[..iout] == NameText(bytes[..k])
      decreases 4 - k
    {
      var c := name / weight % 256;
      assert c == bytes[k];
      NameTextStep(bytes, k);
      iout := WriteByte(buffer, iout, c);
      weight, k := weight / 256, k + 1;
    }
    assert bytes[..4] == bytes;
  }

  lemma EmptyName()
    ensures NameText([]) == ""
  {
  }
}
