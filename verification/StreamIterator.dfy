/**
  Reading the lines of an input stream, and peeking ahead in it.

  CR, LF, CR+LF and LF+CR end a line.  The stream is its content with a position and an
  end-of-file flag that is raised by reading or peeking past the end.
*/
module StreamIterator {
  import opened Common

  predicate IsEolChar(c: char) {
    c == '\r' || c == '\n'
  }

  // ---------- Lines of the content ----------

  /** Where the line that starts at `i` stops: at the next line-end character, or at the end. */
  function Stop(s: string, i: nat): (e: nat)
    requires i <= |s|
    ensures i <= e <= |s|
    ensures forall k :: i <= k < e ==> !IsEolChar(s[k])
    ensures e < |s| ==> IsEolChar(s[e])
    decreases |s| - i
  {
    if i == |s| || IsEolChar(s[i]) then i else Stop(s, i + 1)
  }

  /** The length of the terminator at `e`: two different line-end characters count as one terminator. */
  function EolLength(s: string, e: nat): nat
    requires e < |s|
  {
    if e + 1 < |s| && IsEolChar(s[e + 1]) && s[e + 1] != s[e] then 2 else 1
  }

  function LineAt(s: string, i: nat): string
    requires i <= |s|
  {
    s[i..Stop(s, i)]
  }

  function EolAt(s: string, i: nat): string
    requires i <= |s|
  {
    var e := Stop(s, i);
    if e < |s| then s[e..e + EolLength(s, e)] else ""
  }

  function Next(s: string, i: nat): (n: nat)
    requires i <= |s|
    ensures n <= |s| && n == i + |LineAt(s, i)| + |EolAt(s, i)|
    ensures EolAt(s, i) != "" ==> i < n
  {
    var e := Stop(s, i);
    if e < |s| then e + EolLength(s, e) else e
  }

  /** The lines from `i` on; after a final terminator there is one more, empty, line. */
  function LinesFrom(s: string, i: nat): seq<string>
    requires i <= |s|
    decreases |s| - i
  {
    if EolAt(s, i) == "" then [LineAt(s, i)] else [LineAt(s, i)] + LinesFrom(s, Next(s, i))
  }

  /** Exactly CR+LF and LF+CR are terminators of two characters; CR, LF or nothing otherwise. */
  lemma TerminatorsAre(s: string, i: nat)
    requires i <= |s|
    ensures var e := Stop(s, i);
            && (EolAt(s, i) == "" <==> e == |s|)
            && (EolAt(s, i) == "\r\n" <==> e + 1 < |s| && s[e] == '\r' && s[e + 1] == '\n')
            && (EolAt(s, i) == "\n\r" <==> e + 1 < |s| && s[e] == '\n' && s[e + 1] == '\r')
            && (EolAt(s, i) == "\r" <==> e < |s| && s[e] == '\r' && !(e + 1 < |s| && s[e + 1] == '\n'))
            && (EolAt(s, i) == "\n" <==> e < |s| && s[e] == '\n' && !(e + 1 < |s| && s[e + 1] == '\r'))
            && EolAt(s, i) in {"", "\r\n", "\n\r", "\r", "\n"}
  {
    var e := Stop(s, i);
    if e < |s| {
      assert s[e..e + 1] == [s[e]];
      if e + 1 < |s| {
        assert s[e..e + 2] == [s[e], s[e + 1]];
      }
    }
  }

  /** A look at the line at `i` raises the end-of-file flag: at most a single line-end character comes after it. */
  predicate LastLook(s: string, i: nat)
    requires i <= |s|
  {
    EolAt(s, i) == "" || (|EolAt(s, i)| == 1 && Next(s, i) == |s|)
  }

  // ---------- The kind of line end for the output ----------

  datatype EolCounts = EolCounts(windows: nat, linux: nat, macOld: nat)

  /** Whether the terminator that ends at `n` is counted: it is not when the content ends there. */
  function CountEol(c: EolCounts, eol: string, atEnd: bool): EolCounts {
    if atEnd then c
    else if |eol| == 2 then c.(windows := c.windows + 1)
    else if eol == "\r" then c.(macOld := c.macOld + 1)
    else c.(linux := c.linux + 1)
  }

  /** The terminator at the very end that is not counted: a single character with nothing behind it. */
  function NotCounted(lines: seq<string>, eols: seq<string>): string
    requires |lines| == |eols|
  {
    if |eols| > 1 && lines[|lines| - 1] == "" && |eols[|eols| - 2]| == 1 then eols[|eols| - 2] else ""
  }

  /** How many of the terminators are `eol`, `skipped` left out. */
  function Counted(eols: seq<string>, eol: string, skipped: string): int {
    (multiset(eols)[eol] as int) - (if eol == skipped then 1 else 0)
  }

  /** The counts have grown by what the terminators are. */
  ghost predicate CountsGrew(before: EolCounts, eols: seq<string>, skipped: string, now: EolCounts) {
    && now.windows == before.windows + multiset(eols)["\r\n"] + multiset(eols)["\n\r"]
    && now.linux == before.linux + Counted(eols, "\n", skipped)
    && now.macOld == before.macOld + Counted(eols, "\r", skipped)
  }

  lemma CountsGrowOn(before: EolCounts, eols: seq<string>, now: EolCounts, eol: string, atEnd: bool)
    requires CountsGrew(before, eols, "", now) && eol in {"", "\r\n", "\n\r", "\r", "\n"}
    requires atEnd ==> |eol| == 1
    ensures eol == "" ==> CountsGrew(before, eols + [eol], "", now)
    ensures eol != "" ==> CountsGrew(before, eols + [eol], if atEnd then eol else "", CountEol(now, eol, atEnd))
  {
    assert multiset(eols + [eol]) == multiset(eols) + multiset{eol};
  }

  lemma NoneMore(before: EolCounts, eols: seq<string>, skipped: string, now: EolCounts)
    requires CountsGrew(before, eols, skipped, now)
    ensures CountsGrew(before, eols + [""], skipped, now)
  {
    assert multiset(eols + [""]) == multiset(eols) + multiset{""};
  }

  /** The last terminator if it is a single character and the content ends with it, or none. */
  function Skipped(eols: seq<string>, atEnd: bool): string {
    if eols != [] && atEnd && |eols[|eols| - 1]| == 1 then eols[|eols| - 1] else ""
  }

  /** One more line: the last terminator but one may turn out to be the uncounted one. */
  lemma CountsWithLine(
    before: EolCounts, lines: seq<string>, eols: seq<string>, now: EolCounts,
    line: string, eol: string, wasAtEnd: bool, isAtEnd: bool)
    requires |lines| == |eols| && CountsGrew(before, eols, Skipped(eols, wasAtEnd), now)
    requires eol in {"", "\r\n", "\n\r", "\r", "\n"}
    requires if eol == "" then line == "" <==> wasAtEnd else !wasAtEnd
    ensures eol == "" ==> CountsGrew(before, eols + [eol], NotCounted(lines + [line], eols + [eol]), now)
    ensures eol != "" ==> CountsGrew(before, eols + [eol], Skipped(eols + [eol], isAtEnd),
                                     CountEol(now, eol, isAtEnd && |eol| == 1))
  {
    hide CountsGrew, CountEol;
    if eol == "" {
      NoneMore(before, eols, Skipped(eols, wasAtEnd), now);
    } else {
      CountsGrowOn(before, eols, now, eol, isAtEnd && |eol| == 1);
    }
  }

  /** All the terminators from `i` on, counted. */
  function CountFrom(c: EolCounts, s: string, i: nat): EolCounts
    requires i <= |s|
    decreases |s| - i
  {
    var eol := EolAt(s, i);
    if eol == "" then c
    else CountFrom(CountEol(c, eol, Next(s, i) == |s| && |eol| == 1), s, Next(s, i))
  }

  lemma CountNext(c: EolCounts, s: string, i: nat)
    requires i <= |s|
    ensures var eol := EolAt(s, i);
            CountFrom(c, s, i) == if eol == "" then c
                                  else CountFrom(CountEol(c, eol, Next(s, i) == |s| && |eol| == 1), s, Next(s, i))
  {
  }

  /** All the terminators from `i` on, with no exception. */
  function AllFrom(c: EolCounts, s: string, i: nat): EolCounts
    requires i <= |s|
    decreases |s| - i
  {
    var eol := EolAt(s, i);
    if eol == "" then c else AllFrom(CountEol(c, eol, false), s, Next(s, i))
  }

  /** The single line-end character at which the content ends, or none. */
  function Uncounted(s: string, i: nat): (eol: string)
    requires i <= |s|
    ensures eol != "" ==> eol == "\r" || eol == "\n"
    decreases |s| - i
  {
    if EolAt(s, i) == "" then ""
    else if LastLook(s, i) then EolAt(s, i)
    else Uncounted(s, Next(s, i))
  }

  /** All terminators but that one are counted. */
  lemma {:induction false} AllButUncounted(c: EolCounts, s: string, i: nat)
    requires i <= |s|
    ensures var eol := Uncounted(s, i);
            AllFrom(c, s, i) == if eol == "" then CountFrom(c, s, i) else CountEol(CountFrom(c, s, i), eol, false)
    decreases |s| - i
  {
    hide Next, EolAt;
    var eol := EolAt(s, i);
    if eol != "" {
      EolGrows(s, i);
      var next := Next(s, i);
      if LastLook(s, i) {
        AtEnd(s);
      } else {
        AllButUncounted(CountEol(c, eol, false), s, next);
      }
    }
  }

  lemma EolGrows(s: string, i: nat)
    requires i <= |s|
    ensures EolAt(s, i) != "" ==> i < Next(s, i) <= |s|
  {
  }

  lemma AtEnd(s: string)
    ensures EolAt(s, |s|) == ""
  {
  }

  /** One more `eol` does not make it more frequent than `output`. */
  predicate StaysFirst(output: string, eol: string, c: EolCounts) {
    || eol == "" || eol == output
    || (eol == "\n" && output == "\r\n" && c.windows > c.linux)
    || (eol == "\n" && output == "\r" && c.macOld > c.linux + 1)
    || (eol == "\r" && output == "\r\n" && c.windows > c.macOld)
    || (eol == "\r" && output == "\n" && c.linux > c.macOld)
  }

  /** The output line end is the most frequent of all exactly when the uncounted one does not change that. */
  lemma MostFrequentOfAllIff(output: string, c: EolCounts, s: string, i: nat)
    requires i <= |s| && IsMostFrequent(output, CountFrom(c, s, i))
    ensures IsMostFrequent(output, AllFrom(c, s, i)) <==> StaysFirst(output, Uncounted(s, i), CountFrom(c, s, i))
  {
    hide CountFrom, AllFrom, Uncounted;
    AllButUncounted(c, s, i);
  }

  /** A file of one line with LF: nothing is counted, and the output line end is that of Windows. */
  lemma OneLineIsWindows()
    ensures var c := EolCounts(0, 0, 0);
            && CountFrom(c, "a\n", 0) == c && IsMostFrequent("\r\n", c)
            && AllFrom(c, "a\n", 0) == c.(linux := 1) && !IsMostFrequent("\r\n", c.(linux := 1))
  {
    var s, c := "a\n", EolCounts(0, 0, 0);
    assert Stop(s, 1) == 1 && Stop(s, 0) == 1;
    assert EolAt(s, 0) == "\n" && Next(s, 0) == 2;
    AtEnd(s);
    assert CountFrom(c, s, 2) == c && AllFrom(c.(linux := 1), s, 2) == c.(linux := 1);
  }

  /** The most frequent kind counted; among equals Windows comes before Linux before old Mac. */
  ghost predicate IsMostFrequent(eol: string, c: EolCounts) {
    || (eol == "\r\n" && c.windows >= c.linux && c.windows >= c.macOld)
    || (eol == "\n" && c.linux > c.windows && c.linux >= c.macOld)
    || (eol == "\r" && c.macOld > c.windows && c.macOld > c.linux)
  }

  lemma MostFrequentIsUnique(a: string, b: string, c: EolCounts)
    requires IsMostFrequent(a, c) && IsMostFrequent(b, c)
    ensures a == b
  {
  }

  // ---------- The iterator ----------

  class Iterator {
    // the input stream
    const content: string
    var pos: nat
    var eof: bool

    var buffer: string
    var prevBuffer: string
    var outputEOL: string
    var eolWindows: nat
    var eolLinux: nat
    var eolMacOld: nat
    var peekStart: nat
    var prevLineDeleted: bool
    var checkForEmptyLine: bool

    ghost predicate Valid()
      reads this
    {
      pos <= |content| && (outputEOL == "" || IsMostFrequent(outputEOL, Counts()))
    }

    ghost function Counts(): EolCounts
      reads this
    {
      EolCounts(eolWindows, eolLinux, eolMacOld)
    }

    constructor (content: string)
      ensures Valid() && this.content == content && pos == 0 && !eof && peekStart == 0
    {
      this.content := content;
      pos, eof, peekStart := 0, false, 0;
      buffer, prevBuffer, outputEOL := "", "", "";
      eolWindows, eolLinux, eolMacOld := 0, 0, 0;
      prevLineDeleted, checkForEmptyLine := false, false;
    }

    predicate HasMoreLines()
      reads this`eof
    {
      !eof
    }

    /** `get`: the character at the position, or the end-of-file flag. */
    method Get(last: char) returns (ch: char)
      requires pos <= |content|
      modifies this`pos, this`eof
      ensures if old(pos) < |content| then ch == content[old(pos)] && pos == old(pos) + 1 && eof == old(eof)
              else ch == last && eof && pos == old(pos)
    {
      if pos < |content| {
        ch := content[pos];
        pos := pos + 1;
      } else {
        ch, eof := last, true;
      }
    }

    /** Read up to and including a line-end character, or to the end of the file. */
    method ReadRecord() returns (line: string, ch: char)
      requires pos <= |content| && !eof
      modifies this`pos, this`eof
      ensures line == LineAt(content, old(pos))
      ensures var e := Stop(content, old(pos));
              if e < |content| then !eof && ch == content[e] && pos == e + 1 else eof && pos == |content|
    {
      hide Stop;
      line := "";
      ch := Get(' ');
      while !eof && ch != '\n' && ch != '\r'
        invariant pos <= |content| && |line| <= |content|
        invariant if eof then pos == |content| && old(pos) + |line| == pos
                  else old(pos) + |line| + 1 == pos && ch == content[pos - 1]
        invariant Stop(content, old(pos)) == Stop(content, old(pos) + |line|)
        invariant line == content[old(pos)..old(pos) + |line|]
        decreases !eof, |content| - pos
      {
        SliceGrows(content, old(pos), |line|);
        line := line + [ch];
        ch := Get(ch);
      }
      StopsHere(content, old(pos) + |line|);
    }

    /** After the line-end character `ch`: take a second one that belongs to it, and count. */
    method TakeLineEnd(ghost start: nat, ch: char)
      requires start <= |content| && !eof && Stop(content, start) < |content|
      requires pos == Stop(content, start) + 1 && ch == content[pos - 1]
      modifies this`pos, this`eof, this`eolWindows, this`eolLinux, this`eolMacOld
      ensures !eof && pos == Next(content, start)
      ensures var more := old(pos) < |content|;
              var pair := more && [ch, content[old(pos)]] in {"\r\n", "\n\r"};
              && eolWindows == old(eolWindows) + (if pair then 1 else 0)
              && eolLinux == old(eolLinux) + (if more && !pair && ch == '\n' then 1 else 0)
              && eolMacOld == old(eolMacOld) + (if more && !pair && ch == '\r' then 1 else 0)
      ensures var eol := EolAt(content, start);
              Counts() == CountEol(old(Counts()), eol, pos == |content| && |eol| == 1)
    {
      if pos < |content| {
        var peekCh := content[pos];
        if ch == '\r' {
          // CR+LF is Windows, otherwise old Mac
          if peekCh == '\n' {
            var _ := Get(' ');
            eolWindows := eolWindows + 1;
          } else {
            eolMacOld := eolMacOld + 1;
          }
        } else {
          // LF is Linux, allow for improbable LF+CR
          if peekCh == '\r' {
            var _ := Get(' ');
            eolWindows := eolWindows + 1;
          } else {
            eolLinux := eolLinux + 1;
          }
        }
      } else {
        // the peek has raised the flag
        eof := false;
      }
    }

    method UpdateOutputEol()
      modifies this`outputEOL
      ensures IsMostFrequent(outputEOL, Counts())
    {
      if eolWindows >= eolLinux {
        if eolWindows >= eolMacOld {
          outputEOL := "\r\n";
        } else {
          outputEOL := "\r";
        }
      } else if eolLinux >= eolMacOld {
        outputEOL := "\n";
      } else {
        outputEOL := "\r";
      }
    }

    /** The next line without its terminator, which is counted unless the content ends with it. */
    method NextLine(emptyLineWasDeleted: bool) returns (line: string)
      requires Valid() && peekStart == 0 && HasMoreLines()
      modifies this
      ensures Valid() && peekStart == 0
      ensures line == buffer == LineAt(content, old(pos))
      ensures pos == Next(content, old(pos))
      ensures HasMoreLines() <==> EolAt(content, old(pos)) != ""
      ensures var eol := EolAt(content, old(pos));
              if eol == "" then Counts() == old(Counts()) && outputEOL == old(outputEOL)
              else Counts() == CountEol(old(Counts()), eol, pos == |content| && |eol| == 1)
                   && IsMostFrequent(outputEOL, Counts())
      ensures prevBuffer == if emptyLineWasDeleted then old(prevBuffer) else old(buffer)
      ensures checkForEmptyLine == (old(checkForEmptyLine) || old(prevLineDeleted))
      ensures prevLineDeleted == emptyLineWasDeleted
    {
      if prevLineDeleted {
        prevLineDeleted := false;
        checkForEmptyLine := true;
      }
      if !emptyLineWasDeleted {
        prevBuffer := buffer;
      } else {
        prevLineDeleted := true;
      }
      var ch;
      buffer, ch := ReadRecord();
      if eof {
        return buffer;
      }
      TakeLineEnd(old(pos), ch);
      UpdateOutputEol();
      return buffer;
    }

    /** Every line to the end of the stream; with their terminators they are the content. */
    method ReadAll() returns (lines: seq<string>, eols: seq<string>)
      requires Valid() && peekStart == 0 && HasMoreLines()
      modifies this
      ensures Valid() && !HasMoreLines()
      ensures lines == LinesFrom(content, old(pos))
      ensures |eols| == |lines| && Interleave(lines, eols) == content[old(pos)..]
      ensures CountsGrew(old(Counts()), eols, NotCounted(lines, eols), Counts())
      ensures Counts() == CountFrom(old(Counts()), content, old(pos))
      ensures |lines| > 1 ==> IsMostFrequent(outputEOL, Counts())
      ensures |lines| > 1 ==>
                (IsMostFrequent(outputEOL, AllFrom(old(Counts()), content, old(pos)))
                 <==> StaysFirst(outputEOL, Uncounted(content, old(pos)), Counts()))
    {
      hide LinesFrom, LineAt, EolAt, Next, Interleave, CountFrom, CountEol, AllFrom, Uncounted, StaysFirst, CountsGrew;
      hide Skipped, NotCounted;
      lines, eols := [], [];
      NothingYet();
      NoneCounted(Counts(), pos == |content|);
      while HasMoreLines()
        invariant Valid() && peekStart == 0 && |eols| == |lines| && old(pos) <= pos
        invariant Interleave(lines, eols) == content[old(pos)..pos]
        invariant if HasMoreLines() then lines + LinesFrom(content, pos) == LinesFrom(content, old(pos))
                  else lines == LinesFrom(content, old(pos)) && pos == |content|
        invariant CountFrom(old(Counts()), content, old(pos)) ==
                  if HasMoreLines() then CountFrom(Counts(), content, pos) else Counts()
        invariant |lines| > 1 || (lines != [] && HasMoreLines()) ==> IsMostFrequent(outputEOL, Counts())
        invariant var skipped := if HasMoreLines() then Skipped(eols, pos == |content|) else NotCounted(lines, eols);
                  CountsGrew(old(Counts()), eols, skipped, Counts())
        decreases HasMoreLines(), |content| - pos
      {
        var start := pos;
        ghost var linesBefore, eolsBefore := lines, eols;
        CountNext(Counts(), content, start);
        TerminatorsAre(content, start);
        AtTheEnd(content, start);
        ghost var counts := Counts();
        var line := NextLine(false);
        CountsWithLine(old(Counts()), lines, eols, counts, line, EolAt(content, start),
                       start == |content|, pos == |content|);
        lines, eols := lines + [line], eols + [EolAt(content, start)];
        InterleaveOneMore(linesBefore, eolsBefore, line, EolAt(content, start));
        OneRecord(content, old(pos), start, linesBefore);
      }
      if |lines| > 1 {
        MostFrequentOfAllIff(outputEOL, old(Counts()), content, old(pos));
      }
    }

    /** Look at the next line.  The first look remembers the position, unless that is 0. */
    method PeekNextLine() returns (line: string)
      requires Valid() && HasMoreLines()
      modifies this`pos, this`eof, this`peekStart
      ensures Valid()
      ensures line == LineAt(content, old(pos)) && pos == Next(content, old(pos))
      ensures peekStart == if old(peekStart) == 0 then old(pos) else old(peekStart)
      ensures HasMoreLines() <==> !LastLook(content, old(pos))
      ensures HasMoreLines() <==> Stop(content, old(pos)) + 1 < |content|
    {
      if peekStart == 0 {
        peekStart := pos;
      }
      var ch;
      line, ch := ReadRecord();
      if eof {
        return;
      }
      if pos < |content| {
        var peekCh := content[pos];
        if (peekCh == '\n' || peekCh == '\r') && peekCh != ch {
          var _ := Get(' ');
        }
      } else {
        eof := true;
      }
    }

    method PeekReset()
      requires peekStart <= |content|
      modifies this`pos, this`eof, this`peekStart
      ensures pos == old(peekStart) && !eof && peekStart == 0
    {
      eof := false;
      pos := peekStart;
      peekStart := 0;
    }

    /**
      A peek session of at most `n` lines and the reset.  It returns lines that the next reads
      will return, and puts everything back -- except when it starts at position 0, which
      the iterator takes for "no session", and a second look follows: then the first line is lost.
    */
    method PeekSession(n: nat) returns (lines: seq<string>)
      requires Valid() && peekStart == 0 && HasMoreLines()
      modifies this`pos, this`eof, this`peekStart
      ensures Valid() && peekStart == 0 && HasMoreLines()
      ensures lines <= LinesFrom(content, old(pos)) && |lines| <= n
      ensures pos == (if old(pos) > 0 || n <= 1 || LastLook(content, 0) then old(pos) else Next(content, 0))
      ensures pos == old(pos) <==> old(pos) > 0 || n <= 1 || LastLook(content, 0)
    {
      hide LineAt, EolAt, Next, Stop, LastLook, LinesFrom;
      assert EolAt(content, 0) != "" || LastLook(content, 0) by { LookMeans(content, 0); }
      lines := [];
      while |lines| < n && HasMoreLines()
        invariant Valid() && |lines| <= n && old(pos) <= pos
        invariant lines <= LinesFrom(content, old(pos))
        invariant HasMoreLines() ==> lines + LinesFrom(content, pos) == LinesFrom(content, old(pos))
        invariant |lines| == 0 ==> pos == old(pos) && peekStart == 0 && HasMoreLines()
        invariant |lines| > 0 ==> peekStart == if old(pos) == 0 && |lines| > 1 then Next(content, 0) else old(pos)
        invariant |lines| == 1 ==> pos == Next(content, old(pos)) && (HasMoreLines() <==> !LastLook(content, old(pos)))
        invariant |lines| > 1 ==> !LastLook(content, old(pos))
        decreases n - |lines|
      {
        ghost var start := pos;
        LookMeans(content, start);
        var line := PeekNextLine();
        FirstLine(content, start);
        ghost var rest := if EolAt(content, start) == "" then [] else LinesFrom(content, Next(content, start));
        Append3(lines, [line], rest);
        LookAtLines(lines, [line], rest);
        lines := lines + [line];
      }
      if lines != [] {
        PeekReset();
      }
    }

    /** With the content "a", LF, "b": two looks at the beginning leave the iterator at the second line. */
    method PeekTwice()
      requires Valid() && peekStart == 0 && HasMoreLines() && pos == 0 && content == "a\nb"
      modifies this`pos, this`eof, this`peekStart
      ensures pos == 2
    {
      TwoLines();
      var lines := PeekSession(2);
    }
  }

  lemma SliceGrows(s: string, a: nat, n: nat)
    requires a + n < |s|
    ensures s[a..a + n] + [s[a + n]] == s[a..a + (n + 1)]
    ensures !IsEolChar(s[a + n]) ==> Stop(s, a + n) == Stop(s, a + (n + 1))
  {
  }

  lemma StopsHere(s: string, i: nat)
    requires i <= |s|
    ensures i == |s| || IsEolChar(s[i]) ==> Stop(s, i) == i
  {
  }

  lemma LookAtLines(a: seq<string>, b: seq<string>, c: seq<string>)
    ensures a + b <= a + (b + c)
  {
  }

  lemma LookMeans(s: string, i: nat)
    requires i <= |s|
    ensures !LastLook(s, i) ==> EolAt(s, i) != ""
  {
  }

  lemma TwoLines()
    ensures Stop("a\nb", 0) == 1 && EolAt("a\nb", 0) == "\n" && Next("a\nb", 0) == 2 && !LastLook("a\nb", 0)
  {
    assert Stop("a\nb", 1) == 1;
  }

  lemma OneRecord(s: string, from: nat, i: nat, lines: seq<string>)
    requires from <= i <= |s|
    ensures s[from..Next(s, i)] == s[from..i] + (LineAt(s, i) + EolAt(s, i))
    ensures lines + LinesFrom(s, i) ==
            lines + [LineAt(s, i)] + if EolAt(s, i) == "" then [] else LinesFrom(s, Next(s, i))
    ensures EolAt(s, i) == "" ==> Next(s, i) == |s|
  {
    hide *;
    RecordText(s, i);
    JoinSlices(s, from, i, Next(s, i));
    FirstLine(s, i);
    var rest := if EolAt(s, i) == "" then [] else LinesFrom(s, Next(s, i));
    Append3(lines, [LineAt(s, i)], rest);
  }

  lemma RecordText(s: string, i: nat)
    requires i <= |s|
    ensures i <= Next(s, i) <= |s| && s[i..Next(s, i)] == LineAt(s, i) + EolAt(s, i)
    ensures EolAt(s, i) == "" ==> Next(s, i) == |s|
  {
    var e := Stop(s, i);
    JoinSlices(s, i, e, Next(s, i));
  }

  lemma JoinSlices(s: string, a: nat, b: nat, c: nat)
    requires a <= b <= c <= |s|
    ensures s[a..c] == s[a..b] + s[b..c]
  {
  }

  lemma FirstLine(s: string, i: nat)
    requires i <= |s|
    ensures LinesFrom(s, i) == [LineAt(s, i)] + if EolAt(s, i) == "" then [] else LinesFrom(s, Next(s, i))
  {
  }

  lemma NoneCounted(c: EolCounts, atEnd: bool)
    ensures CountsGrew(c, [], Skipped([], atEnd), c)
  {
  }

  lemma AtTheEnd(s: string, i: nat)
    requires i <= |s|
    ensures i == |s| ==> LineAt(s, i) == "" && EolAt(s, i) == ""
    ensures LineAt(s, i) == "" && EolAt(s, i) == "" ==> i == |s|
  {
  }

  lemma NothingYet()
    ensures Interleave([], []) == ""
  {
  }

  function Interleave(lines: seq<string>, eols: seq<string>): string
    requires |lines| == |eols|
  {
    if lines == [] then "" else lines[0] + eols[0] + Interleave(lines[1..], eols[1..])
  }

  lemma {:induction false} InterleaveOneMore(lines: seq<string>, eols: seq<string>, line: string, eol: string)
    requires |lines| == |eols|
    ensures Interleave(lines + [line], eols + [eol]) == Interleave(lines, eols) + (line + eol)
    decreases |lines|
  {
    if lines != [] {
      InterleaveOneMore(lines[1..], eols[1..], line, eol);
      assert (lines + [line])[1..] == lines[1..] + [line] && (eols + [eol])[1..] == eols[1..] + [eol];
    }
  }
}
