/**
  Conversion of a text to one kind of line end.  CRLF, CR and LF each end one line.
*/
module LineEnds {

  datatype LineEnd = CRLF | CR | LF

  function Eol(e: LineEnd): string {
    match e
    case CRLF => "\r\n"
    case CR => "\r"
    case LF => "\n"
  }

  predicate IsEolChar(c: char) {
    c == '\r' || c == '\n'
  }

  // ---------- Texts and their lines ----------

  /** The contents of the lines: one more than there are line ends. */
  function Lines(s: string): (ls: seq<string>)
    ensures ls != []
    decreases |s|
  {
    if s == [] then [[]]
    else if s[0] == '\r' then [[]] + Lines(if |s| > 1 && s[1] == '\n' then s[2..] else s[1..])
    else if s[0] == '\n' then [[]] + Lines(s[1..])
    else
      var ls := Lines(s[1..]);
      [[s[0]] + ls[0]] + ls[1..]
  }

  function Join(ls: seq<string>, eol: string): string
    requires ls != []
  {
    if |ls| == 1 then ls[0] else ls[0] + eol + Join(ls[1..], eol)
  }

  /** The text with the same lines and the given line end between them. */
  function Converted(s: string, e: LineEnd): string {
    Join(Lines(s), Eol(e))
  }

  ghost predicate HasNoEol(line: string) {
    forall i :: 0 <= i < |line| ==> !IsEolChar(line[i])
  }

  ghost predicate AreLines(ls: seq<string>) {
    ls != [] && forall i :: 0 <= i < |ls| ==> HasNoEol(ls[i])
  }

  lemma {:induction false} LinesHaveNoEol(s: string)
    ensures AreLines(Lines(s))
    decreases |s|
  {
    if s == [] {
    } else if s[0] == '\r' {
      LinesHaveNoEol(if |s| > 1 && s[1] == '\n' then s[2..] else s[1..]);
    } else {
      LinesHaveNoEol(s[1..]);
    }
  }

  /** A line followed by nothing or by one line end is read back as that line. */
  lemma {:induction false} OneLine(line: string, rest: string)
    requires HasNoEol(line)
    ensures var ls := Lines(rest); Lines(line + rest) == [line + ls[0]] + ls[1..]
    decreases |line|
  {
    if line == [] {
      assert line + rest == rest;
      assert Lines(rest) == [Lines(rest)[0]] + Lines(rest)[1..];
      assert [] + Lines(rest)[0] == Lines(rest)[0];
    } else {
      assert (line + rest)[1..] == line[1..] + rest;
      OneLine(line[1..], rest);
      var ls := Lines(rest);
      assert [line[0]] + (line[1..] + ls[0]) == line + ls[0];
      assert !IsEolChar(line[0]);
    }
  }

  lemma LineEndIsOne(e: LineEnd, rest: string)
    requires e == CR ==> rest == [] || rest[0] != '\n'
    ensures Lines(Eol(e) + rest) == [[]] + Lines(rest)
  {
    var s := Eol(e) + rest;
    match e
    case CRLF => assert s[2..] == rest;
    case CR => assert s[1..] == rest;
    case LF => assert s[1..] == rest;
  }

  /** Joining and reading back: no line is lost, added or changed. */
  lemma {:induction false} LinesOfJoin(ls: seq<string>, e: LineEnd)
    requires AreLines(ls)
    ensures Lines(Join(ls, Eol(e))) == ls
    decreases |ls|
  {
    var first := ls[0];
    if |ls| == 1 {
      OneLine(first, []);
      assert first + [] == first && ls == [first] + [];
    } else {
      var rest := Join(ls[1..], Eol(e));
      LinesOfJoin(ls[1..], e);
      OneLine(first, Eol(e) + rest);
      JoinStarts(ls[1..], e);
      LineEndIsOne(e, rest);
      assert first + (Eol(e) + rest) == first + Eol(e) + rest;
      assert first + [] == first;
      assert ls == [first] + ls[1..];
    }
  }

  /** With CR line ends no text begins with LF. */
  lemma JoinStarts(ls: seq<string>, e: LineEnd)
    requires AreLines(ls)
    ensures var s := Join(ls, Eol(e)); e == CR ==> s == [] || s[0] != '\n'
  {
    if |ls| > 1 && e == CR {
      if ls[0] == [] {
        assert Join(ls, Eol(e))[0] == '\r';
      } else {
        assert Join(ls, Eol(e))[0] == ls[0][0];
      }
    } else if |ls| == 1 && ls[0] != [] {
      assert HasNoEol(ls[0]);
    }
  }

  /** The lines of the converted text are those of the text. */
  lemma ConvertKeepsLines(s: string, e: LineEnd)
    ensures Lines(Converted(s, e)) == Lines(s)
  {
    LinesHaveNoEol(s);
    LinesOfJoin(Lines(s), e);
  }

  /** Converting twice is converting once to the second kind. */
  lemma ConvertTwice(s: string, a: LineEnd, b: LineEnd)
    ensures Converted(Converted(s, a), b) == Converted(s, b)
  {
    ConvertKeepsLines(s, a);
  }

  // ---------- The loop ----------

  lemma JoinFront(c: char, ls: seq<string>, eol: string)
    requires ls != []
    ensures Join([[]] + ls, eol) == eol + Join(ls, eol)
    ensures Join([[c] + ls[0]] + ls[1..], eol) == [c] + Join(ls, eol)
  {
    assert ([[]] + ls)[1..] == ls;
    assert [] + eol == eol;
    var longer := [[c] + ls[0]] + ls[1..];
    assert longer[1..] == ls[1..];
    if |ls| > 1 {
      var tail := Join(ls[1..], eol);
      assert ([c] + ls[0]) + eol + tail == [c] + (ls[0] + eol + tail);
    }
  }

  lemma ConvertedFront(s: string, n: nat, e: LineEnd)
    requires 0 < n <= |s|
    requires n == (if s[0] == '\r' && |s| > 1 && s[1] == '\n' then 2 else 1)
    ensures Converted(s, e) == (if IsEolChar(s[0]) then Eol(e) else [s[0]]) + Converted(s[n..], e)
  {
    hide Join;
    JoinFront(s[0], Lines(s[n..]), Eol(e));
  }

  method ConvertLineEnds(inStr: string, lineEnd: LineEnd) returns (outStr: string)
    ensures outStr == Converted(inStr, lineEnd)
  {
    hide Converted;
    outStr := "";
    var pos := 0;
    assert inStr[0..] == inStr;
    while pos < |inStr|
      invariant pos <= |inStr|
      invariant outStr + Converted(inStr[pos..], lineEnd) == Converted(inStr, lineEnd)
    {
      ghost var n := if inStr[pos] == '\r' && pos + 1 < |inStr| && inStr[pos + 1] == '\n' then 2 else 1;
      ghost var rest := Converted(inStr[pos + n..], lineEnd);
      ConvertedFront(inStr[pos..], n, lineEnd);
      assert inStr[pos..][n..] == inStr[pos + n..];
      ghost var before, written := outStr, if IsEolChar(inStr[pos]) then Eol(lineEnd) else [inStr[pos]];
      assert before + (written + rest) == (before + written) + rest;
      if inStr[pos] == '\r' {
        if pos + 1 < |inStr| && inStr[pos + 1] == '\n' {
          // CRLF
          if lineEnd == CR {
            outStr := outStr + [inStr[pos]];
          } else if lineEnd == LF {
            outStr := outStr + [inStr[pos + 1]];
          } else {
            outStr := outStr + [inStr[pos]];
            outStr := outStr + [inStr[pos + 1]];
          }
          pos := pos + 1;
        } else {
          // CR
          if lineEnd == CRLF {
            outStr := outStr + [inStr[pos]];
            outStr := outStr + ['\n'];
          } else if lineEnd == LF {
            outStr := outStr + ['\n'];
          } else {
            outStr := outStr + [inStr[pos]];
          }
        }
      } else if inStr[pos] == '\n' {
        // LF
        if lineEnd == CRLF {
          outStr := outStr + ['\r'];
          outStr := outStr + [inStr[pos]];
        } else if lineEnd == CR {
          outStr := outStr + ['\r'];
        } else {
          outStr := outStr + [inStr[pos]];
        }
      } else {
        outStr := outStr + [inStr[pos]];
      }
      assert outStr == before + written;
      pos := pos + 1;
    }
    EmptyConverted(lineEnd);
    assert inStr[pos..] == "" && outStr + "" == outStr;
  }

  lemma EmptyConverted(e: LineEnd)
    ensures Converted("", e) == ""
  {
  }
}
