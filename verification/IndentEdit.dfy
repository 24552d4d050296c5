/**
  Indenting and unindenting a formatted line in place, in the three indent modes: spaces, tabs,
  and "force-tab-x", where the indent is kept as tabs of another length than the indent.
*/
module IndentEdit {
  import opened Common

  function Spaces(n: nat): string {
    seq(n, _ => ' ')
  }

  function Tabs(n: nat): string {
    seq(n, _ => '\t')
  }

  // ---------- What a line is made of ----------

  /** The line without its leading blanks; empty exactly when the line is blank. */
  function Body(line: string): string {
    if line != [] && IsWhiteSpace(line[0]) then Body(line[1..]) else line
  }

  /** The width of the leading blanks, where a tab counts `tabLength`. */
  function Width(line: string, tabLength: nat): nat {
    if line == [] || !IsWhiteSpace(line[0]) then 0
    else (if line[0] == '\t' then tabLength else 1) + Width(line[1..], tabLength)
  }

  /** Tabs, then fewer than `tabLength` spaces, then the body. */
  function Tabbed(width: nat, tabLength: nat, body: string): string
    requires tabLength > 0
  {
    Tabs(width / tabLength) + Spaces(width % tabLength) + body
  }

  predicate StartsWithText(body: string) {
    body != [] && !IsWhiteSpace(body[0])
  }

  lemma {:induction false} LeadingIsRest(line: string)
    ensures line[Leading(line)..] == Body(line)
    ensures Body(line) != [] <==> Leading(line) < |line|
    ensures Body(line) != [] ==> StartsWithText(Body(line))
    ensures forall i :: 0 <= i < Leading(line) ==> IsWhiteSpace(line[i])
    decreases |line|
  {
    if line != [] && IsWhiteSpace(line[0]) {
      LeadingIsRest(line[1..]);
      assert line[1..][Leading(line[1..])..] == line[Leading(line)..];
      assert forall i :: 1 <= i < Leading(line) ==> line[i] == line[1..][i - 1];
    }
  }

  lemma {:induction false} LeadingSpaces(n: nat, rest: string, tabLength: nat)
    ensures Leading(Spaces(n) + rest) == n + Leading(rest)
    ensures Width(Spaces(n) + rest, tabLength) == n + Width(rest, tabLength)
    ensures Body(Spaces(n) + rest) == Body(rest)
    decreases n
  {
    if n == 0 {
      assert Spaces(0) + rest == rest;
    } else {
      assert (Spaces(n) + rest)[1..] == Spaces(n - 1) + rest;
      LeadingSpaces(n - 1, rest, tabLength);
    }
  }

  lemma {:induction false} LeadingTabs(n: nat, rest: string, tabLength: nat)
    ensures Leading(Tabs(n) + rest) == n + Leading(rest)
    ensures Width(Tabs(n) + rest, tabLength) == n * tabLength + Width(rest, tabLength)
    ensures Body(Tabs(n) + rest) == Body(rest)
    decreases n
  {
    if n == 0 {
      assert Tabs(0) + rest == rest;
    } else {
      assert (Tabs(n) + rest)[1..] == Tabs(n - 1) + rest;
      LeadingTabs(n - 1, rest, tabLength);
      assert n * tabLength == (n - 1) * tabLength + tabLength;
    }
  }

  lemma TabSplit(width: nat, tabLength: nat)
    requires tabLength > 0
    ensures (width / tabLength) * tabLength <= width
    ensures width == (width / tabLength) * tabLength + width % tabLength
  {
  }

  lemma TabbedParts(width: nat, tabLength: nat, body: string)
    requires tabLength > 0 && StartsWithText(body)
    ensures Width(Tabbed(width, tabLength, body), tabLength) == width
    ensures Body(Tabbed(width, tabLength, body)) == body
  {
    var tabs, spaces := width / tabLength, width % tabLength;
    assert Tabbed(width, tabLength, body) == Tabs(tabs) + (Spaces(spaces) + body);
    LeadingTabs(tabs, Spaces(spaces) + body, tabLength);
    LeadingSpaces(spaces, body, tabLength);
    TabSplit(width, tabLength);
  }

  // ---------- The edits ----------

  datatype Mode = SpaceMode | TabMode | ForceTabMode

  /** The options that the edits depend on. */
  datatype Options = Options(
    indentLength: nat, tabLength: nat, useTabs: bool, forceTab: bool, emptyLineFill: bool)
  {
    predicate Valid() {
      indentLength > 0 && tabLength > 0
    }

    function Mode(): Mode {
      if forceTab && indentLength != tabLength then ForceTabMode
      else if useTabs then TabMode
      else SpaceMode
    }
  }

  /** The indented line. */
  function Indented(o: Options, line: string, n: nat): string
    requires o.Valid()
  {
    if line == "" && !o.emptyLineFill then line
    else match o.Mode()
      case SpaceMode => Spaces(n * o.indentLength) + line
      case TabMode => Tabs(n) + line
      case ForceTabMode => Tabbed(Width(line, o.tabLength) + n * o.indentLength, o.tabLength, Body(line))
  }

  /** The unindented line: nothing is erased if there is less than that to erase. */
  function Unindented(o: Options, line: string, n: nat): string
    requires o.Valid()
  {
    if Leading(line) == 0 then line
    else match o.Mode()
      case SpaceMode => if n * o.indentLength <= Leading(line) then line[n * o.indentLength..] else line
      case TabMode => if n <= Leading(line) then line[n..] else line
      case ForceTabMode =>
        var w := Width(line, o.tabLength);
        Tabbed(if n * o.indentLength <= w then w - n * o.indentLength else w, o.tabLength, Body(line))
  }

  /** What is put in front: tabs or spaces by the options, but nothing in front of an empty line unless it is filled. */
  lemma IndentedIs(o: Options, line: string, n: nat)
    requires o.Valid()
    ensures o.Mode() == ForceTabMode <==> o.forceTab && o.indentLength != o.tabLength
    ensures line == "" && !o.emptyLineFill ==> Indented(o, line, n) == ""
    ensures (line != "" || o.emptyLineFill) && o.Mode() != ForceTabMode ==>
              var r, c, k := Indented(o, line, n), if o.useTabs then '\t' else ' ',
                             if o.useTabs then n else n * o.indentLength;
              |r| == k + |line| && r[k..] == line && forall i :: 0 <= i < k ==> r[i] == c
  {
  }

  /** A line whose indent is already written as tabs and fewer than `tabLength` spaces. */
  predicate IsCanonical(o: Options, line: string)
    requires o.Valid()
  {
    line == Tabbed(Width(line, o.tabLength), o.tabLength, Body(line))
  }

  /**
    Unindenting undoes indenting.  In force-tab mode it gives the line in canonical form, so
    there the line itself comes back exactly when it was canonical.
  */
  lemma UnindentUndoesIndent(o: Options, line: string, n: nat)
    requires o.Valid() && Body(line) != []
    ensures o.Mode() != ForceTabMode ==> Unindented(o, Indented(o, line, n), n) == line
    ensures o.Mode() == ForceTabMode && n > 0 ==>
              (Unindented(o, Indented(o, line, n), n) == line <==> IsCanonical(o, line))
  {
    LeadingIsRest(line);
    match o.Mode()
    case SpaceMode => LeadingSpaces(n * o.indentLength, line, o.tabLength);
    case TabMode => LeadingTabs(n, line, o.tabLength);
    case ForceTabMode =>
      if n > 0 {
        ForceTabRoundTrip(o, line, n);
      }
  }

  lemma ForceTabRoundTrip(o: Options, line: string, n: nat)
    requires o.Valid() && StartsWithText(Body(line)) && o.Mode() == ForceTabMode && n > 0
    ensures Unindented(o, Indented(o, line, n), n) == Tabbed(Width(line, o.tabLength), o.tabLength, Body(line))
  {
    hide Tabbed, Width, Body, Leading;
    var w, body := Width(line, o.tabLength), Body(line);
    var more := n * o.indentLength;
    Positive(n, o.indentLength);
    assert line != "" by { NotEmpty(line); }
    TabbedParts(w + more, o.tabLength, body);
    PositiveWidth(Tabbed(w + more, o.tabLength, body), o.tabLength);
  }

  /** A line with eight spaces where a tab is eight wide: it comes back with a tab. */
  lemma NotCanonical()
    ensures var o := Options(4, 8, true, true, false);
            var line := Spaces(8) + "x";
            && o.Valid() && o.Mode() == ForceTabMode && Body(line) == "x" && !IsCanonical(o, line)
            && Unindented(o, Indented(o, line, 1), 1) == "\tx"
  {
    var o, line := Options(4, 8, true, true, false), Spaces(8) + "x";
    hide Indented, Unindented;
    LeadingSpaces(8, "x", 8);
    assert line[0] == ' ';
    assert Tabbed(8, 8, "x") == "\tx" by { OneTab(); }
    ForceTabRoundTrip(o, line, 1);
  }

  lemma OneTab()
    ensures Tabbed(8, 8, "x") == "\tx"
  {
    assert Tabs(1) == "\t" && Spaces(0) == "";
  }

  lemma NotEmpty(line: string)
    requires Body(line) != []
    ensures line != ""
  {
  }

  lemma Positive(a: nat, b: nat)
    requires a > 0 && b > 0
    ensures a * b > 0
  {
  }

  lemma PositiveWidth(line: string, tabLength: nat)
    ensures Width(line, tabLength) > 0 ==> Leading(line) > 0
  {
  }

  /** In force-tab mode each edit moves the text by exactly `n` indents and leaves canonical blanks. */
  lemma ForceTabWidths(o: Options, line: string, n: nat)
    requires o.Valid() && Body(line) != [] && o.Mode() == ForceTabMode
    ensures var indented := Indented(o, line, n);
            Width(indented, o.tabLength) == Width(line, o.tabLength) + n * o.indentLength && IsCanonical(o, indented)
    ensures var unindented := Unindented(o, line, n);
            Leading(line) > 0 && n * o.indentLength <= Width(line, o.tabLength) ==>
              && Width(unindented, o.tabLength) == Width(line, o.tabLength) - n * o.indentLength
              && IsCanonical(o, unindented)
  {
    hide Tabbed, Width, Body, Leading;
    LeadingIsRest(line);
    NotEmpty(line);
    var w, more, body := Width(line, o.tabLength), n * o.indentLength, Body(line);
    TabbedParts(w + more, o.tabLength, body);
    if more <= w {
      TabbedParts(w - more, o.tabLength, body);
    }
  }

  lemma ForceTabUnindented(o: Options, line: string, n: nat)
    requires o.Valid() && o.Mode() == ForceTabMode && Leading(line) > 0
    ensures var w, k := Width(line, o.tabLength), n * o.indentLength;
            var w' := if k <= w then w - k else w;
            && Unindented(o, line, n) == Tabbed(w', o.tabLength, Body(line))
            && (Body(line) != [] ==> Width(Unindented(o, line, n), o.tabLength) == w')
  {
    hide Tabbed, Width, Body, Leading;
    LeadingIsRest(line);
    var w, k := Width(line, o.tabLength), n * o.indentLength;
    if Body(line) != [] {
      TabbedParts(if k <= w then w - k else w, o.tabLength, Body(line));
    }
  }

  lemma UnindentedOtherwise(o: Options, line: string, n: nat)
    requires o.Valid()
    ensures Leading(line) == 0 ==> Unindented(o, line, n) == line
    ensures Leading(line) > 0 && o.Mode() != ForceTabMode ==>
              var k := if o.Mode() == TabMode then n else n * o.indentLength;
              Unindented(o, line, n) == if k <= Leading(line) then line[k..] else line
  {
  }

  /** A tab in the place of each `tabLength` blanks, counted in characters. */
  function Replaced(line: string, tabLength: nat): string
    requires tabLength > 0
  {
    var tabs := Leading(line) / tabLength;
    TabSplit(Leading(line), tabLength);
    Tabs(tabs) + line[tabs * tabLength..]
  }

  /** When the blanks are spaces the width stays the same. */
  lemma ReplacedSpaces(line: string, tabLength: nat)
    requires tabLength > 0 && line == Spaces(Leading(line)) + Body(line)
    ensures Replaced(line, tabLength) == Tabbed(Leading(line), tabLength, Body(line))
  {
    hide Spaces, Tabs, Leading, Body;
    var n := Leading(line);
    var tabs := n / tabLength;
    TabSplit(n, tabLength);
    DropSpaces(n, tabs * tabLength, Body(line));
    AppendParts(tabs, n - tabs * tabLength, Body(line));
  }

  class Enhancer {
    const options: Options

    constructor (options: Options)
      ensures this.options == options
    {
      this.options := options;
    }

    /** Replace tab indents with spaces. */
    method ConvertForceTabIndentToSpaces(line: string) returns (r: string)
      requires options.Valid()
      ensures r == Spaces(Width(line, options.tabLength)) + Body(line)
    {
      r := line;
      var i: nat := 0;
      ghost var rest := line;
      assert Spaces(0) + rest == line;
      while i < |r|
        invariant i <= |r| && r == Spaces(i) + rest
        invariant i + Width(rest, options.tabLength) == Width(line, options.tabLength)
        invariant Body(rest) == Body(line)
        decreases |rest|
      {
        assert r[i] == rest[0];
        if !IsWhiteSpace(r[i]) {
          break;
        }
        ghost var k := if r[i] == '\t' then options.tabLength else 1;
        if r[i] == '\t' {
          r := r[..i] + r[i + 1..];
          r := r[..i] + Spaces(options.tabLength) + r[i..];
          i := i + options.tabLength - 1;
        }
        i := i + 1;
        assert Spaces(i - k) + Spaces(k) == Spaces(i);
        assert r == Spaces(i) + rest[1..];
        rest := rest[1..];
      }
    }

    /** Replace leading blanks with tabs.  On a blank line the number of tabs is beyond any length, and it throws. */
    method ConvertSpaceIndentToForceTab(line: string) returns (r: string, ok: bool)
      requires options.Valid()
      ensures ok <==> Body(line) != []
      ensures ok ==> r == Replaced(line, options.tabLength)
      ensures ok && line == Spaces(Leading(line)) + Body(line) ==>
                r == Tabbed(Leading(line), options.tabLength, Body(line))
    {
      hide Spaces, Tabs, Leading, Body, Tabbed;
      LeadingIsRest(line);
      var newSpaceIndentLength := Leading(line);
      if newSpaceIndentLength == |line| {
        return line, false;
      }
      var tabCount := newSpaceIndentLength / options.tabLength;
      var replaced := tabCount * options.tabLength;
      TabSplit(newSpaceIndentLength, options.tabLength);
      r, ok := Tabs(tabCount) + line[replaced..], true;
      if line == Spaces(newSpaceIndentLength) + Body(line) {
        ReplacedSpaces(line, options.tabLength);
      }
    }

    /** Indent by `indent` indents; `inserted` is the number of characters counted as inserted. */
    method IndentLine(line: string, indent: nat) returns (r: string, inserted: nat, ok: bool)
      requires options.Valid()
      ensures ok <==> options.Mode() != ForceTabMode || Body(line) != [] || (line == "" && !options.emptyLineFill)
      ensures ok ==> r == Indented(options, line, indent)
      ensures ok ==> inserted == (if line == "" && !options.emptyLineFill then 0
                                  else if options.Mode() == TabMode then indent
                                  else indent * options.indentLength)
    {
      r, ok := line, true;
      if line == "" && !options.emptyLineFill {
        return r, 0, true;
      }
      if options.forceTab && options.indentLength != options.tabLength {
        r := ConvertForceTabIndentToSpaces(r);
        inserted := indent * options.indentLength;
        ghost var w, body := Width(line, options.tabLength), Body(line);
        assert Spaces(inserted) + (Spaces(w) + body) == Spaces(w + inserted) + body;
        r := Spaces(inserted) + r;
        LeadingIsRest(line);
        LeadingSpaces(w + inserted, body, options.tabLength);
        TextHasNoBlanks(body);
        r, ok := ConvertSpaceIndentToForceTab(r);
      } else if options.useTabs {
        inserted := indent;
        r := Tabs(inserted) + r;
      } else {
        inserted := indent * options.indentLength;
        r := Spaces(inserted) + r;
      }
    }

    /** Unindent by `unindent` indents; `erased` is the number of characters counted as erased. */
    method UnindentLine(line: string, unindent: nat) returns (r: string, erased: nat, ok: bool)
      requires options.Valid()
      ensures ok <==> options.Mode() != ForceTabMode || Body(line) != [] || line == ""
      ensures ok ==> r == Unindented(options, line, unindent)
      ensures ok ==> erased == if options.Mode() == ForceTabMode
                               then Width(line, options.tabLength) - Width(r, options.tabLength) else |line| - |r|
    {
      hide Tabbed, Tabs, Width, Spaces, Leading, Body, Unindented;
      UnindentedOtherwise(options, line, unindent);
      r, erased, ok := line, 0, true;
      var whitespace := Leading(line);
      LeadingIsRest(line);
      if whitespace == 0 {
        return;
      }
      if options.forceTab && options.indentLength != options.tabLength {
        r := ConvertForceTabIndentToSpaces(r);
        ghost var w, body := Width(line, options.tabLength), Body(line);
        LeadingSpaces(w, body, options.tabLength);
        TextHasNoBlanks(body);
        DropSpaces(w, 0, body);
        var spaceIndentLength := Leading(r);
        erased := unindent * options.indentLength;
        if spaceIndentLength == |r| {
          // a blank line, where everything counts as in range
          r := r[if erased <= |r| then erased else |r|..];
          DropSpaces(w, w - |r|, body);
          LeadingSpaces(|r|, body, options.tabLength);
        } else if erased <= spaceIndentLength {
          r := r[erased..];
          DropSpaces(w, erased, body);
          LeadingSpaces(w - erased, body, options.tabLength);
        } else {
          erased := 0;
        }
        r, ok := ConvertSpaceIndentToForceTab(r);
        ForceTabUnindented(options, line, unindent);
      } else if options.useTabs {
        erased := unindent;
        if erased <= whitespace {
          r := r[erased..];
        } else {
          erased := 0;
        }
      } else {
        erased := unindent * options.indentLength;
        if erased <= whitespace {
          r := r[erased..];
        } else {
          erased := 0;
        }
      }
    }
  }

  lemma DropSpaces(n: nat, k: nat, body: string)
    requires k <= n
    ensures |Spaces(n)| == n && (Spaces(n) + body)[k..] == Spaces(n - k) + body
  {
  }

  lemma AppendParts(tabs: nat, spaces: nat, body: string)
    ensures Tabs(tabs) + (Spaces(spaces) + body) == Tabs(tabs) + Spaces(spaces) + body
  {
  }

  lemma TextHasNoBlanks(body: string)
    ensures body == [] || StartsWithText(body) ==> Leading(body) == 0 && Body(body) == body
    ensures body == [] || StartsWithText(body) ==> Width(body, 1) == 0
  {
  }
}
