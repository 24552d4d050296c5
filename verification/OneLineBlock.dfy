/**
  The two scanners that tell whether a brace is closed on its own line: one in the enhancer,
  one, with a finer answer, in the formatter.
*/
module OneLineBlock {
  import opened Common

  predicate IsHexDigit(c: char) {
    '0' <= c <= '9' || 'A' <= c <= 'F' || 'a' <= c <= 'f'
  }

  /** A quote between two hex digits separates digits. */
  predicate IsDigitSeparator(line: string, i: nat)
    requires i < |line|
  {
    i > 0 && IsHexDigit(line[i - 1]) && i + 1 < |line| && IsHexDigit(line[i + 1])
  }

  predicate At(line: string, i: nat, two: string)
    requires |two| == 2
  {
    i + 2 <= |line| && line[i] == two[0] && line[i + 1] == two[1]
  }

  // ---------- The text outside quotes, escapes and comments ----------

  datatype Mode = Code | Quote(quoteChar: char) | Comment

  predicate OpensQuote(line: string, i: nat)
    requires i < |line|
  {
    line[i] == '"' || (line[i] == '\'' && !IsDigitSeparator(line, i))
  }

  function Live(line: string, i: nat, mode: Mode): string
    decreases |line| - i
  {
    if i >= |line| then []
    else match mode
      case Comment => if At(line, i, "*/") then Live(line, i + 2, Code) else Live(line, i + 1, Comment)
      case Quote(q) =>
        if line[i] == '\\' then Live(line, i + 2, mode)
        else Live(line, i + 1, if line[i] == q then Code else mode)
      case Code =>
        if line[i] == '\\' then Live(line, i + 2, Code)
        else if OpensQuote(line, i) then Live(line, i + 1, Quote(line[i]))
        else if At(line, i, "//") then []
        else if At(line, i, "/*") then Live(line, i + 2, Comment)
        else [line[i]] + Live(line, i + 1, Code)
  }

  /** The positions in the line of the live characters. */
  function LivePlaces(line: string, i: nat, mode: Mode): (places: seq<nat>)
    ensures |places| == |Live(line, i, mode)|
    ensures forall k :: 0 <= k < |places| ==> places[k] < |line| && line[places[k]] == Live(line, i, mode)[k]
    decreases |line| - i
  {
    if i >= |line| then []
    else match mode
      case Comment => if At(line, i, "*/") then LivePlaces(line, i + 2, Code) else LivePlaces(line, i + 1, Comment)
      case Quote(q) =>
        if line[i] == '\\' then LivePlaces(line, i + 2, mode)
        else LivePlaces(line, i + 1, if line[i] == q then Code else mode)
      case Code =>
        if line[i] == '\\' then LivePlaces(line, i + 2, Code)
        else if OpensQuote(line, i) then LivePlaces(line, i + 1, Quote(line[i]))
        else if At(line, i, "//") then []
        else if At(line, i, "/*") then LivePlaces(line, i + 2, Comment)
        else [i] + LivePlaces(line, i + 1, Code)
  }

  // ---------- Lines made of pieces ----------

  /** A live character, an escaped one, a quoted text or a block comment. */
  datatype Piece = Character(c: char) | Escaped(c: char) | Quoted(q: char, body: string) | Commented(body: string)

  function PieceText(p: Piece): string {
    match p
    case Character(c) => [c]
    case Escaped(c) => ['\\', c]
    case Quoted(q, body) => [q] + (body + [q])
    case Commented(body) => "/*" + (body + "*/")
  }

  /** The characters outside of quotes, escapes and comments. */
  function LiveText(ps: seq<Piece>): string {
    if ps == [] then ""
    else (if ps[0].Character? then [ps[0].c] else "") + LiveText(ps[1..])
  }

  /** A single quote there stands between digits of a hexadecimal number. */
  ghost predicate BetweenDigits(line: string, i: nat) {
    && 0 < i && i + 1 < |line|
    && line[i - 1] in "0123456789ABCDEFabcdef" && line[i + 1] in "0123456789ABCDEFabcdef"
  }

  /** No quote in it save after a backslash, and no backslash at the end that would hide the last quote. */
  ghost predicate IsQuotable(q: char, body: string) {
    || body == ""
    || (body[0] == '\\' && |body| > 1 && IsQuotable(q, body[2..]))
    || (body[0] != '\\' && body[0] != q && IsQuotable(q, body[1..]))
  }

  /** The piece stands at `i`, and could not be the beginning of another one. */
  ghost predicate StandsAt(line: string, i: nat, p: Piece) {
    var text := PieceText(p);
    && i + |text| <= |line| && line[i..i + |text|] == text
    && match p
       case Character(c) =>
         c != '\\' && c != '"' && (c == '\'' ==> BetweenDigits(line, i)) && !At(line, i, "//") && !At(line, i, "/*")
       case Escaped(_) => true
       case Quoted(q, body) => (q == '"' || (q == '\'' && !BetweenDigits(line, i))) && IsQuotable(q, body)
       case Commented(body) => forall k :: i + 2 <= k < i + 2 + |body| ==> !At(line, k, "*/")
  }

  /** The line from `i` on consists of these pieces, and perhaps a line comment. */
  ghost predicate ConsistsOf(line: string, i: nat, ps: seq<Piece>)
    decreases |ps|
  {
    if ps == [] then i == |line| || At(line, i, "//")
    else StandsAt(line, i, ps[0]) && ConsistsOf(line, i + |PieceText(ps[0])|, ps[1..])
  }

  /** What is live are the characters that are pieces of their own. */
  lemma {:induction false} LiveOfPieces(line: string, i: nat, ps: seq<Piece>)
    requires ConsistsOf(line, i, ps)
    ensures Live(line, i, Code) == LiveText(ps)
    decreases |ps|
  {
    hide Live, StandsAt, At, PieceText;
    if ps == [] {
      NothingLive(line, i);
    } else {
      LiveOfPiece(line, i, ps[0]);
      LiveOfPieces(line, i + |PieceText(ps[0])|, ps[1..]);
    }
  }

  lemma NothingLive(line: string, i: nat)
    requires i == |line| || At(line, i, "//")
    ensures Live(line, i, Code) == ""
  {
  }

  lemma LiveOfPiece(line: string, i: nat, p: Piece)
    requires StandsAt(line, i, p)
    ensures Live(line, i, Code) == (if p.Character? then [p.c] else "") + Live(line, i + |PieceText(p)|, Code)
  {
    hide Live, BetweenDigits, At, IsQuotable;
    var text := PieceText(p);
    assert forall k :: 0 <= k < |text| ==> line[i + k] == text[k];
    match p
    case Character(c) => LiveCharacter(line, i);
    case Escaped(_) => EnterEscape(line, i);
    case Quoted(q, body) => LiveQuoted(line, i, q, body);
    case Commented(body) => LiveCommented(line, i, body);
  }

  lemma HexDigits(c: char)
    ensures IsHexDigit(c) <==> c in "0123456789ABCDEFabcdef"
  {
  }

  lemma SeparatesDigits(line: string, i: nat)
    requires i < |line|
    ensures IsDigitSeparator(line, i) <==> BetweenDigits(line, i)
  {
    hide IsHexDigit;
    if 0 < i && i + 1 < |line| {
      HexDigits(line[i - 1]);
      HexDigits(line[i + 1]);
    }
  }

  lemma LiveCharacter(line: string, i: nat)
    requires i < |line| && line[i] != '\\' && line[i] != '"' && (line[i] == '\'' ==> BetweenDigits(line, i))
    requires !At(line, i, "//") && !At(line, i, "/*")
    ensures Live(line, i, Code) == [line[i]] + Live(line, i + 1, Code)
  {
    hide IsDigitSeparator, BetweenDigits;
    SeparatesDigits(line, i);
  }

  lemma EnterEscape(line: string, i: nat)
    requires i < |line| && line[i] == '\\'
    ensures Live(line, i, Code) == "" + Live(line, i + 2, Code)
  {
  }

  lemma LiveQuoted(line: string, i: nat, q: char, body: string)
    requires var text := [q] + (body + [q]); i + |text| <= |line| && line[i..i + |text|] == text
    requires (q == '"' || (q == '\'' && !BetweenDigits(line, i))) && IsQuotable(q, body)
    ensures Live(line, i, Code) == "" + Live(line, i + |body| + 2, Code)
  {
    hide IsDigitSeparator, BetweenDigits;
    var text, e := [q] + (body + [q]), i + 1 + |body|;
    assert forall k :: 0 <= k < |text| ==> line[i + k] == text[k];
    assert line[i..i + |text|][1..|body| + 1] == text[1..|body| + 1] == body;
    assert line[i..i + |text|][1..|body| + 1] == line[i + 1..e];
    assert text[0] == q && text[|body| + 1] == (body + [q])[|body|] == q;
    assert line[i] == q && line[i + (|body| + 1)] == q && i + (|body| + 1) == e;
    SeparatesDigits(line, i);
    QuoteEnds(line, i + 1, e, q);
  }

  lemma {:induction false} QuoteEnds(line: string, i: nat, e: nat, q: char)
    requires i <= e < |line| && IsQuotable(q, line[i..e]) && line[e] == q && q != '\\'
    ensures Live(line, i, Quote(q)) == Live(line, e + 1, Code)
    decreases e - i
  {
    if i < e {
      var body := line[i..e];
      assert body[0] == line[i];
      if body[0] == '\\' {
        assert body[2..] == line[i + 2..e];
        QuoteEnds(line, i + 2, e, q);
      } else {
        assert body[1..] == line[i + 1..e];
        QuoteEnds(line, i + 1, e, q);
      }
    }
  }

  lemma LiveCommented(line: string, i: nat, body: string)
    requires var text := "/*" + (body + "*/"); i + |text| <= |line| && line[i..i + |text|] == text
    requires forall k :: i + 2 <= k < i + 2 + |body| ==> !At(line, k, "*/")
    ensures Live(line, i, Code) == "" + Live(line, i + |body| + 4, Code)
  {
    var text, e := "/*" + (body + "*/"), i + 2 + |body|;
    assert line[i] == text[0] && line[i + 1] == text[1];
    assert line[e] == text[|body| + 2] && line[e + 1] == text[|body| + 3];
    CommentEnds(line, i + 2, e);
  }

  lemma {:induction false} CommentEnds(line: string, i: nat, e: nat)
    requires i <= e && At(line, e, "*/")
    requires forall k :: i <= k < e ==> !At(line, k, "*/")
    ensures Live(line, i, Comment) == Live(line, e + 2, Code)
    decreases e - i
  {
    if i < e {
      CommentEnds(line, i + 1, e);
    }
  }

  // ---------- Balanced braces ----------

  /** Open braces minus closed braces. */
  function Depth(s: string): int {
    if s == [] then 0 else Step(s[0]) + Depth(s[1..])
  }

  lemma {:induction false} DepthCounts(s: string)
    ensures Depth(s) == multiset(s)['{'] as int - multiset(s)['}'] as int
  {
    if s != "" {
      DepthCounts(s[1..]);
      assert s == [s[0]] + s[1..];
    }
  }

  /** Some part from the front closes `depth` open braces. */
  ghost predicate Balances(live: string, depth: int) {
    exists k: nat | k <= |live| :: depth + Depth(live[..k]) == 0
  }

  /** The brace at `i` is closed on the line. */
  ghost predicate ClosedOnLine(line: string, i: nat) {
    Balances(Live(line, i + 1, Code), 1)
  }

  // ---------- Where the brace is closed ----------

  /** The closing brace and what counts as text before it: not blanks, semicolons or open braces. */
  datatype Closing = Closing(pos: nat, text: string)

  function CloseFrom(line: string, i: nat, mode: Mode, depth: nat, text: string): (r: Option<Closing>)
    requires depth > 0
    ensures r.Some? ==> i <= r.value.pos < |line| && line[r.value.pos] == '}'
    decreases |line| - i
  {
    if i >= |line| then None
    else match mode
      case Comment =>
        if At(line, i, "*/") then CloseFrom(line, i + 2, Code, depth, text)
        else CloseFrom(line, i + 1, Comment, depth, text)
      case Quote(q) =>
        if line[i] == '\\' then CloseFrom(line, i + 2, mode, depth, text)
        else CloseFrom(line, i + 1, if line[i] == q then Code else mode, depth, text)
      case Code =>
        var c := line[i];
        if c == '\\' then CloseFrom(line, i + 2, Code, depth, text)
        else if OpensQuote(line, i) then CloseFrom(line, i + 1, Quote(c), depth, text)
        else if At(line, i, "//") then None
        else if At(line, i, "/*") then CloseFrom(line, i + 2, Comment, depth, text)
        else if c == '{' then CloseFrom(line, i + 1, Code, depth + 1, text)
        else if c == '}' && depth == 1 then Some(Closing(i, text))
        else if c == '}' then CloseFrom(line, i + 1, Code, depth - 1, text + [c])
        else if c == ';' || IsWhiteSpace(c) then CloseFrom(line, i + 1, Code, depth, text)
        else CloseFrom(line, i + 1, Code, depth, text + [c])
  }

  function Step(c: char): int {
    if c == '{' then 1 else if c == '}' then -1 else 0
  }

  lemma DepthOfFront(c: char, rest: string, k: nat)
    requires k <= |rest|
    ensures Depth(([c] + rest)[..k + 1]) == Step(c) + Depth(rest[..k])
  {
    assert ([c] + rest)[..k + 1] == [c] + rest[..k];
    assert ([c] + rest[..k])[1..] == rest[..k];
  }

  lemma BalancesFront(c: char, rest: string, depth: nat)
    requires depth > 0
    ensures Balances([c] + rest, depth) <==> Balances(rest, depth + Step(c))
  {
    var s := [c] + rest;
    if Balances(s, depth) {
      var k: nat :| k <= |s| && depth + Depth(s[..k]) == 0;
      assert k > 0;
      DepthOfFront(c, rest, k - 1);
      assert depth + Step(c) + Depth(rest[..k - 1]) == 0;
    }
    if Balances(rest, depth + Step(c)) {
      var k: nat :| k <= |rest| && depth + Step(c) + Depth(rest[..k]) == 0;
      DepthOfFront(c, rest, k);
      assert depth + Depth(s[..k + 1]) == 0;
    }
  }

  lemma BalancesNow(s: string)
    ensures Balances(s, 0)
  {
    assert 0 + Depth(s[..0]) == 0;
  }

  lemma EmptyNeverBalances(depth: nat)
    requires depth > 0
    ensures !Balances("", depth)
  {
    forall k: nat | k <= 0 ensures depth + Depth(""[..k]) != 0 {
    }
  }

  /** The scan finds a closing brace exactly when the live text balances. */
  lemma {:induction false} ClosesIffBalanced(line: string, i: nat, mode: Mode, depth: nat, text: string)
    requires depth > 0
    ensures CloseFrom(line, i, mode, depth, text).Some? <==> Balances(Live(line, i, mode), depth)
    decreases |line| - i
  {
    hide Balances;
    EmptyNeverBalances(depth);
    if i < |line| {
      match mode
      case Comment =>
        if At(line, i, "*/") {
          ClosesIffBalanced(line, i + 2, Code, depth, text);
        } else {
          ClosesIffBalanced(line, i + 1, Comment, depth, text);
        }
      case Quote(q) =>
        if line[i] == '\\' {
          ClosesIffBalanced(line, i + 2, mode, depth, text);
        } else {
          ClosesIffBalanced(line, i + 1, if line[i] == q then Code else mode, depth, text);
        }
      case Code => CodeCase(line, i, depth, text);
    }
  }

  lemma CodeCase(line: string, i: nat, depth: nat, text: string)
    requires depth > 0 && i < |line|
    ensures CloseFrom(line, i, Code, depth, text).Some? <==> Balances(Live(line, i, Code), depth)
    decreases |line| - i, 0
  {
    hide Balances;
    EmptyNeverBalances(depth);
    var c := line[i];
    if c == '\\' {
      ClosesIffBalanced(line, i + 2, Code, depth, text);
    } else if OpensQuote(line, i) {
      ClosesIffBalanced(line, i + 1, Quote(c), depth, text);
    } else if At(line, i, "//") {
    } else if At(line, i, "/*") {
      ClosesIffBalanced(line, i + 2, Comment, depth, text);
    } else {
      var rest := Live(line, i + 1, Code);
      BalancesFront(c, rest, depth);
      if c == '{' {
        ClosesIffBalanced(line, i + 1, Code, depth + 1, text);
      } else if c == '}' && depth == 1 {
        BalancesNow(rest);
      } else if c == '}' {
        ClosesIffBalanced(line, i + 1, Code, depth - 1, text + [c]);
      } else if c == ';' || IsWhiteSpace(c) {
        ClosesIffBalanced(line, i + 1, Code, depth, text);
      } else {
        ClosesIffBalanced(line, i + 1, Code, depth, text + [c]);
      }
    }
  }

  ghost function Closed(line: string, startChar: nat): Option<Closing> {
    CloseFrom(line, startChar + 1, Code, 1, "")
  }

  lemma ClosedIffOnLine(line: string, startChar: nat)
    ensures Closed(line, startChar).Some? <==> ClosedOnLine(line, startChar)
  {
    ClosesIffBalanced(line, startChar + 1, Code, 1, "");
  }

  /** The characters that count as text: not blanks, semicolons or open braces. */
  function Content(s: string): string {
    if s == [] then []
    else (if s[0] == '{' || s[0] == ';' || IsWhiteSpace(s[0]) then [] else [s[0]]) + Content(s[1..])
  }

  /** `k` is the first place of the live text where the braces balance. */
  ghost predicate ClosesAt(live: string, k: nat, depth: int) {
    && k < |live| && live[k] == '}'
    && depth + Depth(live[..k]) == 1
    && forall j :: 0 <= j <= k ==> depth + Depth(live[..j]) > 0
  }

  /** The text in front of the first balance, behind the text before. */
  ghost predicate ClosesWith(live: string, places: seq<nat>, depth: int, before: string, closing: Closing) {
    exists k: nat ::
      k < |places| && ClosesAt(live, k, depth) && closing == Closing(places[k], before + Content(live[..k]))
  }

  lemma ClosesBehind(c: char, rest: string, k: nat, depth: nat)
    requires depth > 0 && ClosesAt(rest, k, depth + Step(c))
    ensures ClosesAt([c] + rest, k + 1, depth) && Content(([c] + rest)[..k + 1]) == Content([c]) + Content(rest[..k])
  {
    hide Depth, Content;
    var s := [c] + rest;
    forall j | 0 <= j <= k + 1 ensures depth + Depth(s[..j]) > 0 {
      if j > 0 {
        DepthOfFront(c, rest, j - 1);
      } else {
        EmptyDepth(s);
      }
    }
    DepthOfFront(c, rest, k);
    ContentOfFront(c, rest, k);
  }

  lemma EmptyDepth(s: string)
    ensures Depth(s[..0]) == 0
  {
  }

  lemma ContentOfFront(c: char, rest: string, k: nat)
    requires k <= |rest|
    ensures Content(([c] + rest)[..k + 1]) == Content([c]) + Content(rest[..k])
  {
    assert ([c] + rest)[..k + 1] == [c] + rest[..k];
    assert ([c] + rest[..k])[1..] == rest[..k] && [c][1..] == [];
  }

  lemma OneContent(c: char)
    ensures Content([c]) == if c == '{' || c == ';' || IsWhiteSpace(c) then [] else [c]
  {
    assert [c][1..] == [] && Content([]) == [];
  }

  lemma ContentBehind(text: string, c: char, more: string)
    ensures (text + [c]) + more == text + ([c] + more) && text + ([] + more) == text + more
  {
    assert [] + more == more;
  }

  /** The scan stops at the first balance, and its text is that of the live characters before. */
  lemma {:induction false} ClosingIsFirst(line: string, i: nat, mode: Mode, depth: nat, text: string)
    requires depth > 0 && CloseFrom(line, i, mode, depth, text).Some?
    ensures var live := Live(line, i, mode);
            ClosesWith(live, LivePlaces(line, i, mode), depth, text, CloseFrom(line, i, mode, depth, text).value)
    decreases |line| - i
  {
    hide ClosesWith;
    match mode
    case Comment =>
      if At(line, i, "*/") {
        ClosingIsFirst(line, i + 2, Code, depth, text);
      } else {
        ClosingIsFirst(line, i + 1, Comment, depth, text);
      }
    case Quote(q) =>
      if line[i] == '\\' {
        ClosingIsFirst(line, i + 2, mode, depth, text);
      } else {
        ClosingIsFirst(line, i + 1, if line[i] == q then Code else mode, depth, text);
      }
    case Code =>
      if line[i] == '\\' {
        ClosingIsFirst(line, i + 2, Code, depth, text);
      } else if OpensQuote(line, i) {
        ClosingIsFirst(line, i + 1, Quote(line[i]), depth, text);
      } else if At(line, i, "/*") {
        ClosingIsFirst(line, i + 2, Comment, depth, text);
      } else {
        LiveClosing(line, i, depth, text);
      }
  }

  lemma LiveClosing(line: string, i: nat, depth: nat, text: string)
    requires depth > 0 && CloseFrom(line, i, Code, depth, text).Some?
    requires i < |line| && line[i] != '\\' && !OpensQuote(line, i) && !At(line, i, "//") && !At(line, i, "/*")
    ensures var live := Live(line, i, Code);
            ClosesWith(live, LivePlaces(line, i, Code), depth, text, CloseFrom(line, i, Code, depth, text).value)
    decreases |line| - i, 0
  {
    hide ClosesWith, Content, Depth;
    var c, rest := line[i], Live(line, i + 1, Code);
    if c == '}' && depth == 1 {
      ClosesNow(rest, i, LivePlaces(line, i + 1, Code), text);
    } else {
      var added := if c == '{' || c == ';' || IsWhiteSpace(c) then [] else [c];
      assert text + [] == text;
      ClosingIsFirst(line, i + 1, Code, depth + Step(c), text + added);
      ClosesLater(c, rest, i, LivePlaces(line, i + 1, Code), depth, text, CloseFrom(line, i, Code, depth, text).value);
    }
  }

  lemma ClosesNow(rest: string, i: nat, places: seq<nat>, text: string)
    ensures ClosesWith(['}'] + rest, [i] + places, 1, text, Closing(i, text))
  {
    assert ClosesAt(['}'] + rest, 0, 1) && ([i] + places)[0] == i;
    EmptyContent(text);
    assert (['}'] + rest)[..0] == [];
  }

  lemma ClosesLater(c: char, rest: string, i: nat, places: seq<nat>, depth: nat, before: string, closing: Closing)
    requires depth > 0
    requires ClosesWith(rest, places, depth + Step(c),
                        before + (if c == '{' || c == ';' || IsWhiteSpace(c) then [] else [c]), closing)
    ensures ClosesWith([c] + rest, [i] + places, depth, before, closing)
  {
    hide Content, Depth;
    var added := if c == '{' || c == ';' || IsWhiteSpace(c) then [] else [c];
    var k: nat :| k < |places| && ClosesAt(rest, k, depth + Step(c))
                  && closing == Closing(places[k], before + added + Content(rest[..k]));
    ClosesBehind(c, rest, k, depth);
    OneContent(c);
    ContentBehind(before, c, Content(rest[..k]));
    assert before + [] == before;
    assert ClosesAt([c] + rest, k + 1, depth) && ([i] + places)[k + 1] == places[k];
  }

  lemma EmptyContent(text: string)
    ensures text + Content([]) == text
  {
  }

  /** One step of the scan. */
  lemma CloseStep(line: string, i: nat, mode: Mode, depth: nat, text: string)
    requires depth > 0 && i < |line|
    ensures CloseFrom(line, i, mode, depth, text) ==
      match mode
      case Comment =>
        if At(line, i, "*/") then CloseFrom(line, i + 2, Code, depth, text)
        else CloseFrom(line, i + 1, Comment, depth, text)
      case Quote(q) =>
        if line[i] == '\\' then CloseFrom(line, i + 2, mode, depth, text)
        else CloseFrom(line, i + 1, if line[i] == q then Code else mode, depth, text)
      case Code =>
        if line[i] == '\\' then CloseFrom(line, i + 2, Code, depth, text)
        else if OpensQuote(line, i) then CloseFrom(line, i + 1, Quote(line[i]), depth, text)
        else if At(line, i, "//") then None
        else if At(line, i, "/*") then CloseFrom(line, i + 2, Comment, depth, text)
        else CloseCode(line, i, depth, text)
  {
  }

  function CloseCode(line: string, i: nat, depth: nat, text: string): Option<Closing>
    requires depth > 0 && i < |line|
  {
    var c := line[i];
    if c == '{' then CloseFrom(line, i + 1, Code, depth + 1, text)
    else if c == '}' && depth == 1 then Some(Closing(i, text))
    else CloseFrom(line, i + 1, Code, if c == '}' then depth - 1 else depth,
                   if c == ';' || IsWhiteSpace(c) then text else text + [c])
  }

  lemma OpenBrace(line: string, i: nat)
    requires i < |line| && line[i] == '{'
    ensures !OpensQuote(line, i) && !At(line, i, "//") && !At(line, i, "/*")
  {
  }

  lemma ClosedStart(line: string, startChar: nat)
    ensures Closed(line, startChar) == CloseFrom(line, startChar + 1, Code, 1, "")
  {
  }

  // ---------- The scanner of the enhancer ----------

  method EnhancerIsOneLineBlockReached(line: string, startChar: nat) returns (r: bool)
    requires startChar < |line| && line[startChar] == '{'
    ensures r <==> ClosedOnLine(line, startChar)
  {
    hide ClosedOnLine, Closed, Live, At, OpensQuote, CloseFrom;
    ClosedIffOnLine(line, startChar);
    ClosedStart(line, startChar);
    var isInComment, isInQuote, quoteChar := false, false, ' ';
    var braceCount := 1;
    var i := startChar + 1;
    ghost var mode, text := Code, "";
    while i < |line|
      invariant braceCount > 0 && mode == ModeOf(isInComment, isInQuote, quoteChar) && !(isInComment && isInQuote)
      invariant CloseFrom(line, i, mode, braceCount, text) == Closed(line, startChar)
      decreases |line| - i
    {
      CloseStep(line, i, mode, braceCount, text);
      var ch := line[i];
      if isInComment {
        if At(line, i, "*/") {
          isInComment := false;
          i := i + 1;
        }
      } else if ch == '\\' {
        i := i + 1;
      } else if isInQuote {
        if ch == quoteChar {
          isInQuote := false;
        }
      } else if OpensQuote(line, i) {
        isInQuote, quoteChar := true, ch;
      } else if At(line, i, "//") {
        break;
      } else if At(line, i, "/*") {
        isInComment := true;
        i := i + 1;
      } else {
        if ch == '{' {
          braceCount := braceCount + 1;
        } else if ch == '}' {
          braceCount := braceCount - 1;
        }
        if braceCount == 0 {
          return true;
        }
        if ch == '}' || !(ch == '{' || ch == ';' || IsWhiteSpace(ch)) {
          text := text + [ch];
        }
      }
      i := i + 1;
      mode := ModeOf(isInComment, isInQuote, quoteChar);
    }
    return false;
  }

  function ModeOf(isInComment: bool, isInQuote: bool, quoteChar: char): Mode {
    if isInComment then Comment else if isInQuote then Quote(quoteChar) else Code
  }

  // ---------- The scanner of the formatter ----------

  /** The first character from `i` on that is no blank. */
  function PeekFrom(line: string, i: nat): Option<char>
    decreases |line| - i
  {
    if i >= |line| then None else if IsWhiteSpace(line[i]) then PeekFrom(line, i + 1) else Some(line[i])
  }

  /** The first character from `i` on that is not blank, which is at `k`. */
  lemma {:induction false} PeekIsFirst(line: string, i: nat, k: nat)
    requires i <= k <= |line|
    requires forall j :: i <= j < k ==> line[j] in {' ', '\t'}
    requires k < |line| ==> line[k] !in {' ', '\t'}
    ensures PeekFrom(line, i) == if k < |line| then Some(line[k]) else None
    decreases k - i
  {
    if i < k {
      PeekIsFirst(line, i + 1, k);
    }
  }

  /** 0: not reached; 2: followed by a comma, outside parentheses; 3: an empty block; 1: any other. */
  ghost function BlockCode(line: string, startChar: nat, parenDepth: int): int {
    match Closed(line, startChar)
    case None => 0
    case Some(Closing(pos, text)) =>
      if parenDepth == 0 && (text == [] || text[|text| - 1] != '}') && PeekFrom(line, pos + 1) == Some(',') then 2
      else if text == [] then 3
      else 1
  }

  lemma {:induction false} DepthOfLast(s: string, c: char)
    ensures Depth(s + [c]) == Depth(s) + Step(c)
  {
    if s == "" {
      assert "" + [c] == [c] && [c][1..] == "" && Depth("") == 0;
    } else {
      assert (s + [c])[1..] == s[1..] + [c];
      DepthOfLast(s[1..], c);
    }
  }

  /** There is only one first balance. */
  lemma OnlyFirst(live: string, j: nat, k: nat, depth: int)
    requires ClosesAt(live, j, depth) && ClosesAt(live, k, depth)
    ensures j == k
  {
    assert live[..j + 1] == live[..j] + ['}'] && live[..k + 1] == live[..k] + ['}'];
    DepthOfLast(live[..j], '}');
    DepthOfLast(live[..k], '}');
  }

  /** The live text after the brace has its first balance at `k`. */
  ghost predicate ClosesLine(line: string, startChar: nat, k: nat) {
    ClosesAt(Live(line, startChar + 1, Code), k, 1)
  }

  /** What counts as text in front of that place. */
  ghost function TextBefore(line: string, startChar: nat, k: nat): string
    requires k < |LivePlaces(line, startChar + 1, Code)|
  {
    Content(Live(line, startChar + 1, Code)[..k])
  }

  /** The block looks like an array: the last text is no closing brace and a comma follows, outside of parentheses. */
  ghost predicate LooksLikeArray(line: string, startChar: nat, k: nat, parenDepth: int)
    requires k < |LivePlaces(line, startChar + 1, Code)|
  {
    var text := TextBefore(line, startChar, k);
    && parenDepth == 0 && (text == [] || text[|text| - 1] != '}')
    && PeekFrom(line, LivePlaces(line, startChar + 1, Code)[k] + 1) == Some(',')
  }

  /** The code of a closed block, in terms of the live text in front of its first balance. */
  lemma CodeOfClosed(line: string, startChar: nat, parenDepth: int, k: nat)
    requires ClosesLine(line, startChar, k)
    ensures BlockCode(line, startChar, parenDepth) ==
              if LooksLikeArray(line, startChar, k, parenDepth) then 2
              else if TextBefore(line, startChar, k) == [] then 3 else 1
  {
    hide Live, LivePlaces, PeekFrom, TextBefore, Closed, ClosesLine;
    ClosedHere(line, startChar, k);
  }

  /** The scan closes the block at that place, with that text. */
  lemma ClosedHere(line: string, startChar: nat, k: nat)
    requires ClosesLine(line, startChar, k)
    ensures k < |LivePlaces(line, startChar + 1, Code)|
    ensures Closed(line, startChar) ==
            Some(Closing(LivePlaces(line, startChar + 1, Code)[k], TextBefore(line, startChar, k)))
  {
    hide Live, LivePlaces, Content, CloseFrom, Depth;
    var live, places := Live(line, startChar + 1, Code), LivePlaces(line, startChar + 1, Code);
    FirstIsBalance(live, k);
    ClosedIffOnLine(line, startChar);
    ClosingIsFirst(line, startChar + 1, Code, 1, "");
    var j: nat :| j < |places| && ClosesAt(live, j, 1)
                  && Closed(line, startChar).value == Closing(places[j], "" + Content(live[..j]));
    OnlyFirst(live, j, k, 1);
    assert "" + Content(live[..k]) == Content(live[..k]);
  }

  lemma FirstIsBalance(live: string, k: nat)
    requires ClosesAt(live, k, 1)
    ensures Balances(live, 1)
  {
    assert live[..k + 1] == live[..k] + ['}'];
    DepthOfLast(live[..k], '}');
    assert 1 + Depth(live[..k + 1]) == 0;
  }

  /** A brace is closed on its line exactly when the live text has a first balance. */
  lemma HasFirstBalance(line: string, startChar: nat)
    ensures ClosedOnLine(line, startChar) <==> exists k: nat :: ClosesLine(line, startChar, k)
  {
    hide Live, LivePlaces, Content, CloseFrom, Balances;
    var live := Live(line, startChar + 1, Code);
    if k: nat :| ClosesLine(line, startChar, k) {
      FirstIsBalance(live, k);
    }
    ClosedIffOnLine(line, startChar);
    if ClosedOnLine(line, startChar) {
      ClosingIsFirst(line, startChar + 1, Code, 1, "");
      var k: nat :| ClosesAt(live, k, 1);
      assert ClosesLine(line, startChar, k);
    }
  }

  /** An empty block: nothing but blanks, semicolons and open braces, and not taken for an array. */
  lemma EmptyBlock(line: string, startChar: nat, parenDepth: int)
    ensures BlockCode(line, startChar, parenDepth) == 3 <==>
            exists k: nat :: ClosesLine(line, startChar, k) && TextBefore(line, startChar, k) == []
                             && !LooksLikeArray(line, startChar, k, parenDepth)
  {
    hide LivePlaces, ClosesLine, LooksLikeArray, TextBefore, BlockCode;
    Codes(line, startChar, parenDepth);
  }

  lemma ArrayBlock(line: string, startChar: nat, parenDepth: int)
    ensures BlockCode(line, startChar, parenDepth) == 2 <==>
            exists k: nat :: ClosesLine(line, startChar, k) && LooksLikeArray(line, startChar, k, parenDepth)
  {
    hide LivePlaces, ClosesLine, LooksLikeArray, TextBefore, BlockCode;
    Codes(line, startChar, parenDepth);
  }

  lemma Codes(line: string, startChar: nat, parenDepth: int)
    ensures forall k: nat :: ClosesLine(line, startChar, k) ==>
              && k < |LivePlaces(line, startChar + 1, Code)|
              && BlockCode(line, startChar, parenDepth) ==
                   if LooksLikeArray(line, startChar, k, parenDepth) then 2
                   else if TextBefore(line, startChar, k) == [] then 3 else 1
    ensures (forall k: nat :: !ClosesLine(line, startChar, k)) ==> BlockCode(line, startChar, parenDepth) == 0
  {
    hide Live, LivePlaces, Content, PeekFrom, CloseFrom, LooksLikeArray, TextBefore;
    forall k: nat | ClosesLine(line, startChar, k)
      ensures BlockCode(line, startChar, parenDepth) ==
                   if LooksLikeArray(line, startChar, k, parenDepth) then 2
                   else if TextBefore(line, startChar, k) == [] then 3 else 1
    {
      CodeOfClosed(line, startChar, parenDepth, k);
    }
    HasFirstBalance(line, startChar);
    ClosedIffOnLine(line, startChar);
  }

  method FormatterIsOneLineBlockReached(line: string, startChar: nat, parenDepth: int) returns (r: int)
    requires startChar < |line| && line[startChar] == '{'
    ensures r == BlockCode(line, startChar, parenDepth)
    ensures r != 0 <==> ClosedOnLine(line, startChar)
  {
    hide ClosedOnLine, Closed, Live, At, OpensQuote, PeekFrom, CloseFrom;
    ClosedIffOnLine(line, startChar);
    ClosedStart(line, startChar);
    var isInComment, isInQuote, hasText, quoteChar, prevCh := false, false, false, ' ', ' ';
    var braceCount := 0;
    var i := startChar;
    ghost var mode, text := Code, "";
    while i < |line|
      invariant mode == ModeOf(isInComment, isInQuote, quoteChar) && !(isInComment && isInQuote)
      invariant if braceCount == 0 then i == startChar && mode == Code && text == ""
                else braceCount > 0 && CloseFrom(line, i, mode, braceCount, text) == Closed(line, startChar)
      invariant hasText <==> text != []
      invariant prevCh == if text == [] then ' ' else text[|text| - 1]
      decreases |line| - i
    {
      if braceCount > 0 {
        CloseStep(line, i, mode, braceCount, text);
      } else {
        OpenBrace(line, i);
      }
      var ch := line[i];
      if isInComment {
        if At(line, i, "*/") {
          isInComment := false;
          i := i + 1;
        }
      } else if ch == '\\' {
        i := i + 1;
      } else if isInQuote {
        if ch == quoteChar {
          isInQuote := false;
        }
      } else if OpensQuote(line, i) {
        isInQuote, quoteChar := true, ch;
      } else if At(line, i, "//") {
        break;
      } else if At(line, i, "/*") {
        isInComment := true;
        i := i + 1;
      } else if ch == '{' {
        braceCount := braceCount + 1;
      } else {
        if ch == '}' {
          braceCount := braceCount - 1;
          if braceCount == 0 {
            // is this an array?
            if parenDepth == 0 && prevCh != '}' && PeekFrom(line, i + 1) == Some(',') {
              return 2;
            }
            if !hasText {
              return 3;
            }
            return 1;
          }
        }
        if ch != ';' && !IsWhiteSpace(ch) {
          hasText, prevCh := true, ch;
          text := text + [ch];
        }
      }
      i := i + 1;
      mode := ModeOf(isInComment, isInQuote, quoteChar);
    }
    return 0;
  }
}
