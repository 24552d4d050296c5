/**
  Lookup of headers, keywords and operators at a position of a line.

  Headers are looked up in a table sorted by name, and the scan stops at the first name that is
  greater than the text; operators in a table with the longest ones first.
*/
module WordLookup {
  import opened Common

  datatype Language = CStyle | JavaStyle | SharpStyle

  /** May the character stand in a variable, method or class name? */
  predicate IsLegalNameChar(lang: Language, ch: char) {
    && !IsWhiteSpace(ch)
    && ch as int <= 127
    && (IsAlnum(ch) || ch == '.' || ch == '_' || (lang.JavaStyle? && ch == '$') || (lang.SharpStyle? && ch == '@'))
  }

  /** The characters of names: ASCII letters and digits, dot, underscore, and one more in Java and in C#. */
  lemma NameChars(lang: Language, c: char)
    ensures IsLegalNameChar(lang, c) <==>
            || '0' <= c <= '9' || 'A' <= c <= 'Z' || 'a' <= c <= 'z' || c in {'.', '_'}
            || (c == '$' && lang == JavaStyle) || (c == '@' && lang == SharpStyle)
  {
  }

  predicate IsCharPotentialHeader(lang: Language, line: string, i: nat)
    requires i < |line|
  {
    !IsLegalNameChar(lang, if i > 0 then line[i - 1] else ' ') && IsLegalNameChar(lang, line[i])
  }

  // ---------- Words ----------

  ghost predicate LegalWord(lang: Language, w: string) {
    w != [] && forall k :: 0 <= k < |w| ==> IsLegalNameChar(lang, w[k])
  }

  /** `w` is the whole word that begins at `i`: as long as possible. */
  ghost predicate IsWordAt(lang: Language, line: string, i: nat, w: string) {
    var end := i + |w|;
    && end <= |line| && line[i..end] == w && LegalWord(lang, w)
    && (end < |line| ==> !IsLegalNameChar(lang, line[end]))
  }

  method GetCurrentWord(lang: Language, line: string, index: nat) returns (word: string)
    requires index < |line| && IsCharPotentialHeader(lang, line, index)
    ensures IsWordAt(lang, line, index, word)
  {
    var i := index;
    while i < |line| && IsLegalNameChar(lang, line[i])
      invariant index <= i <= |line|
      invariant forall k :: index <= k < i ==> IsLegalNameChar(lang, line[k])
    {
      i := i + 1;
    }
    word := line[index..i];
  }

  lemma WordIsUnique(lang: Language, line: string, i: nat, v: string, w: string)
    requires IsWordAt(lang, line, i, v) && IsWordAt(lang, line, i, w)
    ensures v == w
  {
    assert forall k :: 0 <= k < |v| ==> line[i + k] == v[k];
    assert forall k :: 0 <= k < |w| ==> line[i + k] == w[k];
    if |v| < |w| {
      assert false;
    } else if |w| < |v| {
      assert false;
    }
  }

  /** The first character from `from` on that is not white space; a space if there is none. */
  function PeekFrom(line: string, from: nat): char
    decreases |line| - from
  {
    if from >= |line| then ' '
    else if IsWhiteSpace(line[from]) then PeekFrom(line, from + 1)
    else line[from]
  }

  lemma {:induction false} PeekIsFirst(line: string, from: nat, k: nat)
    requires from <= k <= |line|
    requires forall j :: from <= j < k ==> line[j] in {' ', '\t'}
    requires k < |line| ==> line[k] !in {' ', '\t'}
    ensures PeekFrom(line, from) == if k < |line| then line[k] else ' '
    decreases |line| - from
  {
    if from < k {
      PeekIsFirst(line, from + 1, k);
    }
  }

  // ---------- The order of the table ----------

  /** The comparison of `std::string`: by character, a proper prefix first. */
  function Compare(a: string, b: string): int {
    if a == [] then (if b == [] then 0 else -1)
    else if b == [] then 1
    else if a[0] < b[0] then -1
    else if a[0] > b[0] then 1
    else Compare(a[1..], b[1..])
  }

  lemma {:induction false} CompareOpposite(a: string, b: string)
    ensures Compare(a, b) == -Compare(b, a)
    ensures Compare(a, b) == 0 <==> a == b
    decreases |a|
  {
    if a != [] && b != [] {
      CompareOpposite(a[1..], b[1..]);
      assert a == [a[0]] + a[1..] && b == [b[0]] + b[1..];
    }
  }

  /** The first difference decides, and a proper prefix comes first. */
  lemma {:induction false} FirstDifference(same: string, a: string, b: string)
    requires b != [] && (a == [] || a[0] < b[0])
    ensures Compare(same + a, same + b) < 0
    decreases |same|
  {
    if same == [] {
      assert same + a == a && same + b == b;
    } else {
      assert (same + a)[1..] == same[1..] + a && (same + b)[1..] == same[1..] + b;
      FirstDifference(same[1..], a, b);
    }
  }

  /** `sortOnName`, and `sortOnLength` with the longest first. */
  datatype Order = ByName | ByLength

  predicate InOrder(order: Order, a: string, b: string) {
    match order
    case ByName => Compare(a, b) <= 0
    case ByLength => |a| >= |b|
  }

  ghost predicate Sorted(order: Order, table: seq<string>) {
    forall p, q :: 0 <= p < q < |table| ==> InOrder(order, table[p], table[q])
  }

  ghost predicate SortedByName(table: seq<string>) {
    Sorted(ByName, table)
  }

  /** If text of the length of `h` sorts before `h`, so does every word that the text agrees with. */
  lemma {:induction false} AgreeingWordIsBefore(text: string, h: string, w: string)
    requires |text| == |h| && Compare(text, h) < 0
    requires w <= text || text <= w
    ensures Compare(w, h) < 0
    decreases |text|
  {
    if text != [] && w != [] && text[0] == h[0] {
      assert w[0] == text[0];
      assert w <= text ==> w[1..] <= text[1..];
      assert text <= w ==> text[1..] <= w[1..];
      AgreeingWordIsBefore(text[1..], h[1..], w[1..]);
    }
  }

  lemma SlicePrefix(s: string, i: nat, m: nat, n: nat)
    requires m <= n && i + n <= |s|
    ensures s[i..i + m] == s[i..i + n][..m] && s[i..i + m] <= s[i..i + n]
  {
  }

  /** The early exit is right: once the text is below a table entry, no later entry is the word. */
  lemma EarlyExitIsSafe(lang: Language, line: string, i: nat, table: seq<string>, p: nat, q: nat)
    requires SortedByName(table) && p < q < |table| && i + |table[p]| <= |line|
    requires Compare(line[i..i + |table[p]|], table[p]) < 0
    ensures !IsWordAt(lang, line, i, table[q])
  {
    var h, w := table[p], table[q];
    if IsWordAt(lang, line, i, w) {
      var text := line[i..i + |h|];
      if |w| <= |h| {
        SlicePrefix(line, i, |w|, |h|);
      } else {
        SlicePrefix(line, i, |h|, |w|);
      }
      AgreeingWordIsBefore(text, h, w);
      CompareOpposite(w, h);
    }
  }

  // ---------- Headers ----------

  /** Part of a definition or of an accessor, so not a header. */
  predicate Excluded(line: string, wordEnd: nat, header: string) {
    && wordEnd < |line|
    && var peekChar := PeekFrom(line, wordEnd);
       || peekChar == ',' || peekChar == ')'
       || (header in {"get", "set", "default"} && peekChar in {';', '(', '='})
  }

  /** The next character that is not blank, at `k`, decides; a word at the end of the line is never excluded. */
  lemma ExcludedByNext(line: string, wordEnd: nat, header: string, k: nat)
    requires wordEnd <= k <= |line|
    requires forall j :: wordEnd <= j < k ==> line[j] in {' ', '\t'}
    requires k < |line| ==> line[k] !in {' ', '\t'}
    ensures Excluded(line, wordEnd, header) <==>
            && k < |line|
            && (line[k] in {',', ')'} || (header in ["get", "set", "default"] && line[k] in {';', '(', '='}))
  {
    hide PeekFrom;
    PeekIsFirst(line, wordEnd, k);
  }

  /** The exact meaning: the whole word at `i`, unless excluded by what follows. */
  ghost predicate IsHeaderAt(lang: Language, line: string, i: nat, h: string) {
    IsWordAt(lang, line, i, h) && !Excluded(line, i + |h|, h)
  }

  method FindHeader(lang: Language, line: string, i: nat, possibleHeaders: seq<string>) returns (r: Option<string>)
    requires i < |line| && IsCharPotentialHeader(lang, line, i)
    requires SortedByName(possibleHeaders)
    requires forall p :: 0 <= p < |possibleHeaders| ==> LegalWord(lang, possibleHeaders[p])
    ensures forall h :: r == Some(h) <==> h in possibleHeaders && IsHeaderAt(lang, line, i, h)
  {
    hide Compare, PeekFrom;
    var p := 0;
    while p < |possibleHeaders|
      invariant p <= |possibleHeaders|
      invariant forall q :: 0 <= q < p ==> !IsHeaderAt(lang, line, i, possibleHeaders[q])
    {
      var header := possibleHeaders[p];
      var wordEnd := i + |header|;
      p := p + 1;
      if wordEnd > |line| {
        continue;
      }
      var result := Compare(line[i..wordEnd], header);
      CompareOpposite(line[i..wordEnd], header);
      if result > 0 {
        continue;
      }
      if result < 0 {
        forall q | p <= q < |possibleHeaders| ensures !IsHeaderAt(lang, line, i, possibleHeaders[q]) {
          EarlyExitIsSafe(lang, line, i, possibleHeaders, p - 1, q);
        }
        break;
      }
      if wordEnd < |line| && IsLegalNameChar(lang, line[wordEnd]) {
        continue;
      }
      assert IsWordAt(lang, line, i, header);
      OtherWordsAreNot(lang, line, i, possibleHeaders, p - 1);
      if Excluded(line, wordEnd, header) {
        break;
      }
      return Some(header);
    }
    return None;
  }

  lemma OtherWordsAreNot(lang: Language, line: string, i: nat, table: seq<string>, p: nat)
    requires p < |table| && IsWordAt(lang, line, i, table[p])
    ensures forall w :: w in table && w != table[p] ==> !IsWordAt(lang, line, i, w)
  {
    forall w | w in table && w != table[p] ensures !IsWordAt(lang, line, i, w) {
      if IsWordAt(lang, line, i, w) {
        WordIsUnique(lang, line, i, table[p], w);
      }
    }
  }

  // ---------- The table of headers ----------

  function CommonHeaders(): seq<string> {
    ["if", "else", "for", "while", "do", "switch", "case", "default", "try", "catch",
     "Q_FOREACH", "Q_FOREVER", "foreach", "forever"]
  }

  function OtherHeaders(lang: Language, beautifier: bool): seq<string> {
    match lang
    case CStyle => ["__try", "__finally", "__except"] + if beautifier then ["template"] else []
    case JavaStyle => ["finally", "synchronized"] + if beautifier then ["static"] else []
    case SharpStyle => ["finally", "lock", "fixed", "get", "set", "add", "remove", "using"]
  }

  /** The headers of a language, in the order in which they are entered. */
  function Headers(lang: Language, beautifier: bool): seq<string> {
    CommonHeaders() + OtherHeaders(lang, beautifier)
  }

  /** Nothing but letters, digits and underscores. */
  ghost predicate Plain(w: string) {
    w != [] && forall k :: 0 <= k < |w| ==> IsAlnum(w[k]) || w[k] == '_'
  }

  lemma CommonArePlain()
    ensures forall w :: w in CommonHeaders() ==> Plain(w)
  {
  }

  lemma OthersArePlain(lang: Language, beautifier: bool)
    ensures forall w :: w in OtherHeaders(lang, beautifier) ==> Plain(w)
  {
    hide Plain;
    ExtensionsArePlain();
    match lang
    case CStyle =>
    case JavaStyle =>
    case SharpStyle => SharpArePlain();
  }

  lemma ExtensionsArePlain()
    ensures forall w ::
      w in ["__try", "__finally", "__except", "template", "finally", "synchronized", "static"] ==> Plain(w)
  {
  }

  lemma SharpArePlain()
    ensures forall w :: w in ["finally", "lock", "fixed", "get", "set", "add", "remove", "using"] ==> Plain(w)
  {
  }

  lemma HeadersAreWords(lang: Language, beautifier: bool)
    ensures forall w :: w in Headers(lang, beautifier) ==> LegalWord(lang, w)
  {
    hide CommonHeaders, OtherHeaders;
    CommonArePlain();
    OthersArePlain(lang, beautifier);
  }

  lemma {:induction false} CompareTransitive(a: string, b: string, c: string)
    requires Compare(a, b) <= 0 && Compare(b, c) <= 0
    ensures Compare(a, c) <= 0
    decreases |a|
  {
    if a != [] && b != [] && c != [] && a[0] == b[0] == c[0] {
      CompareTransitive(a[1..], b[1..], c[1..]);
    }
  }

  /** The table is a permutation of the words entered, sorted by name, and so fit for the search. */
  method BuildHeaders(lang: Language, beautifier: bool) returns (headers: seq<string>)
    ensures multiset(headers) == multiset(Headers(lang, beautifier)) && SortedByName(headers)
    ensures forall p :: 0 <= p < |headers| ==> LegalWord(lang, headers[p])
  {
    hide Headers, Compare;
    headers := Sort(ByName, Headers(lang, beautifier));
    HeadersAreWords(lang, beautifier);
    forall p | 0 <= p < |headers| ensures LegalWord(lang, headers[p]) {
      assert headers[p] in multiset(headers);
      assert headers[p] in Headers(lang, beautifier);
    }
  }

  // ---------- Sorting ----------

  /** In place of `std::sort`. */
  method Sort(order: Order, words: seq<string>) returns (r: seq<string>)
    ensures multiset(r) == multiset(words) && Sorted(order, r)
  {
    hide InOrder;
    r := [];
    for n := 0 to |words|
      invariant multiset(r) == multiset(words[..n]) && Sorted(order, r)
    {
      assert words[..n + 1] == words[..n] + [words[n]];
      r := Insert(order, r, words[n]);
    }
    assert words[..|words|] == words;
  }

  method Insert(order: Order, words: seq<string>, w: string) returns (r: seq<string>)
    requires Sorted(order, words)
    ensures multiset(r) == multiset(words) + multiset{w} && Sorted(order, r)
  {
    hide InOrder, Sorted;
    var p := 0;
    while p < |words| && InOrder(order, words[p], w)
      invariant p <= |words|
      invariant forall q :: 0 <= q < p ==> InOrder(order, words[q], w)
    {
      p := p + 1;
    }
    r := words[..p] + [w] + words[p..];
    InsertedIsSorted(order, words, w, p);
    InsertedIsThere(words, w, p);
  }

  lemma InsertedIsThere(words: seq<string>, w: string, p: nat)
    requires p <= |words|
    ensures multiset(words[..p] + [w] + words[p..]) == multiset(words) + multiset{w}
  {
    assert words == words[..p] + words[p..];
  }

  lemma OrderIsTotal(order: Order, a: string, b: string)
    ensures InOrder(order, a, b) || InOrder(order, b, a)
  {
    CompareOpposite(a, b);
  }

  lemma OrderIsTransitive(order: Order, a: string, b: string, c: string)
    requires InOrder(order, a, b) && InOrder(order, b, c)
    ensures InOrder(order, a, c)
  {
    if order.ByName? {
      CompareTransitive(a, b, c);
    }
  }

  lemma InsertedIsSorted(order: Order, words: seq<string>, w: string, p: nat)
    requires Sorted(order, words) && p <= |words|
    requires forall q :: 0 <= q < p ==> InOrder(order, words[q], w)
    requires p < |words| ==> !InOrder(order, words[p], w)
    ensures Sorted(order, words[..p] + [w] + words[p..])
  {
    hide InOrder;
    forall q | p <= q < |words| ensures InOrder(order, w, words[q]) {
      OrderIsTotal(order, words[p], w);
      if q > p {
        OrderIsTransitive(order, w, words[p], words[q]);
      }
    }
    ThreeSorted(order, words, w, p);
  }

  lemma ThreeSorted(order: Order, words: seq<string>, w: string, p: nat)
    requires Sorted(order, words) && p <= |words|
    requires forall q :: 0 <= q < p ==> InOrder(order, words[q], w)
    requires forall q :: p <= q < |words| ==> InOrder(order, w, words[q])
    ensures Sorted(order, words[..p] + [w] + words[p..])
  {
    hide InOrder;
    var r := words[..p] + [w] + words[p..];
    forall i, j | 0 <= i < j < |r| ensures InOrder(order, r[i], r[j]) {
      assert i != p ==> r[i] == words[if i < p then i else i - 1];
      assert j != p ==> r[j] == words[if j < p then j else j - 1];
    }
  }

  // ---------- Keywords ----------

  method FindKeyword(lang: Language, line: string, i: nat, keyword: string) returns (found: bool)
    requires i < |line| && IsCharPotentialHeader(lang, line, i) && LegalWord(lang, keyword)
    ensures found <==> IsKeywordAt(lang, line, i, keyword)
  {
    var wordEnd := i + |keyword|;
    if wordEnd > |line| {
      return false;
    }
    CompareOpposite(line[i..wordEnd], keyword);
    if Compare(line[i..wordEnd], keyword) != 0 {
      return false;
    }
    if wordEnd == |line| {
      return true;
    }
    if IsLegalNameChar(lang, line[wordEnd]) {
      return false;
    }
    var peekChar := PeekFrom(line, wordEnd);
    return !(peekChar == ',' || peekChar == ')');
  }

  ghost predicate IsKeywordAt(lang: Language, line: string, i: nat, k: string) {
    IsWordAt(lang, line, i, k) && !(i + |k| < |line| && PeekFrom(line, i + |k|) in {',', ')'})
  }

  /** The two searches, written separately, agree on every word that is no accessor. */
  lemma SearchesAgree(lang: Language, line: string, i: nat, w: string)
    ensures w !in {"get", "set", "default"} ==>
              (IsHeaderAt(lang, line, i, w) <==> IsKeywordAt(lang, line, i, w))
    ensures IsHeaderAt(lang, line, i, w) ==> IsKeywordAt(lang, line, i, w)
  {
  }

  // ---------- Operators ----------

  ghost predicate SortedByLength(table: seq<string>) {
    Sorted(ByLength, table)
  }

  /** The operators of a language, in the order in which they are entered. */
  function Operators(lang: Language): seq<string> {
    ["+=", "-=", "*=", "/=", "%=", "|=", "&=", "^=", "==", "++", "--", "!=", ">=", ">>>=", ">>=", ">>>", ">>", "<="]
    + ["<<<=", "<<=", "<<<", "<<", "??", "=>", "->", "&&", "||", "::", "+", "-", "*", "/", "%", "?", ":", "=", "<", ">"]
    + ["!", "|", "&", "~", "^"]
    + if lang.CStyle? then ["<?", ">?"] else []
  }

  const ASSIGNMENT_OPERATORS: seq<string> :=
    ["=", "+=", "-=", "*=", "/=", "%=", "|=", "&=", "^=", ">>>=", ">>=", "<<=", "<<<="]

  const NON_ASSIGNMENT_OPERATORS: seq<string> :=
    ["==", "++", "--", "!=", ">=", ">>>", ">>", "<=", "<<<", "<<", "->", "&&", "||", "=>"]

  method BuildOperators(lang: Language) returns (operators: seq<string>)
    ensures multiset(operators) == multiset(Operators(lang)) && SortedByLength(operators)
  {
    hide Operators;
    operators := Sort(ByLength, Operators(lang));
  }

  method BuildAssignmentOperators() returns (assignment: seq<string>, nonAssignment: seq<string>)
    ensures multiset(assignment) == multiset(ASSIGNMENT_OPERATORS) && SortedByLength(assignment)
    ensures multiset(nonAssignment) == multiset(NON_ASSIGNMENT_OPERATORS) && SortedByLength(nonAssignment)
  {
    assignment := Sort(ByLength, ASSIGNMENT_OPERATORS);
    nonAssignment := Sort(ByLength, NON_ASSIGNMENT_OPERATORS);
  }

  /** The operator found in a language: the longest of its operators that the text begins with. */
  method OperatorAt(lang: Language, line: string, i: nat) returns (r: Option<string>)
    requires i < |line|
    ensures r.Some? ==> r.value in Operators(lang) && IsAt(line, i, r.value)
    ensures forall op :: op in Operators(lang) && IsAt(line, i, op) ==> r.Some? && op <= r.value
  {
    hide Operators, IsAt;
    var operators := BuildOperators(lang);
    assert forall op :: op in operators <==> op in multiset(operators);
    assert forall op :: op in Operators(lang) <==> op in multiset(Operators(lang));
    r := FindOperator(line, i, operators);
  }

  ghost predicate IsAt(line: string, i: nat, op: string) {
    i + |op| <= |line| && line[i..i + |op|] == op
  }

  /** Maximal munch: the longest operator of the table that the text begins with, if any. */
  method FindOperator(line: string, i: nat, possibleOperators: seq<string>) returns (r: Option<string>)
    requires i < |line| && SortedByLength(possibleOperators)
    ensures r.Some? ==> r.value in possibleOperators && IsAt(line, i, r.value)
    ensures forall op :: op in possibleOperators && IsAt(line, i, op) ==>
              r.Some? && op <= r.value
  {
    for p := 0 to |possibleOperators|
      invariant forall q :: 0 <= q < p ==> !IsAt(line, i, possibleOperators[q])
    {
      var op := possibleOperators[p];
      var wordEnd := i + |op|;
      if wordEnd > |line| {
        continue;
      }
      CompareOpposite(line[i..wordEnd], op);
      if Compare(line[i..wordEnd], op) == 0 {
        forall o | o in possibleOperators && IsAt(line, i, o) ensures o <= op {
          assert o == op[..|o|];
        }
        return Some(op);
      }
    }
    return None;
  }
}
