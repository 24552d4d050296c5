/**
  The header stack of the beautifier and the dangling `else`.

  While a statement is open its headers (`if`, `for`, ...) lie on `headerStack`.  At the end
  of a statement they are moved, innermost first, to the top entry of `tempStacks`, of which
  there is one per open brace.  An `else` looks there for the nearest `if` and puts back the
  headers that enclose it; a `while` does the same with the nearest `do`.
*/
module HeaderStacks {
  import opened Common

  datatype Header = If | Else | For | While | Do | OpenBrace

  type HeaderKeyword = h: Header | h != OpenBrace witness If
  type LoopHeader = h: Header | h == For || h == While witness For

  /** What the line parser reacts to.  `Word` is the text of a simple statement. */
  datatype Token = LineBreak | Word | HeaderWord(header: HeaderKeyword) | Semicolon | Open | Close

  /** A statement or header word met on the way: the open headers, and the indent if it starts its line. */
  datatype Event = Event(path: seq<Header>, indent: Option<int>)

  datatype State = State(
    headerStack: seq<Header>,
    tempStacks: seq<seq<Header>>,
    lastLineHeader: Option<Header>,
    indentCount: int,
    atLineStart: bool,
    closingBraceReached: bool)

  const INITIAL := State([], [[]], None, 0, true, false)

  // ---------- The state machine as functions ----------

  function Reverse(s: seq<Header>): (r: seq<Header>)
    ensures |r| == |s|
  {
    if s == [] then [] else Reverse(s[1..]) + [s[0]]
  }

  function IndexOf(container: seq<Header>, element: Header): (i: int)
    ensures -1 <= i < |container|
    ensures i == -1 <==> element !in container
    ensures i >= 0 ==> container[i] == element && element !in container[..i]
  {
    if container == [] then -1
    else if container[0] == element then 0
    else
      var i := IndexOf(container[1..], element);
      if i == -1 then -1 else i + 1
  }

  /** The part of the header stack up to and including the innermost open brace. */
  function Base(hs: seq<Header>): (b: seq<Header>)
    ensures b <= hs
    ensures b == [] || b[|b| - 1] == OpenBrace
    ensures OpenBrace !in hs[|b|..]
  {
    if hs == [] || hs[|hs| - 1] == OpenBrace then hs else Base(hs[..|hs| - 1])
  }

  /** The headers of the statement that is open in the innermost block. */
  function Above(hs: seq<Header>): seq<Header> {
    hs[|Base(hs)|..]
  }

  function Last<T>(s: seq<T>): T
    requires s != []
  {
    s[|s| - 1]
  }

  function Init<T>(s: seq<T>): seq<T>
    requires s != []
  {
    s[..|s| - 1]
  }

  /** The indent by default: one per header or brace, but a header and its own brace count once. */
  function HeaderIndent(hs: seq<Header>): nat {
    if hs == [] then 0 else
      HeaderIndent(Init(hs)) +
      if Last(hs) == OpenBrace && |hs| > 1 && hs[|hs| - 2] != OpenBrace then 0 else 1
  }

  function StatementEnd(st: State): State {
    if st.tempStacks == [] then st else
      st.(headerStack := Base(st.headerStack),
          tempStacks := Init(st.tempStacks) + [Reverse(Above(st.headerStack))])
  }

  /** Put back the headers that enclose the nearest `opener` of the statement just ended. */
  function Restack(st: State, opener: Header): State {
    if st.tempStacks == [] then st else
      var temp := Last(st.tempStacks);
      var i := IndexOf(temp, opener);
      if i == -1 then st else
        st.(headerStack := st.headerStack + Reverse(temp[i + 1..]),
            tempStacks := Init(st.tempStacks) + [temp[..i + 1]],
            indentCount := st.indentCount + if st.closingBraceReached then 0 else |temp| - i - 1)
  }

  /** A joined `else if` replaces the `else` just pushed. */
  function JoinElseIf(st: State): State {
    if st.lastLineHeader == Some(Else) && st.headerStack != []
    then st.(headerStack := Init(st.headerStack)) else st
  }

  function BeforeHeader(st: State, h: HeaderKeyword): State {
    match h
    case If => JoinElseIf(st)
    case Else => Restack(st, If)
    case While => Restack(st, Do)
    case _ => st
  }

  function PopBrace(st: State): State {
    if OpenBrace !in st.headerStack || st.tempStacks == [] then st else
      st.(headerStack := Init(Base(st.headerStack)), tempStacks := Init(st.tempStacks))
  }

  function Observe(st: State): seq<Event> {
    [Event(st.headerStack, if st.atLineStart then Some(st.indentCount) else None)]
  }

  function Step(st: State, t: Token): (State, seq<Event>) {
    match t
    case LineBreak =>
      (st.(lastLineHeader := None, indentCount := HeaderIndent(st.headerStack),
           atLineStart := true, closingBraceReached := false), [])
    case Word => (st.(atLineStart := false), Observe(st))
    case HeaderWord(h) =>
      var st1 := BeforeHeader(st, h);
      (st1.(headerStack := st1.headerStack + [h], lastLineHeader := Some(h), atLineStart := false), Observe(st1))
    case Semicolon => (StatementEnd(st).(atLineStart := false), [])
    case Open =>
      (st.(headerStack := st.headerStack + [OpenBrace], tempStacks := st.tempStacks + [[]],
           lastLineHeader := Some(OpenBrace), atLineStart := false), [])
    case Close =>
      (StatementEnd(PopBrace(st).(closingBraceReached := true, atLineStart := false)), [])
  }

  function Run(st: State, ts: seq<Token>): (State, seq<Event>)
    decreases |ts|
  {
    if ts == [] then (st, []) else
      var (st1, e1) := Step(st, ts[0]);
      var (st2, e2) := Run(st1, ts[1..]);
      (st2, e1 + e2)
  }

  /** Behind a closing brace nothing more changes the indent of the line. */
  lemma {:induction false} IndentStays(st: State, ts: seq<Token>)
    requires st.closingBraceReached && LineBreak !in ts
    ensures Run(st, ts).0.indentCount == st.indentCount
    decreases |ts|
  {
    if ts != [] {
      var next := Step(st, ts[0]).0;
      assert ts[0] in ts && next.closingBraceReached && next.indentCount == st.indentCount;
      IndentStays(next, ts[1..]);
    }
  }

  /** A line that begins with `}` has the indent of the headers open before it, whatever follows the brace. */
  lemma BraceLineIndent(st: State, rest: seq<Token>)
    requires LineBreak !in rest
    ensures Run(st, [LineBreak, Close] + rest).0.indentCount == HeaderIndent(st.headerStack)
  {
    hide HeaderIndent, Base, Above, Reverse;
    var ts := [LineBreak, Close] + rest;
    var broken := Step(st, LineBreak).0;
    assert ts[1..] == [Close] + rest && ts[1..][1..] == rest;
    IndentStays(Step(broken, Close).0, rest);
  }

  /** Without a header to return to, an `else` and a `while` are pushed like any other header. */
  lemma NoOpener(st: State, h: HeaderKeyword)
    requires h == Else || h == While
    requires st.tempStacks == [] || (if h == Else then If else Do) !in Last(st.tempStacks)
    ensures Step(st, HeaderWord(h)).0 ==
            st.(headerStack := st.headerStack + [h], lastLineHeader := Some(h), atLineStart := false)
  {
  }

  /** A closing brace with no open one ends the statement and no more. */
  lemma UnmatchedBrace(st: State)
    requires OpenBrace !in st.headerStack
    ensures Step(st, Close).0 == Step(st, Semicolon).0.(closingBraceReached := true)
  {
  }

  // ---------- Programs and their dangling-else parse ----------

  /** The flags `br` say whether the word starts a new line. */
  datatype Stmt =
    | Simple(br: bool)
    | IfThen(br: bool, thn: Stmt)
    | IfElse(br: bool, thn: Stmt, elseBr: bool, els: Stmt)
    | Loop(br: bool, header: LoopHeader, body: Stmt)
    | DoWhile(br: bool, body: Stmt, whileBr: bool)
    | Block(br: bool, stmts: Stmts, closeBr: bool)

  datatype Stmts = Nil | Cons(head: Stmt, tail: Stmts)

  function Br(br: bool): seq<Token> {
    if br then [LineBreak] else []
  }

  /** The tokens of a statement.  A semicolon ends its line: one statement end per line. */
  function Tokens(s: Stmt): seq<Token>
    decreases s, 1
  {
    Br(s.br) + WordTokens(s)
  }

  function WordTokens(s: Stmt): seq<Token>
    decreases s, 0
  {
    match s
    case Simple(_) => [Word, Semicolon, LineBreak]
    case IfThen(_, thn) => [HeaderWord(If)] + Tokens(thn)
    case IfElse(_, thn, elseBr, els) =>
      [HeaderWord(If)] + (Tokens(thn) + (Br(elseBr) + ([HeaderWord(Else)] + Tokens(els))))
    case Loop(_, header, body) => [HeaderWord(header)] + Tokens(body)
    case DoWhile(_, body, whileBr) =>
      [HeaderWord(Do)] + (Tokens(body) + (Br(whileBr) + [HeaderWord(While), Semicolon, LineBreak]))
    case Block(_, stmts, closeBr) => [Open] + (ListTokens(stmts) + (Br(closeBr) + [Close]))
  }

  function ListTokens(ss: Stmts): seq<Token> {
    match ss
    case Nil => []
    case Cons(head, tail) => Tokens(head) + ListTokens(tail)
  }

  /** The statement ends in an `if` that could still take an `else`. */
  predicate EndsOpen(s: Stmt) {
    match s
    case IfThen(_, _) => true
    case IfElse(_, _, _, els) => EndsOpen(els)
    case Loop(_, _, body) => EndsOpen(body)
    case _ => false
  }

  /** The dangling-else rule: an `else` belongs to the innermost unfinished `if`. */
  predicate DanglingElse(s: Stmt) {
    match s
    case Simple(_) => true
    case IfThen(_, thn) => DanglingElse(thn)
    case IfElse(_, thn, _, els) => !EndsOpen(thn) && DanglingElse(thn) && DanglingElse(els)
    case Loop(_, _, body) => DanglingElse(body)
    case DoWhile(_, body, _) => DanglingElse(body)
    case Block(_, stmts, _) => ListDanglingElse(stmts)
  }

  predicate ListDanglingElse(ss: Stmts) {
    ss.Cons? ==> DanglingElse(ss.head) && ListDanglingElse(ss.tail)
  }

  /** An `if` on the same line as the `else` before it: the two count as one `if`. */
  predicate Joined(els: Stmt) {
    (els.IfThen? || els.IfElse?) && !els.br
  }

  /** After the statement the parser is at the start of a line. */
  predicate EndsLine(s: Stmt) {
    match s
    case Simple(_) => true
    case IfThen(_, thn) => EndsLine(thn)
    case IfElse(_, _, _, els) => EndsLine(els)
    case Loop(_, _, body) => EndsLine(body)
    case DoWhile(_, _, _) => true
    case Block(_, _, _) => false
  }

  function Note(path: seq<Header>, lineStart: bool, depth: nat): seq<Event> {
    [Event(path, if lineStart then Some(depth) else None)]
  }

  /**
    The events of the parse tree: each simple statement and each header word with the path of
    headers and braces around it and, if it starts a line, its nesting depth.
  */
  function Events(s: Stmt, path: seq<Header>, depth: nat, lineStart: bool): seq<Event>
    decreases s, 0
  {
    var here := Note(path, lineStart || s.br, depth);
    match s
    case Simple(_) => here
    case IfThen(_, thn) => here + Events(thn, path + [If], depth + 1, false)
    case IfElse(_, thn, elseBr, els) =>
      here + (Events(thn, path + [If], depth + 1, false) + ElseEvents(els, path, depth, EndsLine(thn) || elseBr))
    case Loop(_, header, body) => here + Events(body, path + [header], depth + 1, false)
    case DoWhile(_, body, whileBr) =>
      here + (Events(body, path + [Do], depth + 1, false) + Note(path, EndsLine(body) || whileBr, depth))
    case Block(_, stmts, _) =>
      var ownBrace := path != [] && Last(path) != OpenBrace;
      ListEvents(stmts, path + [OpenBrace], if ownBrace then depth else depth + 1, false)
  }

  function ElseEvents(els: Stmt, path: seq<Header>, depth: nat, lineStart: bool): seq<Event>
    decreases els, 1
  {
    Note(path, lineStart, depth) +
    if Joined(els) then Events(els, path, depth, false) else Events(els, path + [Else], depth + 1, false)
  }

  function ListEvents(ss: Stmts, path: seq<Header>, depth: nat, lineStart: bool): seq<Event>
    decreases ss, 0
  {
    match ss
    case Nil => []
    case Cons(head, tail) => Events(head, path, depth, lineStart) + ListEvents(tail, path, depth, EndsLine(head))
  }

  // ---------- The header stack is the path of the parse ----------

  /** The headers a finished statement leaves open for an `else` or `while` to come. */
  function Tail(s: Stmt): seq<Header>
    decreases s, 0
  {
    match s
    case Simple(_) => []
    case IfThen(_, thn) => [If] + Tail(thn)
    case IfElse(_, _, _, els) => ElseTail(els)
    case Loop(_, header, body) => [header] + Tail(body)
    case DoWhile(_, _, _) => [While]
    case Block(_, _, _) => []
  }

  function ElseTail(els: Stmt): seq<Header>
    decreases els, 1
  {
    if Joined(els) then Tail(els) else [Else] + Tail(els)
  }

  ghost predicate LineStartOk(st: State) {
    st.atLineStart ==>
      st.indentCount == HeaderIndent(st.headerStack) && st.lastLineHeader == None && !st.closingBraceReached
  }

  ghost predicate Ready(st: State) {
    st.tempStacks != [] && LineStartOk(st) && Do !in Last(st.tempStacks)
  }

  /** The statement is over: its headers, the `residue`, have moved to the top entry of `tempStacks`. */
  ghost predicate Completed(
    temps: seq<seq<Header>>, base: seq<Header>, residue: seq<Header>, endsLine: bool, st': State)
  {
    && temps != [] && LineStartOk(st')
    && st'.headerStack == base
    && st'.tempStacks == Init(temps) + [Reverse(residue)]
    && st'.atLineStart == endsLine
    && st'.lastLineHeader != Some(Else)
  }

  ghost predicate Finished(st: State, tail: seq<Header>, endsLine: bool, st': State) {
    Completed(st.tempStacks, Base(st.headerStack), Above(st.headerStack) + tail, endsLine, st')
  }

  /** After the line break that may come before a word. */
  function Broken(st: State, br: bool): State
  {
    if br then Step(st, LineBreak).0 else st
  }

  lemma {:induction false} RunAppend(st: State, a: seq<Token>, b: seq<Token>)
    ensures var (st1, e1) := Run(st, a);
            var (st2, e2) := Run(st1, b);
            Run(st, a + b) == (st2, e1 + e2)
    decreases |a|
  {
    hide Step;
    if a == [] {
      assert a + b == b;
      assert [] + Run(st, b).1 == Run(st, b).1;
    } else {
      var (st1, e1) := Step(st, a[0]);
      RunAppend(st1, a[1..], b);
      assert (a + b)[1..] == a[1..] + b;
      var (st2, e2) := Run(st1, a[1..]);
      var e3 := Run(st2, b).1;
      assert e1 + (e2 + e3) == (e1 + e2) + e3;
    }
  }

  lemma RunCons(st: State, t: Token, ts: seq<Token>)
    ensures var (st1, e1) := Step(st, t);
            var (st2, e2) := Run(st1, ts);
            Run(st, [t] + ts) == (st2, e1 + e2)
  {
    assert ([t] + ts)[1..] == ts;
  }

  lemma RunBr(st: State, br: bool, ts: seq<Token>)
    ensures Run(st, Br(br) + ts) == Run(Broken(st, br), ts)
  {
    if br {
      RunCons(st, LineBreak, ts);
      var e := Run(Broken(st, br), ts).1;
      assert [] + e == e;
    } else {
      assert Br(br) + ts == ts;
    }
  }

  lemma PushHeader(p: seq<Header>, h: Header)
    requires h != OpenBrace
    ensures HeaderIndent(p + [h]) == HeaderIndent(p) + 1
    ensures Base(p + [h]) == Base(p) && Above(p + [h]) == Above(p) + [h]
  {
    assert Init(p + [h]) == p;
  }

  lemma PushBrace(p: seq<Header>)
    ensures HeaderIndent(p + [OpenBrace]) ==
            HeaderIndent(p) + if p != [] && Last(p) != OpenBrace then 0 else 1
    ensures Base(p + [OpenBrace]) == p + [OpenBrace] && Above(p + [OpenBrace]) == []
  {
    assert Init(p + [OpenBrace]) == p;
  }

  lemma {:induction false} PushHeaders(p: seq<Header>, hs: seq<Header>)
    requires OpenBrace !in hs
    ensures HeaderIndent(p + hs) == HeaderIndent(p) + |hs|
    ensures Base(p + hs) == Base(p) && Above(p + hs) == Above(p) + hs
    decreases |hs|
  {
    hide HeaderIndent, Base, Above;
    if hs == [] {
      assert p + hs == p;
      assert Above(p) + hs == Above(p);
    } else {
      var front, h := Init(hs), Last(hs);
      assert h in hs && forall x :: x in front ==> x in hs;
      PushHeaders(p, front);
      PushHeader(p + front, h);
      assert (p + front) + [h] == p + hs;
      assert (Above(p) + front) + [h] == Above(p) + hs;
    }
  }

  lemma BaseAbove(p: seq<Header>)
    ensures Base(p) + Above(p) == p
    ensures Base(Base(p)) == Base(p) && Above(Base(p)) == []
  {
  }

  lemma {:induction false} ReverseAppend(a: seq<Header>, b: seq<Header>)
    ensures Reverse(a + b) == Reverse(b) + Reverse(a)
    decreases |a|
  {
    if a == [] {
      assert a + b == b;
    } else {
      ReverseAppend(a[1..], b);
      assert (a + b)[1..] == a[1..] + b;
    }
  }

  lemma ReverseNothing(hs: seq<Header>)
    ensures hs[|hs|..] == [] && Reverse([]) == []
  {
  }

  lemma ReverseFront(hs: seq<Header>, k: nat)
    requires k < |hs|
    ensures Reverse(hs[k..]) == Reverse(hs[k + 1..]) + [hs[k]]
    ensures hs[k] != OpenBrace && OpenBrace !in hs[k + 1..] ==> OpenBrace !in hs[k..]
  {
    assert hs[k..] == [hs[k]] + hs[k + 1..];
    assert hs[k..][1..] == hs[k + 1..];
  }

  lemma {:induction false} ReverseMembers(a: seq<Header>, x: Header)
    ensures x in Reverse(a) <==> x in a
    decreases |a|
  {
    if a != [] {
      ReverseMembers(a[1..], x);
      assert a == [a[0]] + a[1..];
    }
  }

  lemma {:induction false} ReverseTwice(a: seq<Header>)
    ensures Reverse(Reverse(a)) == a
    decreases |a|
  {
    if a != [] {
      ReverseTwice(a[1..]);
      ReverseAppend(Reverse(a[1..]), [a[0]]);
      assert Reverse([a[0]]) == [a[0]];
    }
  }

  lemma {:induction false} TailFacts(s: Stmt)
    ensures Do !in Tail(s) && OpenBrace !in Tail(s)
    ensures If in Tail(s) <==> EndsOpen(s)
  {
    match s
    case Simple(_) =>
    case IfThen(_, thn) => TailFacts(thn);
    case IfElse(_, _, _, els) => TailFacts(els);
    case Loop(_, _, body) => TailFacts(body);
    case DoWhile(_, _, _) =>
    case Block(_, _, _) =>
  }

  lemma {:induction false} FirstIndex(a: seq<Header>, x: Header, b: seq<Header>)
    requires x !in a
    ensures IndexOf(a + ([x] + b), x) == |a|
    decreases |a|
  {
    var s := a + ([x] + b);
    if a == [] {
      assert s[0] == x;
    } else {
      assert s[1..] == a[1..] + ([x] + b);
      FirstIndex(a[1..], x, b);
    }
  }

  lemma ReverseOpener(hs: seq<Header>, opener: Header, tail: seq<Header>)
    ensures Reverse(hs + [opener] + tail) == Reverse(tail) + ([opener] + Reverse(hs))
  {
    ReverseAppend(hs + [opener], tail);
    ReverseAppend(hs, [opener]);
    assert Reverse([opener]) == [opener];
  }

  lemma SplitAfter(front: seq<Header>, x: Header, back: seq<Header>)
    ensures var s := front + ([x] + back);
            |s| == |front| + 1 + |back| && s[|front| + 1..] == back && s[..|front| + 1] == front + [x]
  {
  }

  lemma RestackSplits(st: State, front: seq<Header>, opener: Header, back: seq<Header>)
    requires st.tempStacks != [] && Last(st.tempStacks) == front + ([opener] + back) && opener !in front
    ensures Restack(st, opener) ==
      st.(headerStack := st.headerStack + Reverse(back),
          tempStacks := Init(st.tempStacks) + [front + [opener]],
          indentCount := st.indentCount + if st.closingBraceReached then 0 else |back|)
  {
    hide Reverse, IndexOf;
    FirstIndex(front, opener, back);
    SplitAfter(front, opener, back);
  }

  /**
    The heart of the restacking: when the statement just ended was `hs` headers, then
    `opener`, then `tail` without a further `opener`, the restack brings back exactly `hs`.
  */
  lemma RestackFindsOpener(st: State, hs: seq<Header>, opener: Header, tail: seq<Header>)
    requires st.tempStacks != [] && Last(st.tempStacks) == Reverse(hs + [opener] + tail)
    requires opener !in tail
    ensures Restack(st, opener) ==
      st.(headerStack := st.headerStack + hs,
          tempStacks := Init(st.tempStacks) + [Reverse(tail) + [opener]],
          indentCount := st.indentCount + if st.closingBraceReached then 0 else |hs|)
  {
    hide *;
    ReverseOpener(hs, opener, tail);
    ReverseMembers(tail, opener);
    RestackSplits(st, Reverse(tail), opener, Reverse(hs));
    ReverseTwice(hs);
  }

  lemma BrokenFacts(st: State, br: bool)
    ensures var st0 := Broken(st, br);
            && st0.headerStack == st.headerStack && st0.tempStacks == st.tempStacks
            && st0.atLineStart == (st.atLineStart || br)
            && st0.lastLineHeader == (if br then None else st.lastLineHeader)
            && (LineStartOk(st) ==> LineStartOk(st0))
            && (Ready(st) ==> Ready(st0))
  {
  }

  // What single tokens do, in the states that matter below.

  lemma StepHeader(st: State, h: HeaderKeyword)
    requires Ready(st) && h != Else
    requires h == If ==> st.lastLineHeader != Some(Else)
    ensures var st1 := st.(headerStack := st.headerStack + [h], lastLineHeader := Some(h), atLineStart := false);
            && Step(st, HeaderWord(h)) == (st1, Note(st.headerStack, st.atLineStart, HeaderIndent(st.headerStack)))
            && Ready(st1)
  {
  }

  lemma StepElse(st: State, hs: seq<Header>, tail: seq<Header>) returns (st1: State)
    requires st.tempStacks != [] && Last(st.tempStacks) == Reverse(hs + [If] + tail)
    requires If !in tail && Do !in tail && OpenBrace !in hs && LineStartOk(st)
    ensures var path := st.headerStack + hs;
            && Step(st, HeaderWord(Else)) == (st1, Note(path, st.atLineStart, HeaderIndent(path)))
            && st1.headerStack == path + [Else] && Init(st1.tempStacks) == Init(st.tempStacks)
            && !st1.atLineStart && st1.lastLineHeader == Some(Else) && Ready(st1)
  {
    hide Reverse, IndexOf, Restack, HeaderIndent, Base;
    RestackFindsOpener(st, hs, If, tail);
    PushHeaders(st.headerStack, hs);
    ReverseMembers(tail, Do);
    st1 := Step(st, HeaderWord(Else)).0;
  }

  lemma StepWhile(st: State, hs: seq<Header>, tail: seq<Header>) returns (st1: State)
    requires st.tempStacks != [] && Last(st.tempStacks) == Reverse(hs + [Do] + tail)
    requires Do !in tail && OpenBrace !in hs && LineStartOk(st)
    ensures var path := st.headerStack + hs;
            && Step(st, HeaderWord(While)) == (st1, Note(path, st.atLineStart, HeaderIndent(path)))
            && st1.headerStack == path + [While] && st1.tempStacks != [] && Init(st1.tempStacks) == Init(st.tempStacks)
  {
    hide Reverse, IndexOf, Restack, HeaderIndent, Base;
    RestackFindsOpener(st, hs, Do, tail);
    PushHeaders(st.headerStack, hs);
    st1 := Step(st, HeaderWord(While)).0;
  }

  lemma StepOpen(st: State)
    ensures var st1 := Step(st, Open).0;
            && Step(st, Open) == (st1, [])
            && st1.headerStack == st.headerStack + [OpenBrace] && Init(st1.tempStacks) == st.tempStacks
            && Ready(st1) && !st1.atLineStart && st1.lastLineHeader == Some(OpenBrace)
  {
  }

  lemma StepClose(st: State, path: seq<Header>)
    requires st.headerStack == path + [OpenBrace] && |st.tempStacks| > 1 && st.lastLineHeader != Some(Else)
    ensures var st1 := Step(st, Close).0;
            && Step(st, Close) == (st1, [])
            && Completed(Init(st.tempStacks), Base(path), Above(path), false, st1)
  {
    hide Reverse, IndexOf, HeaderIndent;
    PushBrace(path);
    assert Init(path + [OpenBrace]) == path;
  }

  lemma EndOfLine(st: State)
    requires st.tempStacks != []
    ensures var (st', events) := Run(st, [Semicolon, LineBreak]);
            events == [] && Completed(st.tempStacks, Base(st.headerStack), Above(st.headerStack), true, st')
  {
    var st1 := Step(st, Semicolon).0;
    RunCons(st, Semicolon, [LineBreak]);
    RunCons(st1, LineBreak, []);
    assert [Semicolon] + [LineBreak] == [Semicolon, LineBreak];
    assert [LineBreak] + [] == [LineBreak];
    BaseAbove(st.headerStack);
  }

  // Statement by statement.

  /**
    For every statement, run from any settled state: parsed by the dangling-else rule it
    produces exactly the events of its parse tree and leaves its headers in `tempStacks`.
  */
  lemma {:induction false} StackIsPath(s: Stmt, st: State)
    requires DanglingElse(s) && Ready(st)
    requires st.lastLineHeader == Some(Else) ==> !Joined(s)
    ensures var (st', events) := Run(st, Tokens(s));
            && Finished(st, Tail(s), EndsLine(s), st')
            && events == Events(s, st.headerStack, HeaderIndent(st.headerStack), st.atLineStart)
    decreases s, 2
  {
    hide Run, Step, Broken, Ready, Completed, Base, Above, HeaderIndent, Events, Tail, EndsLine, Joined, WordTokens;
    BrokenFacts(st, s.br);
    RunBr(st, s.br, WordTokens(s));
    BrokenEvents(s, st.headerStack, HeaderIndent(st.headerStack), st.atLineStart);
    JoinedIffSameLine(s);
    WordsArePath(s, Broken(st, s.br));
  }

  lemma JoinedIffSameLine(s: Stmt)
    ensures Joined(s) <==> (s.IfThen? || s.IfElse?) && !s.br
  {
  }

  lemma BrokenEvents(s: Stmt, path: seq<Header>, depth: nat, lineStart: bool)
    ensures Events(s, path, depth, lineStart) == Events(s, path, depth, lineStart || s.br)
  {
  }

  lemma WordsArePath(s: Stmt, st: State)
    requires DanglingElse(s) && Ready(st)
    requires st.lastLineHeader == Some(Else) ==> !(s.IfThen? || s.IfElse?)
    requires s.br ==> st.atLineStart
    ensures var (st', events) := Run(st, WordTokens(s));
            && Finished(st, Tail(s), EndsLine(s), st')
            && events == Events(s, st.headerStack, HeaderIndent(st.headerStack), st.atLineStart)
    decreases s, 1
  {
    hide Run, Step, Ready, Completed, Base, Above, HeaderIndent, ElseEvents, ElseTail, Finished, ListEvents, ListTokens;
    hide Joined, EndsOpen;
    match s
    case Simple(_) => SimpleCase(st);
    case IfThen(_, thn) => HeadedCase(st, If, thn);
    case Loop(_, header, body) => HeadedCase(st, header, body);
    case IfElse(_, _, _, _) => IfElseCase(s, st);
    case DoWhile(_, body, whileBr) => DoWhileCase(st, body, whileBr);
    case Block(_, stmts, closeBr) =>
      PushBrace(st.headerStack);
      BlockCase(st, stmts, closeBr);
  }

  lemma SimpleCase(st: State)
    requires Ready(st)
    ensures var (st', events) := Run(st, [Word, Semicolon, LineBreak]);
            && Finished(st, [], true, st')
            && events == Note(st.headerStack, st.atLineStart, HeaderIndent(st.headerStack))
  {
    hide Run, HeaderIndent, Base, Completed;
    var st1 := Step(st, Word).0;
    RunCons(st, Word, [Semicolon, LineBreak]);
    EndOfLine(st1);
    assert [Word] + [Semicolon, LineBreak] == [Word, Semicolon, LineBreak];
    assert Above(st.headerStack) + [] == Above(st.headerStack);
  }

  /** `if`, `for`, `while` without `do`, and `do`: a header that only pushes itself. */
  lemma HeadedCase(st: State, h: HeaderKeyword, body: Stmt)
    requires Ready(st) && DanglingElse(body) && h != Else
    requires h == If ==> st.lastLineHeader != Some(Else)
    ensures var (st', events) := Run(st, [HeaderWord(h)] + Tokens(body));
            && Finished(st, [h] + Tail(body), EndsLine(body), st')
            && events == Note(st.headerStack, st.atLineStart, HeaderIndent(st.headerStack))
                         + Events(body, st.headerStack + [h], HeaderIndent(st.headerStack) + 1, false)
    decreases body, 3
  {
    hide Run, Step, Completed, Base, Above, HeaderIndent, Events, Tokens, Tail, EndsLine, Joined, DanglingElse, Ready;
    var st1 := Step(st, HeaderWord(h)).0;
    StepHeader(st, h);
    PushHeader(st.headerStack, h);
    StackIsPath(body, st1);
    RunCons(st, HeaderWord(h), Tokens(body));
    assert Above(st.headerStack) + [h] + Tail(body) == Above(st.headerStack) + ([h] + Tail(body));
  }

  lemma IfElseCase(s: Stmt, st: State)
    requires s.IfElse? && DanglingElse(s) && Ready(st) && st.lastLineHeader != Some(Else)
    ensures var IfElse(_, thn, elseBr, els) := s;
            var (st', events) :=
              Run(st, [HeaderWord(If)] + (Tokens(thn) + (Br(elseBr) + ([HeaderWord(Else)] + Tokens(els)))));
            && Finished(st, ElseTail(els), EndsLine(els), st')
            && events == Note(st.headerStack, st.atLineStart, HeaderIndent(st.headerStack))
              + (Events(thn, st.headerStack + [If], HeaderIndent(st.headerStack) + 1, false)
              + ElseEvents(els, st.headerStack, HeaderIndent(st.headerStack), EndsLine(thn) || elseBr))
    decreases s, 0
  {
    hide Run, Step, Broken, Base, Above, HeaderIndent, Events, ElseEvents, Tokens, Tail, ElseTail, EndsLine, Joined;
    hide Ready;
    hide LineStartOk, Reverse;
    var IfElse(_, thn, elseBr, els) := s;
    var path := st.headerStack;
    var elsePart := [HeaderWord(Else)] + Tokens(els);
    StepHeader(st, If);
    var st1 := Step(st, HeaderWord(If)).0;
    RunCons(st, HeaderWord(If), Tokens(thn) + (Br(elseBr) + elsePart));
    PushHeader(path, If);
    StackIsPath(thn, st1);
    var st2 := Run(st1, Tokens(thn)).0;
    RunAppend(st1, Tokens(thn), Br(elseBr) + elsePart);
    RunBr(st2, elseBr, elsePart);
    BrokenFacts(st2, elseBr);
    TailFacts(thn);
    BaseAbove(path);
    ElsePart(Broken(st2, elseBr), Above(path), Tail(thn), els);
  }

  lemma ElsePart(st: State, hs: seq<Header>, tail: seq<Header>, els: Stmt)
    requires st.tempStacks != [] && Last(st.tempStacks) == Reverse(hs + [If] + tail)
    requires Base(st.headerStack) == st.headerStack && OpenBrace !in hs && If !in tail && Do !in tail
    requires LineStartOk(st) && DanglingElse(els)
    ensures var path := st.headerStack + hs;
            var (st', events) := Run(st, [HeaderWord(Else)] + Tokens(els));
            && Completed(st.tempStacks, st.headerStack, hs + ElseTail(els), EndsLine(els), st')
            && events == ElseEvents(els, path, HeaderIndent(path), st.atLineStart)
    decreases els, 3
  {
    hide Run, Step, Base, Above, HeaderIndent, Events, Tokens, Tail, EndsLine, Joined, DanglingElse, LineStartOk;
    hide Reverse;
    hide Ready;
    var path := st.headerStack + hs;
    var st1 := StepElse(st, hs, tail);
    PushHeaders(st.headerStack, hs);
    BaseAbove(st.headerStack);
    PushHeader(path, Else);
    assert [] + hs == hs;
    RunCons(st, HeaderWord(Else), Tokens(els));
    if Joined(els) {
      var st2 := st1.(headerStack := path, lastLineHeader := None);
      assert Init(path + [Else]) == path;
      JoinedIf(st1, st2, els);
      StackIsPath(els, st2);
    } else {
      StackIsPath(els, st1);
      assert hs + [Else] + Tail(els) == hs + ([Else] + Tail(els));
    }
  }

  /** After the `else` has been replaced, a joined `if` runs as if the `else` had not been there. */
  lemma JoinedIf(st1: State, st2: State, els: Stmt)
    requires Joined(els) && st1.headerStack != [] && st1.lastLineHeader == Some(Else) && Ready(st1) && !st1.atLineStart
    requires st2 == st1.(headerStack := Init(st1.headerStack), lastLineHeader := None)
    ensures Run(st1, Tokens(els)) == Run(st2, Tokens(els)) && Ready(st2)
  {
    hide Run, HeaderIndent, Restack, Base, Reverse;
    var rest := Tokens(els)[1..];
    assert Tokens(els) == [HeaderWord(If)] + rest;
    RunCons(st1, HeaderWord(If), rest);
    RunCons(st2, HeaderWord(If), rest);
  }

  lemma DoWhileCase(st: State, body: Stmt, whileBr: bool)
    requires Ready(st) && DanglingElse(body)
    ensures var (st', events) :=
              Run(st, [HeaderWord(Do)] + (Tokens(body) + (Br(whileBr) + [HeaderWord(While), Semicolon, LineBreak])));
            && Finished(st, [While], true, st')
            && events == Note(st.headerStack, st.atLineStart, HeaderIndent(st.headerStack))
              + (Events(body, st.headerStack + [Do], HeaderIndent(st.headerStack) + 1, false)
              + Note(st.headerStack, EndsLine(body) || whileBr, HeaderIndent(st.headerStack)))
    decreases body, 3
  {
    hide Run, Step, Broken, Base, Above, HeaderIndent, Events, Tokens, Tail, EndsLine, Joined, DanglingElse, Ready;
    hide LineStartOk, Reverse;
    var path := st.headerStack;
    var whilePart := [HeaderWord(While), Semicolon, LineBreak];
    StepHeader(st, Do);
    var st1 := Step(st, HeaderWord(Do)).0;
    RunCons(st, HeaderWord(Do), Tokens(body) + (Br(whileBr) + whilePart));
    PushHeader(path, Do);
    StackIsPath(body, st1);
    var st2 := Run(st1, Tokens(body)).0;
    RunAppend(st1, Tokens(body), Br(whileBr) + whilePart);
    RunBr(st2, whileBr, whilePart);
    BrokenFacts(st2, whileBr);
    TailFacts(body);
    BaseAbove(path);
    WhilePart(Broken(st2, whileBr), Above(path), Tail(body));
  }

  lemma WhilePart(st: State, hs: seq<Header>, tail: seq<Header>)
    requires st.tempStacks != [] && Last(st.tempStacks) == Reverse(hs + [Do] + tail)
    requires Base(st.headerStack) == st.headerStack && OpenBrace !in hs && Do !in tail
    requires LineStartOk(st)
    ensures var path := st.headerStack + hs;
            var (st', events) := Run(st, [HeaderWord(While), Semicolon, LineBreak]);
            && Completed(st.tempStacks, st.headerStack, hs + [While], true, st')
            && events == Note(path, st.atLineStart, HeaderIndent(path))
  {
    hide Run, Step, Base, Above, HeaderIndent, LineStartOk, Reverse;
    var path := st.headerStack + hs;
    var st1 := StepWhile(st, hs, tail);
    PushHeaders(st.headerStack, hs);
    BaseAbove(st.headerStack);
    PushHeader(path, While);
    assert [] + hs == hs;
    RunCons(st, HeaderWord(While), [Semicolon, LineBreak]);
    assert [HeaderWord(While)] + [Semicolon, LineBreak] == [HeaderWord(While), Semicolon, LineBreak];
    EndOfLine(st1);
  }

  lemma BlockCase(st: State, stmts: Stmts, closeBr: bool)
    requires Ready(st) && ListDanglingElse(stmts)
    ensures var path := st.headerStack;
            var (st', events) := Run(st, [Open] + (ListTokens(stmts) + (Br(closeBr) + [Close])));
            && Finished(st, [], false, st')
            && events == ListEvents(stmts, path + [OpenBrace], HeaderIndent(path + [OpenBrace]), false)
    decreases stmts, 3
  {
    hide Step, Broken, Base, Above, HeaderIndent, ListEvents, ListTokens, ListDanglingElse, Completed;
    var path := st.headerStack;
    PushBrace(path);
    StepOpen(st);
    var st1 := Step(st, Open).0;
    RunCons(st, Open, ListTokens(stmts) + (Br(closeBr) + [Close]));
    RunAppend(st1, ListTokens(stmts), Br(closeBr) + [Close]);
    BlockIsPath(stmts, st1);
    var st2 := Run(st1, ListTokens(stmts)).0;
    RunBr(st2, closeBr, [Close]);
    BrokenFacts(st2, closeBr);
    var st3 := Broken(st2, closeBr);
    RunCons(st3, Close, []);
    assert [Close] + [] == [Close];
    StepClose(st3, path);
    assert Above(path) + [] == Above(path);
  }

  lemma {:induction false} BlockIsPath(ss: Stmts, st: State)
    requires ListDanglingElse(ss) && Ready(st) && st.lastLineHeader != Some(Else)
    requires Base(st.headerStack) == st.headerStack
    ensures var (st', events) := Run(st, ListTokens(ss));
            && st'.headerStack == st.headerStack && Ready(st')
            && Init(st'.tempStacks) == Init(st.tempStacks) && st'.lastLineHeader != Some(Else)
            && events == ListEvents(ss, st.headerStack, HeaderIndent(st.headerStack), st.atLineStart)
    decreases ss, 1
  {
    hide Step, Base, HeaderIndent, Events, Tokens, Tail, EndsLine, Reverse;
    match ss
    case Nil =>
    case Cons(head, tail) =>
      StackIsPath(head, st);
      var st1 := Run(st, Tokens(head)).0;
      BaseAbove(st.headerStack);
      TailFacts(head);
      ReverseMembers(Tail(head), Do);
      assert Above(st.headerStack) + Tail(head) == Tail(head);
      RunAppend(st, Tokens(head), ListTokens(tail));
      BlockIsPath(tail, st1);
  }

  // ---------- Every program has such a parse ----------

  /** Give the `else` part to the innermost unfinished `if` at the end of `s`. */
  function Attach(s: Stmt, elseBr: bool, els: Stmt): (r: Stmt)
    requires EndsOpen(s)
    ensures r.br == s.br
  {
    match s
    case IfThen(br, thn) =>
      if EndsOpen(thn) then IfThen(br, Attach(thn, elseBr, els)) else IfElse(br, thn, elseBr, els)
    case IfElse(br, thn, br2, els2) => IfElse(br, thn, br2, Attach(els2, elseBr, els))
    case Loop(br, header, body) => Loop(br, header, Attach(body, elseBr, els))
  }

  /** The dangling-else parse of the text of any syntax tree. */
  function Reparse(s: Stmt): (r: Stmt)
    ensures r.br == s.br
  {
    match s
    case Simple(_) => s
    case IfThen(br, thn) => IfThen(br, Reparse(thn))
    case IfElse(br, thn, elseBr, els) =>
      var t, e := Reparse(thn), Reparse(els);
      if EndsOpen(t) then IfThen(br, Attach(t, elseBr, e)) else IfElse(br, t, elseBr, e)
    case Loop(br, header, body) => Loop(br, header, Reparse(body))
    case DoWhile(br, body, whileBr) => DoWhile(br, Reparse(body), whileBr)
    case Block(br, stmts, closeBr) => Block(br, ListReparse(stmts), closeBr)
  }

  function ListReparse(ss: Stmts): Stmts {
    match ss
    case Nil => Nil
    case Cons(head, tail) => Cons(Reparse(head), ListReparse(tail))
  }

  lemma AttachIsElse(s: Stmt, elseBr: bool, els: Stmt)
    requires EndsOpen(s) && DanglingElse(s) && DanglingElse(els)
    ensures DanglingElse(Attach(s, elseBr, els))
    ensures var part := Br(elseBr) + ([HeaderWord(Else)] + Tokens(els));
            Tokens(Attach(s, elseBr, els)) == Tokens(s) + part
  {
    AttachKeepsRule(s, elseBr, els);
    AttachAppends(s, elseBr, els);
  }

  lemma {:induction false} AttachKeepsRule(s: Stmt, elseBr: bool, els: Stmt)
    requires EndsOpen(s) && DanglingElse(s) && DanglingElse(els)
    ensures DanglingElse(Attach(s, elseBr, els))
  {
    match s
    case IfThen(_, thn) => if EndsOpen(thn) { AttachKeepsRule(thn, elseBr, els); }
    case IfElse(_, _, _, els2) => AttachKeepsRule(els2, elseBr, els);
    case Loop(_, _, body) => AttachKeepsRule(body, elseBr, els);
  }

  lemma TokensAre(s: Stmt)
    ensures Tokens(s) == Br(s.br) + WordTokens(s)
  {
  }

  lemma {:induction false} AttachAppends(s: Stmt, elseBr: bool, els: Stmt)
    requires EndsOpen(s)
    ensures var part := Br(elseBr) + ([HeaderWord(Else)] + Tokens(els));
            WordTokens(Attach(s, elseBr, els)) == WordTokens(s) + part
            && Tokens(Attach(s, elseBr, els)) == Tokens(s) + part
  {
    var part := Br(elseBr) + ([HeaderWord(Else)] + Tokens(els));
    hide Br, Tokens, DanglingElse;
    TokensAre(s);
    TokensAre(Attach(s, elseBr, els));
    Append3(Br(s.br), WordTokens(s), part);
    match s
    case IfThen(br, thn) =>
      if EndsOpen(thn) { AttachAppends(thn, elseBr, els); }
      Append3([HeaderWord(If)], Tokens(thn), part);
    case IfElse(br, thn, br2, els2) =>
      AttachAppends(els2, elseBr, els);
      var elseWord := [HeaderWord(Else)];
      Append3(elseWord, Tokens(els2), part);
      Append3(Br(br2), elseWord + Tokens(els2), part);
      Append3(Tokens(thn), Br(br2) + (elseWord + Tokens(els2)), part);
      Append3([HeaderWord(If)], Tokens(thn) + (Br(br2) + (elseWord + Tokens(els2))), part);
    case Loop(br, header, body) =>
      AttachAppends(body, elseBr, els);
      Append3([HeaderWord(header)], Tokens(body), part);
  }

  /** Whatever tree a text was written from, its dangling-else parse has the same text. */
  lemma {:induction false} ReparseSameText(s: Stmt)
    ensures DanglingElse(Reparse(s)) && Tokens(Reparse(s)) == Tokens(s)
  {
    match s
    case Simple(_) =>
    case IfThen(_, thn) => ReparseSameText(thn);
    case IfElse(br, thn, elseBr, els) =>
      ReparseSameText(thn);
      ReparseSameText(els);
      if EndsOpen(Reparse(thn)) {
        AttachIsElse(Reparse(thn), elseBr, Reparse(els));
        var part := Br(elseBr) + ([HeaderWord(Else)] + Tokens(els));
        assert Tokens(Attach(Reparse(thn), elseBr, Reparse(els))) == Tokens(thn) + part;
      }
    case Loop(_, _, body) => ReparseSameText(body);
    case DoWhile(_, body, _) => ReparseSameText(body);
    case Block(_, stmts, _) => ListReparseSameText(stmts);
  }

  lemma {:induction false} ListReparseSameText(ss: Stmts)
    ensures ListDanglingElse(ListReparse(ss)) && ListTokens(ListReparse(ss)) == ListTokens(ss)
  {
    match ss
    case Nil =>
    case Cons(head, tail) =>
      ReparseSameText(head);
      ListReparseSameText(tail);
  }

  // ---------- and only one ----------

  /** The first token after a line break, if there is one. */
  function FirstWord(ts: seq<Token>): Option<Token> {
    if ts == [] then None
    else if ts[0] != LineBreak then Some(ts[0])
    else if |ts| > 1 then Some(ts[1])
    else None
  }

  predicate StartsElse(ts: seq<Token>) {
    FirstWord(ts) == Some(HeaderWord(Else))
  }

  /** The word that a statement begins with. */
  function Begin(s: Stmt): Token {
    match s
    case Simple(_) => Word
    case IfThen(_, _) => HeaderWord(If)
    case IfElse(_, _, _, _) => HeaderWord(If)
    case Loop(_, header, _) => HeaderWord(header)
    case DoWhile(_, _, _) => HeaderWord(Do)
    case Block(_, _, _) => Open
  }

  lemma BeginsWith(s: Stmt, rest: seq<Token>)
    ensures WordTokens(s) != [] && WordTokens(s)[0] == Begin(s) != LineBreak
    ensures FirstWord(Tokens(s) + rest) == Some(Begin(s))
    ensures Tokens(s) + rest == Br(s.br) + (WordTokens(s) + rest)
  {
  }

  /** After an optional line break and a word that is none, the break and what follows are determined. */
  lemma SameBreak(br1: bool, x: seq<Token>, br2: bool, y: seq<Token>)
    requires x != [] && y != [] && x[0] != LineBreak && y[0] != LineBreak
    requires Br(br1) + x == Br(br2) + y
    ensures br1 == br2 && x == y
  {
    assert br1 ==> (Br(br1) + x)[0] == LineBreak && (Br(br1) + x)[1..] == x;
    assert br2 ==> (Br(br2) + y)[0] == LineBreak && (Br(br2) + y)[1..] == y;
    assert !br1 ==> Br(br1) + x == x;
    assert !br2 ==> Br(br2) + y == y;
  }

  lemma SameRest(t: Token, x: seq<Token>, y: seq<Token>)
    requires [t] + x == [t] + y
    ensures x == y
  {
    assert ([t] + x)[1..] == x && ([t] + y)[1..] == y;
  }

  /**
    By the dangling-else rule a text can be read as a statement and a rest in one way only, if
    no statement with an unfinished `if` is followed by an `else`.
  */
  lemma {:induction false} OnlyOneStatement(a: Stmt, b: Stmt, ra: seq<Token>, rb: seq<Token>)
    requires DanglingElse(a) && DanglingElse(b) && Tokens(a) + ra == Tokens(b) + rb
    requires (EndsOpen(a) ==> !StartsElse(ra)) && (EndsOpen(b) ==> !StartsElse(rb))
    ensures a == b && ra == rb
    decreases a, 2
  {
    hide Tokens, WordTokens, DanglingElse, EndsOpen, StartsElse, FirstWord, Br;
    BeginsWith(a, ra);
    BeginsWith(b, rb);
    SameBreak(a.br, WordTokens(a) + ra, b.br, WordTokens(b) + rb);
    assert (WordTokens(a) + ra)[0] == Begin(a) && (WordTokens(b) + rb)[0] == Begin(b);
    OnlyOneWording(a, b, ra, rb);
  }

  lemma OnlyOneWording(a: Stmt, b: Stmt, ra: seq<Token>, rb: seq<Token>)
    requires DanglingElse(a) && DanglingElse(b) && a.br == b.br && Begin(a) == Begin(b)
    requires WordTokens(a) + ra == WordTokens(b) + rb
    requires (EndsOpen(a) ==> !StartsElse(ra)) && (EndsOpen(b) ==> !StartsElse(rb))
    ensures a == b && ra == rb
    decreases a, 1
  {
    hide Tokens, ListTokens, StartsElse, Br;
    match a
    case Simple(_) => AfterPrefix([Word, Semicolon, LineBreak], ra, rb);
    case Loop(_, header, body) =>
      Regroup3([HeaderWord(header)], Tokens(body), ra, Tokens(b.body), rb);
      SameRest(HeaderWord(header), Tokens(body) + ra, Tokens(b.body) + rb);
      OnlyOneStatement(body, b.body, ra, rb);
    case DoWhile(_, body, whileBr) => OnlyOneDoWhile(a, b, ra, rb);
    case Block(_, stmts, closeBr) => OnlyOneBlock(a, b, ra, rb);
    case IfThen(_, _) => OnlyOneIf(a, b, ra, rb);
    case IfElse(_, _, _, _) => OnlyOneIf(a, b, ra, rb);
  }

  lemma AfterPrefix(p: seq<Token>, x: seq<Token>, y: seq<Token>)
    requires p + x == p + y
    ensures x == y
  {
    assert (p + x)[|p|..] == x && (p + y)[|p|..] == y;
  }

  lemma Regroup3(p: seq<Token>, x: seq<Token>, rx: seq<Token>, y: seq<Token>, ry: seq<Token>)
    ensures (p + x) + rx == p + (x + rx) && (p + y) + ry == p + (y + ry)
  {
  }

  /** What follows the body of a `do`. */
  function WhileRest(whileBr: bool, rest: seq<Token>): seq<Token> {
    Br(whileBr) + ([HeaderWord(While), Semicolon, LineBreak] + rest)
  }

  lemma WhileIsNoElse(whileBr: bool, rest: seq<Token>)
    ensures !StartsElse(WhileRest(whileBr, rest))
  {
  }

  lemma DoWhileText(s: Stmt, rest: seq<Token>)
    requires s.DoWhile?
    ensures WordTokens(s) + rest == [HeaderWord(Do)] + (Tokens(s.body) + WhileRest(s.whileBr, rest))
  {
    hide Tokens, Br;
    var last := [HeaderWord(While), Semicolon, LineBreak];
    Append3(Br(s.whileBr), last, rest);
    Append3(Tokens(s.body), Br(s.whileBr) + last, rest);
    Append3([HeaderWord(Do)], Tokens(s.body) + (Br(s.whileBr) + last), rest);
  }

  lemma OnlyOneDoWhile(a: Stmt, b: Stmt, ra: seq<Token>, rb: seq<Token>)
    requires a.DoWhile? && b.DoWhile? && DanglingElse(a) && DanglingElse(b) && a.br == b.br
    requires WordTokens(a) + ra == WordTokens(b) + rb
    ensures a == b && ra == rb
    decreases a, 0
  {
    hide Tokens, WordTokens, StartsElse, Br, WhileRest;
    DoWhileText(a, ra);
    DoWhileText(b, rb);
    SameRest(HeaderWord(Do), Tokens(a.body) + WhileRest(a.whileBr, ra), Tokens(b.body) + WhileRest(b.whileBr, rb));
    WhileIsNoElse(a.whileBr, ra);
    WhileIsNoElse(b.whileBr, rb);
    OnlyOneStatement(a.body, b.body, WhileRest(a.whileBr, ra), WhileRest(b.whileBr, rb));
    SameWhileRest(a.whileBr, ra, b.whileBr, rb);
  }

  lemma SameWhileRest(br1: bool, ra: seq<Token>, br2: bool, rb: seq<Token>)
    requires WhileRest(br1, ra) == WhileRest(br2, rb)
    ensures br1 == br2 && ra == rb
  {
    var last := [HeaderWord(While), Semicolon, LineBreak];
    SameBreak(br1, last + ra, br2, last + rb);
    AfterPrefix(last, ra, rb);
  }

  /** What follows the first branch of an `if`. */
  function ElseRest(s: Stmt, rest: seq<Token>): seq<Token>
    requires s.IfThen? || s.IfElse?
  {
    if s.IfThen? then rest else Br(s.elseBr) + ([HeaderWord(Else)] + (Tokens(s.els) + rest))
  }

  lemma IfText(s: Stmt, rest: seq<Token>)
    requires s.IfThen? || s.IfElse?
    ensures WordTokens(s) + rest == [HeaderWord(If)] + (Tokens(s.thn) + ElseRest(s, rest))
  {
    hide Tokens, Br;
    if s.IfThen? {
      Append3([HeaderWord(If)], Tokens(s.thn), rest);
    } else {
      var last := [HeaderWord(Else)] + Tokens(s.els);
      Append3([HeaderWord(Else)], Tokens(s.els), rest);
      Append3(Br(s.elseBr), last, rest);
      Append3(Tokens(s.thn), Br(s.elseBr) + last, rest);
      Append3([HeaderWord(If)], Tokens(s.thn) + (Br(s.elseBr) + last), rest);
    }
  }

  lemma ElseRestStarts(s: Stmt, rest: seq<Token>)
    requires s.IfElse?
    ensures StartsElse(ElseRest(s, rest))
  {
    hide Tokens;
  }

  lemma OnlyOneIf(a: Stmt, b: Stmt, ra: seq<Token>, rb: seq<Token>)
    requires (a.IfThen? || a.IfElse?) && (b.IfThen? || b.IfElse?)
    requires DanglingElse(a) && DanglingElse(b) && a.br == b.br && WordTokens(a) + ra == WordTokens(b) + rb
    requires (EndsOpen(a) ==> !StartsElse(ra)) && (EndsOpen(b) ==> !StartsElse(rb))
    ensures a == b && ra == rb
    decreases a, 0
  {
    hide Tokens, WordTokens, StartsElse, Br, ElseRest;
    IfText(a, ra);
    IfText(b, rb);
    SameRest(HeaderWord(If), Tokens(a.thn) + ElseRest(a, ra), Tokens(b.thn) + ElseRest(b, rb));
    ThenRest(a, ra);
    ThenRest(b, rb);
    OnlyOneStatement(a.thn, b.thn, ElseRest(a, ra), ElseRest(b, rb));
    if a.IfElse? {
      ElseRestStarts(a, ra);
    }
    if b.IfElse? {
      ElseRestStarts(b, rb);
    }
    if a.IfElse? && b.IfElse? {
      SameElseRest(a, ra, b, rb);
      OnlyOneStatement(a.els, b.els, ra, rb);
    }
  }

  lemma ThenRest(s: Stmt, rest: seq<Token>)
    requires (s.IfThen? || s.IfElse?) && DanglingElse(s) && (EndsOpen(s) ==> !StartsElse(rest))
    ensures EndsOpen(s.thn) ==> !StartsElse(ElseRest(s, rest))
    ensures s.IfThen? ==> ElseRest(s, rest) == rest && !StartsElse(rest)
  {
    hide Tokens, StartsElse;
  }

  lemma SameElseRest(a: Stmt, ra: seq<Token>, b: Stmt, rb: seq<Token>)
    requires a.IfElse? && b.IfElse? && ElseRest(a, ra) == ElseRest(b, rb)
    ensures a.elseBr == b.elseBr && Tokens(a.els) + ra == Tokens(b.els) + rb
  {
    hide Tokens;
    var x, y := Tokens(a.els) + ra, Tokens(b.els) + rb;
    SameBreak(a.elseBr, [HeaderWord(Else)] + x, b.elseBr, [HeaderWord(Else)] + y);
    SameRest(HeaderWord(Else), x, y);
  }

  /** What follows the statements of a block. */
  function CloseRest(closeBr: bool, rest: seq<Token>): seq<Token> {
    Br(closeBr) + ([Close] + rest)
  }

  lemma BlockText(s: Stmt, rest: seq<Token>)
    requires s.Block?
    ensures WordTokens(s) + rest == [Open] + (ListTokens(s.stmts) + CloseRest(s.closeBr, rest))
  {
    hide ListTokens, Br;
    Append3(Br(s.closeBr), [Close], rest);
    Append3(ListTokens(s.stmts), Br(s.closeBr) + [Close], rest);
    Append3([Open], ListTokens(s.stmts) + (Br(s.closeBr) + [Close]), rest);
  }

  lemma OnlyOneBlock(a: Stmt, b: Stmt, ra: seq<Token>, rb: seq<Token>)
    requires a.Block? && b.Block? && DanglingElse(a) && DanglingElse(b) && a.br == b.br
    requires WordTokens(a) + ra == WordTokens(b) + rb
    ensures a == b && ra == rb
    decreases a, 0
  {
    hide WordTokens, ListTokens, CloseRest;
    BlockText(a, ra);
    BlockText(b, rb);
    SameRest(Open, ListTokens(a.stmts) + CloseRest(a.closeBr, ra), ListTokens(b.stmts) + CloseRest(b.closeBr, rb));
    OnlyOneList(a.stmts, b.stmts, a.closeBr, b.closeBr, ra, rb);
  }

  lemma ListBegins(ss: Stmts, closeBr: bool, rest: seq<Token>)
    ensures var ts := ListTokens(ss) + CloseRest(closeBr, rest);
            FirstWord(ts) == Some(if ss.Nil? then Close else Begin(ss.head)) && !StartsElse(ts)
  {
    hide Tokens;
    if ss.Cons? {
      Append3(Tokens(ss.head), ListTokens(ss.tail), CloseRest(closeBr, rest));
      BeginsWith(ss.head, ListTokens(ss.tail) + CloseRest(closeBr, rest));
    } else {
      assert [] + CloseRest(closeBr, rest) == CloseRest(closeBr, rest);
    }
  }

  lemma {:induction false} OnlyOneList(a: Stmts, b: Stmts, ca: bool, cb: bool, ra: seq<Token>, rb: seq<Token>)
    requires ListDanglingElse(a) && ListDanglingElse(b)
    requires ListTokens(a) + CloseRest(ca, ra) == ListTokens(b) + CloseRest(cb, rb)
    ensures a == b && ca == cb && ra == rb
    decreases a, 0
  {
    hide Tokens, DanglingElse, StartsElse, FirstWord, CloseRest;
    ListBegins(a, ca, ra);
    ListBegins(b, cb, rb);
    assert a.Nil? <==> b.Nil?;
    if a.Nil? {
      assert [] + CloseRest(ca, ra) == CloseRest(ca, ra) && [] + CloseRest(cb, rb) == CloseRest(cb, rb);
      SameCloseRest(ca, ra, cb, rb);
    } else {
      var xa, xb := ListTokens(a.tail) + CloseRest(ca, ra), ListTokens(b.tail) + CloseRest(cb, rb);
      Append3(Tokens(a.head), ListTokens(a.tail), CloseRest(ca, ra));
      Append3(Tokens(b.head), ListTokens(b.tail), CloseRest(cb, rb));
      ListBegins(a.tail, ca, ra);
      ListBegins(b.tail, cb, rb);
      OnlyOneStatement(a.head, b.head, xa, xb);
      OnlyOneList(a.tail, b.tail, ca, cb, ra, rb);
    }
  }

  lemma SameCloseRest(br1: bool, ra: seq<Token>, br2: bool, rb: seq<Token>)
    requires CloseRest(br1, ra) == CloseRest(br2, rb)
    ensures br1 == br2 && ra == rb
  {
    SameBreak(br1, [Close] + ra, br2, [Close] + rb);
    SameRest(Close, ra, rb);
  }

  /** The dangling-else parse is the only tree with the same text that obeys the rule. */
  lemma OnlyParse(program: Stmts, parse: Stmts)
    requires ListDanglingElse(parse) && ListTokens(parse) == ListTokens(program)
    ensures parse == ListReparse(program)
  {
    hide ListTokens, ListDanglingElse;
    ListReparseSameText(program);
    OnlyOneList(parse, ListReparse(program), false, false, [], []);
  }

  /** Every program, from the initial state: the parser sees its dangling-else parse. */
  lemma ProgramIsParsed(program: Stmts)
    ensures var (st', events) := Run(INITIAL, ListTokens(program));
            && events == ListEvents(ListReparse(program), [], 0, true)
            && st'.headerStack == [] && |st'.tempStacks| == 1
  {
    ListReparseSameText(program);
    BlockIsPath(ListReparse(program), INITIAL);
  }

  // ---------- Every run, well formed or not ----------

  ghost function Braces(hs: seq<Header>): nat {
    if hs == [] then 0 else Braces(Init(hs)) + if Last(hs) == OpenBrace then 1 else 0
  }

  /** One `tempStacks` entry for the outermost level and one for each open brace; none holds a brace. */
  ghost predicate Valid(st: State) {
    && |st.tempStacks| >= 1 + Braces(st.headerStack)
    && forall i :: 0 <= i < |st.tempStacks| ==> OpenBrace !in st.tempStacks[i]
  }

  lemma {:induction false} BracesPrefix(a: seq<Header>, b: seq<Header>)
    requires OpenBrace !in b
    ensures Braces(a + b) == Braces(a)
    decreases |b|
  {
    if b == [] {
      assert a + b == a;
    } else {
      assert forall x :: x in Init(b) ==> x in b;
      BracesPrefix(a, Init(b));
      assert Init(a + b) == a + Init(b);
      assert Last(a + b) == Last(b);
    }
  }

  lemma PushedBraces(a: seq<Header>, h: Header)
    ensures Braces(a + [h]) == Braces(a) + if h == OpenBrace then 1 else 0
  {
    assert Init(a + [h]) == a;
  }

  lemma StatementEndKeepsValid(st: State)
    requires Valid(st)
    ensures Valid(StatementEnd(st))
  {
    BaseAbove(st.headerStack);
    BracesPrefix(Base(st.headerStack), Above(st.headerStack));
    ReverseMembers(Above(st.headerStack), OpenBrace);
  }

  lemma RestackKeepsValid(st: State, opener: Header)
    requires Valid(st)
    ensures Valid(Restack(st, opener))
  {
    hide Reverse, IndexOf, Base;
    var temp := Last(st.tempStacks);
    assert temp == st.tempStacks[|st.tempStacks| - 1];
    var i := IndexOf(temp, opener);
    if i != -1 {
      var moved := temp[i + 1..];
      assert OpenBrace !in moved;
      ReverseMembers(moved, OpenBrace);
      BracesPrefix(st.headerStack, Reverse(moved));
    }
  }

  lemma PopBraceKeepsValid(st: State)
    requires Valid(st)
    ensures Valid(PopBrace(st))
  {
    if OpenBrace in st.headerStack {
      var base := Base(st.headerStack);
      BaseAbove(st.headerStack);
      BracesPrefix(base, Above(st.headerStack));
      assert base != [];
    }
  }

  lemma HeaderKeepsValid(st: State, h: HeaderKeyword)
    requires Valid(st)
    ensures Valid(Step(st, HeaderWord(h)).0)
  {
    hide Base, Restack, Braces;
    RestackKeepsValid(st, If);
    RestackKeepsValid(st, Do);
    if st.headerStack != [] {
      PushedBraces(Init(st.headerStack), Last(st.headerStack));
      assert Init(st.headerStack) + [Last(st.headerStack)] == st.headerStack;
    }
    assert Valid(BeforeHeader(st, h));
    PushedBraces(BeforeHeader(st, h).headerStack, h);
  }

  lemma StepKeepsValid(st: State, t: Token)
    requires Valid(st)
    ensures Valid(Step(st, t).0)
  {
    hide Base, Reverse, IndexOf, HeaderIndent, Restack, Braces, StatementEnd, PopBrace, BeforeHeader;
    match t
    case LineBreak =>
    case Word =>
    case HeaderWord(h) => HeaderKeepsValid(st, h);
    case Semicolon => StatementEndKeepsValid(st);
    case Open =>
      PushedBraces(st.headerStack, OpenBrace);
      assert forall i :: 0 <= i < |st.tempStacks + [[]]| ==> OpenBrace !in (st.tempStacks + [[]])[i];
    case Close =>
      PopBraceKeepsValid(st);
      StatementEndKeepsValid(PopBrace(st).(closingBraceReached := true, atLineStart := false));
  }

  /** Over any run of tokens the parser never looks at an empty `tempStacks`. */
  lemma {:induction false} RunKeepsValid(st: State, ts: seq<Token>)
    requires Valid(st)
    ensures Valid(Run(st, ts).0)
    decreases |ts|
  {
    hide Step, Valid;
    if ts != [] {
      StepKeepsValid(st, ts[0]);
      RunKeepsValid(Step(st, ts[0]).0, ts[1..]);
    }
  }

  // ---------- The parser's loops ----------

  lemma {:induction false} BaseUnique(hs: seq<Header>, n: nat)
    requires n <= |hs| && OpenBrace !in hs[n..]
    requires n == 0 || hs[n - 1] == OpenBrace
    ensures Base(hs) == hs[..n]
    decreases |hs|
  {
    if n < |hs| {
      assert Last(hs) == hs[n..][|hs| - n - 1];
      assert Init(hs)[n..] == hs[n..][..|hs| - n - 1];
      assert Init(hs)[..n] == hs[..n];
      BaseUnique(Init(hs), n);
    }
  }

  class LineParser {
    var headerStack: seq<Header>
    var tempStacks: seq<seq<Header>>
    var lastLineHeader: Option<Header>
    var indentCount: int
    var atLineStart: bool
    var closingBraceReached: bool

    ghost function Abs(): State
      reads this
    {
      State(headerStack, tempStacks, lastLineHeader, indentCount, atLineStart, closingBraceReached)
    }

    constructor ()
      ensures Abs() == INITIAL
    {
      headerStack, tempStacks, lastLineHeader := [], [[]], None;
      indentCount, atLineStart, closingBraceReached := 0, true, false;
    }

    method ComputePreliminaryIndentation()
      modifies this`indentCount
      ensures indentCount == HeaderIndent(headerStack)
    {
      indentCount := 0;
      for i := 0 to |headerStack|
        invariant indentCount == HeaderIndent(headerStack[..i])
      {
        if !(i > 0 && headerStack[i - 1] != OpenBrace && headerStack[i] == OpenBrace) {
          indentCount := indentCount + 1;
        }
        assert Init(headerStack[..i + 1]) == headerStack[..i];
      }
      assert headerStack[..|headerStack|] == headerStack;
    }

    method PutBack(temp: seq<Header>, restackSize: nat) returns (rest: seq<Header>)
      requires restackSize <= |temp|
      modifies this`headerStack
      ensures headerStack == old(headerStack) + Reverse(temp[|temp| - restackSize..])
      ensures rest == temp[..|temp| - restackSize]
    {
      rest := temp;
      for r := 0 to restackSize
        invariant rest == temp[..|temp| - r]
        invariant headerStack == old(headerStack) + Reverse(temp[|temp| - r..])
      {
        ghost var k := |temp| - r - 1;
        assert temp[k..][0] == temp[k] && temp[k..][1..] == temp[k + 1..];
        headerStack := headerStack + [rest[|rest| - 1]];
        rest := rest[..|rest| - 1];
      }
    }

    /** Recreate the header list up to the previous `opener` from the snapshot in `tempStacks`. */
    method RestackTo(opener: Header)
      requires tempStacks != []
      modifies this
      ensures Abs() == Restack(old(Abs()), opener)
    {
      var lastTempStack := tempStacks[|tempStacks| - 1];
      var indexOfOpener := IndexOf(lastTempStack, opener);
      if indexOfOpener != -1 {
        var restackSize := |lastTempStack| - indexOfOpener - 1;
        var rest := PutBack(lastTempStack, restackSize);
        tempStacks := tempStacks[..|tempStacks| - 1] + [rest];
        if !closingBraceReached {
          indentCount := indentCount + restackSize;
        }
      }
    }

    /** Move the headers of the statement just ended to the top of `tempStacks`. */
    method EndStatement()
      requires tempStacks != []
      modifies this`headerStack, this`tempStacks
      ensures Abs() == StatementEnd(old(Abs()))
    {
      hide Reverse, HeaderIndent;
      ReverseNothing(headerStack);
      var temp := tempStacks[|tempStacks| - 1];
      while temp != [] {
        temp := temp[..|temp| - 1];
      }
      while headerStack != [] && headerStack[|headerStack| - 1] != OpenBrace
        modifies this`headerStack
        invariant headerStack <= old(headerStack)
        invariant OpenBrace !in old(headerStack)[|headerStack|..]
        invariant temp == Reverse(old(headerStack)[|headerStack|..])
      {
        var k := |headerStack| - 1;
        ReverseFront(old(headerStack), k);
        temp := temp + [headerStack[k]];
        headerStack := headerStack[..k];
      }
      BaseUnique(old(headerStack), |headerStack|);
      tempStacks := tempStacks[..|tempStacks| - 1] + [temp];
    }

    method PopToBrace()
      requires OpenBrace in headerStack
      modifies this`headerStack
      ensures headerStack == Init(Base(old(headerStack)))
    {
      var popped := headerStack[|headerStack| - 1];
      while popped != OpenBrace
        invariant headerStack <= old(headerStack) && headerStack != []
        invariant popped == headerStack[|headerStack| - 1]
        invariant OpenBrace in headerStack
        invariant OpenBrace !in old(headerStack)[|headerStack|..]
        decreases |headerStack|
      {
        var k := |headerStack| - 1;
        assert headerStack == headerStack[..k] + [popped];
        assert old(headerStack)[k..] == [popped] + old(headerStack)[k + 1..];
        headerStack := headerStack[..k];
        popped := headerStack[|headerStack| - 1];
      }
      BaseUnique(old(headerStack), |headerStack|);
      headerStack := headerStack[..|headerStack| - 1];
    }

    method CloseBlock()
      requires Valid(Abs())
      modifies this
      ensures Abs() == Step(old(Abs()), Close).0
    {
      hide Base, Reverse, IndexOf, StatementEnd;
      ghost var before := Abs();
      PopBraceKeepsValid(before);
      closingBraceReached, atLineStart := true, false;
      if IndexOf(headerStack, OpenBrace) != -1 {
        PopToBrace();
        if tempStacks != [] {
          tempStacks := tempStacks[..|tempStacks| - 1];
        }
      }
      assert Abs() == PopBrace(before).(closingBraceReached := true, atLineStart := false);
      EndStatement();
    }

    method ReachHeader(h: HeaderKeyword) returns (events: seq<Event>)
      requires Valid(Abs())
      modifies this
      ensures (Abs(), events) == Step(old(Abs()), HeaderWord(h))
    {
      if h == If && lastLineHeader == Some(Else) {
        if headerStack != [] {
          headerStack := headerStack[..|headerStack| - 1];
        }
      } else if h == Else {
        RestackTo(If);
      } else if h == While {
        RestackTo(Do);
      }
      events := [Event(headerStack, if atLineStart then Some(indentCount) else None)];
      headerStack := headerStack + [h];
      lastLineHeader := Some(h);
      atLineStart := false;
    }

    method Parse(t: Token) returns (events: seq<Event>)
      requires Valid(Abs())
      modifies this
      ensures Valid(Abs()) && (Abs(), events) == Step(old(Abs()), t)
    {
      StepKeepsValid(Abs(), t);
      events := [];
      match t
      case LineBreak =>
        lastLineHeader, atLineStart, closingBraceReached := None, true, false;
        ComputePreliminaryIndentation();
      case Word =>
        events := [Event(headerStack, if atLineStart then Some(indentCount) else None)];
        atLineStart := false;
      case HeaderWord(h) => events := ReachHeader(h);
      case Semicolon =>
        EndStatement();
        atLineStart := false;
      case Open =>
        tempStacks := tempStacks + [[]];
        headerStack := headerStack + [OpenBrace];
        lastLineHeader, atLineStart := Some(OpenBrace), false;
      case Close => CloseBlock();
    }

    /** A whole program: its events are those of its dangling-else parse. */
    method ParseProgram(ghost program: Stmts, tokens: seq<Token>) returns (events: seq<Event>)
      requires Abs() == INITIAL
      requires tokens == ListTokens(program)
      modifies this
      ensures events == ListEvents(ListReparse(program), [], 0, true)
      ensures headerStack == []
    {
      hide Step, ListTokens, ListEvents;
      events := [];
      for i := 0 to |tokens|
        invariant Valid(Abs())
        invariant (Abs(), events) == Run(INITIAL, tokens[..i])
      {
        ghost var before := Abs();
        var e := Parse(tokens[i]);
        RunOne(before, tokens[i]);
        RunAppend(INITIAL, tokens[..i], [tokens[i]]);
        assert tokens[..i + 1] == tokens[..i] + [tokens[i]];
        events := events + e;
      }
      assert tokens[..|tokens|] == tokens;
      ProgramIsParsed(program);
    }
  }

  lemma RunOne(st: State, t: Token)
    ensures Run(st, [t]) == Step(st, t)
  {
    RunCons(st, t, []);
    assert [t] + [] == [t];
    assert Step(st, t).1 + [] == Step(st, t).1;
  }
}
