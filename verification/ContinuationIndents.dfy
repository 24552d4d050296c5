/**
  The continuation indents of the beautifier.

  Every open bracket, array brace or template notes on the size stack how many continuation
  indents there were, and its closer cuts the indents back to that number.  A block opener
  throws all of them away.  Some places take an indent away without looking at the sizes.
*/
module ContinuationIndents {
  import opened Common

  /** `depths` are the paren depths around the open blocks. */
  datatype Stacks = Stacks(
    indents: seq<int>,
    sizes: seq<nat>,
    parenIndents: seq<int>,
    parenDepth: int,
    templateDepth: int,
    depths: seq<int>)

  const INITIAL := Stacks([], [0], [], 0, 0, [])

  /**
    What the parser meets.  `indent` and `parenIndent` are the columns registered there.
    `DropIndent` is a line of an enum that begins with a comma, a namespace header, or the end
    of an Objective-C method definition.
  */
  datatype Token =
    | OpenBracket(indent: int, parenIndent: int)
    | CloseBracket
    | OpenArrayBrace(indent: int, parenIndent: int)
    | CloseArrayBrace
    | OpenTemplate(indent: int, parenIndent: int)
    | CloseTemplate
    | Assignment(indent: int)
    | NewOperator
    | Comma(endOfLineIndent: Option<int>)
    | EnumComma
    | DropIndent
    | Semicolon
    | OpenBlock
    | CloseBlock
    | ObjCEnd

  // ---------- The steps as functions ----------

  function CutTo<T>(s: seq<T>, n: nat): seq<T> {
    if n < |s| then s[..n] else s
  }

  function DropLast<T>(s: seq<T>): seq<T> {
    if s == [] then s else s[..|s| - 1]
  }

  function AsSeq<T>(o: Option<T>): seq<T> {
    if o.Some? then [o.value] else []
  }

  function PopLast(st: Stacks): Stacks
    requires st.sizes != []
  {
    var top := |st.sizes| - 1;
    st.(indents := CutTo(st.indents, st.sizes[top]), sizes := if top > 0 then st.sizes[..top] else st.sizes)
  }

  function Push(st: Stacks, indent: int, parenIndent: int): Stacks {
    st.(indents := st.indents + [indent], sizes := st.sizes + [|st.indents|],
        parenIndents := st.parenIndents + [parenIndent])
  }

  function Open(st: Stacks, indent: int, parenIndent: int): Stacks {
    Push(st, indent, parenIndent).(parenDepth := st.parenDepth + 1)
  }

  function Close(st: Stacks): Stacks
    requires st.sizes != []
  {
    PopLast(st).(parenIndents := DropLast(st.parenIndents), parenDepth := st.parenDepth - 1)
  }

  /** A semicolon, or a comma in brackets: only the indent of the innermost bracket stays. */
  function EndOfPart(st: Stacks): Stacks
    requires st.sizes != []
  {
    st.(indents := CutTo(st.indents, st.sizes[|st.sizes| - 1] + if st.parenDepth > 0 then 1 else 0))
  }

  /** The closer of the outermost template is then taken for a semicolon; the paren indent is left behind. */
  function LeaveTemplate(st: Stacks): Stacks
    requires st.sizes != []
  {
    var st1 := PopLast(st).(templateDepth := st.templateDepth - 1);
    if st1.templateDepth <= 0 then EndOfPart(st1).(templateDepth := 0) else st1
  }

  function LeaveBlock(st: Stacks): Stacks
    requires st.sizes != []
  {
    var st1 := PopLast(st);
    if st.depths == [] then st1
    else st1.(parenDepth := st.depths[|st.depths| - 1], depths := st.depths[..|st.depths| - 1])
  }

  /** The block opener's loop: pop until no indent is left. */
  ghost function Purge(st: Stacks): Stacks
    requires Bottomed(st)
    decreases |st.indents|, |st.sizes|
  {
    if st.indents == [] then st else Purge(PopLast(st))
  }

  ghost function EnterBlock(st: Stacks): Stacks
    requires Bottomed(st)
  {
    Purge(st).(parenDepth := 0, depths := st.depths + [st.parenDepth])
  }

  ghost function Step(st: Stacks, t: Token): Stacks
    requires Bottomed(st)
  {
    match t
    case OpenBracket(indent, parenIndent) => Open(st, indent, parenIndent)
    case OpenArrayBrace(indent, parenIndent) => Open(st, indent, parenIndent)
    case OpenTemplate(indent, parenIndent) => Push(st, indent, parenIndent).(templateDepth := st.templateDepth + 1)
    case CloseBracket => Close(st)
    case CloseArrayBrace => Close(st)
    case CloseTemplate => LeaveTemplate(st)
    case Assignment(indent) => st.(indents := st.indents + [indent])
    case NewOperator => st.(indents := if st.indents == [] then [] else DropLast(st.indents) + [0])
    case Comma(more) => if st.parenDepth > 0 then EndOfPart(st) else st.(indents := st.indents + AsSeq(more))
    case EnumComma => if st.parenDepth > 0 then EndOfPart(st) else st.(indents := DropLast(st.indents))
    case DropIndent => st.(indents := DropLast(st.indents))
    case Semicolon => EndOfPart(st)
    case OpenBlock => EnterBlock(st)
    case CloseBlock => LeaveBlock(st)
    case ObjCEnd => PopLast(st)
  }

  // ---------- Invariants of every run ----------

  /** The size stack has a bottom of 0, so popping can always get rid of all indents. */
  ghost predicate Bottomed(st: Stacks) {
    st.sizes != [] && st.sizes[0] == 0 && st.templateDepth >= 0
  }

  /** Nondecreasing from 0 and no more than there are indents. */
  ghost predicate Ordered(st: Stacks) {
    && Bottomed(st)
    && (forall i, j :: 0 <= i < j < |st.sizes| ==> st.sizes[i] <= st.sizes[j])
    && st.sizes[|st.sizes| - 1] <= |st.indents|
  }

  lemma {:induction false} PurgeEmpties(st: Stacks)
    requires Bottomed(st)
    ensures var p := Purge(st);
            && p.indents == [] && Bottomed(p) && p.sizes <= st.sizes
            && p == st.(indents := [], sizes := p.sizes)
    ensures Ordered(st) ==> Ordered(Purge(st)) && forall i :: 0 <= i < |Purge(st).sizes| ==> Purge(st).sizes[i] == 0
    decreases |st.indents|, |st.sizes|
  {
    if st.indents != [] {
      PurgeEmpties(PopLast(st));
      PopKeepsOrder(st);
    } else if Ordered(st) {
      var top := |st.sizes| - 1;
      assert forall i :: 0 <= i < top ==> st.sizes[i] <= st.sizes[top];
    }
  }

  lemma PopKeepsOrder(st: Stacks)
    requires Bottomed(st)
    ensures Bottomed(PopLast(st)) && (Ordered(st) ==> Ordered(PopLast(st)))
  {
  }

  /** Over every run whatsoever the bottom stays. */
  lemma StepKeepsBottom(st: Stacks, t: Token)
    requires Bottomed(st)
    ensures Bottomed(Step(st, t))
  {
    PurgeEmpties(st);
  }

  /** The last indent is one that the top size counts. */
  ghost predicate AtBottom(st: Stacks) {
    st.indents != [] && st.sizes != [] && |st.indents| <= st.sizes[|st.sizes| - 1]
  }

  ghost predicate TakesUnguarded(st: Stacks, t: Token) {
    t.DropIndent? || (t.EnumComma? && st.parenDepth <= 0)
  }

  lemma PushKeepsOrder(st: Stacks, t: Token)
    requires Ordered(st) && (t.OpenBracket? || t.OpenArrayBrace? || t.OpenTemplate?)
    ensures Ordered(Step(st, t))
  {
  }

  lemma CloseKeepsOrder(st: Stacks, t: Token)
    requires Ordered(st) && (t.CloseBracket? || t.CloseArrayBrace? || t.CloseBlock? || t.ObjCEnd?)
    ensures Ordered(Step(st, t))
  {
    hide Ordered;
    OrderedIsBottomed(st);
    PopKeepsOrder(st);
    SameOrder(PopLast(st), Step(st, t));
  }

  lemma LeaveKeepsOrder(st: Stacks)
    requires Ordered(st)
    ensures Ordered(Step(st, CloseTemplate))
  {
    hide Ordered, CutTo;
    OrderedIsBottomed(st);
    PopKeepsOrder(st);
    var st1 := PopLast(st).(templateDepth := if st.templateDepth > 1 then st.templateDepth - 1 else 0);
    SameOrder(PopLast(st), st1);
    PartKeepsOrder(st1);
  }

  /** The order is one of indents and sizes only. */
  lemma SameOrder(a: Stacks, b: Stacks)
    requires a.indents == b.indents && a.sizes == b.sizes && b.templateDepth >= 0
    ensures Ordered(a) ==> Ordered(b)
  {
  }

  lemma PartKeepsOrder(st: Stacks)
    requires Bottomed(st)
    ensures Ordered(st) ==> Ordered(EndOfPart(st))
  {
  }

  lemma OtherKeepsOrder(st: Stacks, t: Token)
    requires Ordered(st)
    requires t.Assignment? || t.NewOperator? || t.Comma? || t.EnumComma? || t.DropIndent? || t.Semicolon?
    ensures Ordered(Step(st, t)) <==> (TakesUnguarded(st, t) ==> !AtBottom(st))
  {
    PartKeepsOrder(st);
  }

  /** A step keeps the order exactly when it does not take away an indent that the top size counts. */
  lemma StepKeepsOrderIff(st: Stacks, t: Token)
    requires Ordered(st)
    ensures Bottomed(st)
    ensures Ordered(Step(st, t)) <==> (TakesUnguarded(st, t) ==> !AtBottom(st))
  {
    hide Ordered, Step;
    OrderedIsBottomed(st);
    if !t.DropIndent? && !t.EnumComma? {
      NotTaking(st, t);
    }
    match t {
      case OpenBlock =>
        BlockKeepsOrder(st);
      case OpenBracket(_, _) => PushKeepsOrder(st, t);
      case OpenArrayBrace(_, _) => PushKeepsOrder(st, t);
      case OpenTemplate(_, _) => PushKeepsOrder(st, t);
      case CloseBracket => CloseKeepsOrder(st, t);
      case CloseArrayBrace => CloseKeepsOrder(st, t);
      case CloseTemplate => LeaveKeepsOrder(st);
      case CloseBlock => CloseKeepsOrder(st, t);
      case ObjCEnd => CloseKeepsOrder(st, t);
      case _ => OtherKeepsOrder(st, t);
    }
  }

  lemma BlockKeepsOrder(st: Stacks)
    requires Ordered(st)
    ensures Ordered(Step(st, OpenBlock))
  {
    hide Purge;
    PurgeEmpties(st);
  }

  lemma OrderedIsBottomed(st: Stacks)
    requires Ordered(st)
    ensures Bottomed(st)
  {
  }

  // ---------- Runs ----------

  ghost function Run(st: Stacks, ts: seq<Token>): Stacks
    requires Bottomed(st)
    ensures Bottomed(Run(st, ts))
    decreases |ts|
  {
    if ts == [] then st else
      StepKeepsBottom(st, ts[0]);
      Run(Step(st, ts[0]), ts[1..])
  }

  lemma {:induction false} RunAppend(st: Stacks, a: seq<Token>, b: seq<Token>)
    requires Bottomed(st)
    ensures Run(st, a + b) == Run(Run(st, a), b)
    decreases |a|
  {
    hide Step, Bottomed;
    if a == [] {
      assert a + b == b;
    } else {
      StepKeepsBottom(st, a[0]);
      RunAppend(Step(st, a[0]), a[1..], b);
      assert (a + b)[1..] == a[1..] + b;
    }
  }

  lemma RunCons(st: Stacks, t: Token, ts: seq<Token>)
    requires Bottomed(st)
    ensures Bottomed(Step(st, t)) && Run(st, [t] + ts) == Run(Step(st, t), ts)
  {
    StepKeepsBottom(st, t);
    assert ([t] + ts)[1..] == ts;
  }

  lemma RunOne(st: Stacks, t: Token)
    requires Bottomed(st)
    ensures Bottomed(Step(st, t)) && Run(st, [t]) == Step(st, t)
  {
    RunCons(st, t, []);
    assert [t] + [] == [t];
  }

  ghost predicate AlwaysOrdered(st: Stacks, ts: seq<Token>)
    requires Bottomed(st)
    decreases |ts|
  {
    Ordered(st) && (ts == [] || (StepKeepsBottom(st, ts[0]); AlwaysOrdered(Step(st, ts[0]), ts[1..])))
  }

  /** Nothing that the top size counts is taken away; `enums` tells whether enum commas are looked at. */
  ghost predicate NothingTaken(st: Stacks, ts: seq<Token>, enums: bool)
    requires Bottomed(st)
    decreases |ts|
  {
    ts == [] ||
    (&& (TakesUnguarded(st, ts[0]) && (enums || ts[0].DropIndent?) ==> !AtBottom(st))
     && (StepKeepsBottom(st, ts[0]); NothingTaken(Step(st, ts[0]), ts[1..], enums)))
  }

  /** Over every run the sizes are ordered all the time exactly when nothing they count is taken away. */
  lemma {:induction false} AlwaysOrderedIff(st: Stacks, ts: seq<Token>)
    requires Ordered(st)
    ensures Bottomed(st) && (AlwaysOrdered(st, ts) <==> NothingTaken(st, ts, true))
    decreases |ts|
  {
    hide Step, Ordered, AtBottom, TakesUnguarded;
    OrderedIsBottomed(st);
    if ts != [] {
      StepKeepsBottom(st, ts[0]);
      StepKeepsOrderIff(st, ts[0]);
      if Ordered(Step(st, ts[0])) {
        AlwaysOrderedIff(Step(st, ts[0]), ts[1..]);
      }
    }
  }

  /** Only as many sizes as there are open brackets and templates can be above 0. */
  ghost predicate Counted(st: Stacks) {
    && Ordered(st) && 0 <= st.parenDepth && (forall k :: 0 <= k < |st.depths| ==> 0 <= st.depths[k])
    && forall i :: 0 <= i < |st.sizes| - st.parenDepth - st.templateDepth ==> st.sizes[i] == 0
  }

  /** What is closed is open, no block ends inside of a bracket, no enumerator inside of a template. */
  ghost predicate WellBracketed(st: Stacks, t: Token) {
    && (t.CloseBracket? || t.CloseArrayBrace? ==> st.parenDepth > 0)
    && (t.CloseTemplate? ==> st.templateDepth > 0)
    && (t.CloseBlock? ==> st.parenDepth == 0)
    && (t.EnumComma? ==> st.templateDepth == 0 || st.parenDepth > 0)
  }

  lemma OpenKeepsCount(st: Stacks, t: Token)
    requires Counted(st) && (t.OpenBracket? || t.OpenArrayBrace? || t.OpenTemplate? || t.OpenBlock?)
    ensures Counted(Step(st, t))
  {
    hide Ordered, Purge;
    OrderedIsBottomed(st);
    StepKeepsOrderIff(st, t);
    PurgeEmpties(st);
  }

  lemma CloseKeepsCount(st: Stacks, t: Token)
    requires Counted(st) && WellBracketed(st, t)
    requires t.CloseBracket? || t.CloseArrayBrace? || t.CloseTemplate? || t.CloseBlock? || t.ObjCEnd?
    ensures Counted(Step(st, t))
  {
    hide Ordered, TakesUnguarded, AtBottom, CutTo;
    OrderedIsBottomed(st);
    StepKeepsOrderIff(st, t);
    assert !TakesUnguarded(st, t) by { NotTaking(st, t); }
  }

  lemma NotTaking(st: Stacks, t: Token)
    requires !t.DropIndent? && !t.EnumComma?
    ensures !TakesUnguarded(st, t)
  {
  }

  lemma StepKeepsCount(st: Stacks, t: Token)
    requires Counted(st) && WellBracketed(st, t) && (t.DropIndent? ==> !AtBottom(st))
    ensures Counted(Step(st, t))
    ensures TakesUnguarded(st, t) ==> !AtBottom(st)
  {
    hide Step;
    assert t.EnumComma? && st.parenDepth <= 0 ==> st.sizes[|st.sizes| - 1] == 0;
    match t {
      case OpenBracket(_, _) => OpenKeepsCount(st, t);
      case OpenArrayBrace(_, _) => OpenKeepsCount(st, t);
      case OpenTemplate(_, _) => OpenKeepsCount(st, t);
      case OpenBlock => OpenKeepsCount(st, t);
      case CloseBracket => CloseKeepsCount(st, t);
      case CloseArrayBrace => CloseKeepsCount(st, t);
      case CloseTemplate => CloseKeepsCount(st, t);
      case CloseBlock => CloseKeepsCount(st, t);
      case ObjCEnd => CloseKeepsCount(st, t);
      case _ => OtherKeepsCount(st, t);
    }
  }

  lemma OtherKeepsCount(st: Stacks, t: Token)
    requires Counted(st) && (TakesUnguarded(st, t) ==> !AtBottom(st))
    requires t.Assignment? || t.NewOperator? || t.Comma? || t.EnumComma? || t.DropIndent? || t.Semicolon?
    ensures Counted(Step(st, t))
  {
    hide Ordered, TakesUnguarded, AtBottom;
    OrderedIsBottomed(st);
    StepKeepsOrderIff(st, t);
  }

  ghost predicate WellBracketedRun(st: Stacks, ts: seq<Token>)
    requires Bottomed(st)
    decreases |ts|
  {
    ts == [] || (WellBracketed(st, ts[0]) && (StepKeepsBottom(st, ts[0]); WellBracketedRun(Step(st, ts[0]), ts[1..])))
  }

  lemma CountedIsOrdered(st: Stacks)
    requires Counted(st)
    ensures Ordered(st) && Bottomed(st)
  {
  }

  lemma {:induction false} DropsDecide(st: Stacks, ts: seq<Token>)
    requires Counted(st)
    ensures Bottomed(st)
    ensures WellBracketedRun(st, ts) ==> (NothingTaken(st, ts, true) <==> NothingTaken(st, ts, false))
    decreases |ts|
  {
    hide Step, Ordered, Counted, WellBracketed, AtBottom, TakesUnguarded;
    CountedIsOrdered(st);
    if ts != [] && WellBracketed(st, ts[0]) {
      StepKeepsBottom(st, ts[0]);
      assert ts[0].DropIndent? ==> TakesUnguarded(st, ts[0]) by { DropTakes(st, ts[0]); }
      if ts[0].DropIndent? ==> !AtBottom(st) {
        StepKeepsCount(st, ts[0]);
        DropsDecide(Step(st, ts[0]), ts[1..]);
      }
    }
  }

  lemma DropTakes(st: Stacks, t: Token)
    ensures t.DropIndent? ==> TakesUnguarded(st, t)
  {
  }

  /**
    Over every well bracketed run the sizes stay ordered, enum commas or not, exactly when each
    unguarded drop finds no indent, or one that the top size does not count.
  */
  lemma RunKeepsOrderIff(st: Stacks, ts: seq<Token>)
    requires Counted(st)
    ensures Bottomed(st)
    ensures WellBracketedRun(st, ts) ==> (AlwaysOrdered(st, ts) <==> NothingTaken(st, ts, false))
  {
    hide Ordered, Counted;
    CountedIsOrdered(st);
    DropsDecide(st, ts);
    AlwaysOrderedIff(st, ts);
  }

  // ---------- Bracket discipline ----------

  datatype Part =
    | Assign(indent: int)
    | NewPart
    | CommaPart(endOfLineIndent: Option<int>)
    | EnumCommaPart
    | DropPart
    | SemicolonPart
    | Bracketed(indent: int, parenIndent: int, inside: Parts)
    | ArrayBraced(indent: int, parenIndent: int, inside: Parts)
    | Templated(indent: int, parenIndent: int, inside: Parts)
    | Blocked(inside: Parts)

  datatype Parts = Nil | Cons(head: Part, tail: Parts)

  /** The opener and the closer of a part that has an inside. */
  function Opener(p: Part): Token {
    match p
    case Bracketed(indent, parenIndent, _) => OpenBracket(indent, parenIndent)
    case ArrayBraced(indent, parenIndent, _) => OpenArrayBrace(indent, parenIndent)
    case Templated(indent, parenIndent, _) => OpenTemplate(indent, parenIndent)
    case _ => OpenBlock
  }

  function Closer(p: Part): Token {
    match p
    case Bracketed(_, _, _) => CloseBracket
    case ArrayBraced(_, _, _) => CloseArrayBrace
    case Templated(_, _, _) => CloseTemplate
    case _ => CloseBlock
  }

  predicate HasInside(p: Part) {
    p.Bracketed? || p.ArrayBraced? || p.Templated? || p.Blocked?
  }

  function Simple(p: Part): Token
    requires !HasInside(p)
  {
    match p
    case Assign(indent) => Assignment(indent)
    case NewPart => NewOperator
    case CommaPart(more) => Comma(more)
    case EnumCommaPart => EnumComma
    case DropPart => DropIndent
    case SemicolonPart => Semicolon
  }

  function Tokens(p: Part): seq<Token> {
    if HasInside(p) then [Opener(p)] + (ListTokens(p.inside) + [Closer(p)]) else [Simple(p)]
  }

  function ListTokens(ps: Parts): seq<Token> {
    match ps
    case Nil => []
    case Cons(head, tail) => Tokens(head) + ListTokens(tail)
  }

  /** A part with an inside, step by step. */
  lemma RunInside(st: Stacks, p: Part)
    requires Bottomed(st) && HasInside(p)
    ensures var st1 := Step(st, Opener(p));
            && Bottomed(st1)
            && Run(st, Tokens(p)) == Step(Run(st1, ListTokens(p.inside)), Closer(p))
  {
    hide Step, Bottomed, ListTokens, Opener, Closer;
    var st1 := Step(st, Opener(p));
    RunCons(st, Opener(p), ListTokens(p.inside) + [Closer(p)]);
    RunAppend(st1, ListTokens(p.inside), [Closer(p)]);
    RunOne(Run(st1, ListTokens(p.inside)), Closer(p));
  }

  ghost predicate SameDepths(a: Stacks, b: Stacks) {
    a.parenDepth == b.parenDepth && a.templateDepth == b.templateDepth && a.depths == b.depths
  }

  lemma SimpleKeepsDepths(st: Stacks, p: Part)
    requires Bottomed(st) && !HasInside(p)
    ensures SameDepths(st, Step(st, Simple(p)))
  {
  }

  lemma InsideDepths(st: Stacks, p: Part, st2: Stacks)
    requires Bottomed(st) && Bottomed(st2) && HasInside(p) && SameDepths(Step(st, Opener(p)), st2)
    ensures SameDepths(st, Step(st2, Closer(p)))
  {
    hide Purge;
    PurgeEmpties(st);
  }

  /** Everything balanced, blocks in brackets included, leaves the three kinds of depth as they were. */
  lemma {:induction false} BalancedKeepsDepths(st: Stacks, ps: Parts)
    requires Bottomed(st)
    ensures SameDepths(st, Run(st, ListTokens(ps)))
    decreases ps, 0
  {
    hide Step, Bottomed, Tokens;
    match ps
    case Nil =>
    case Cons(head, tail) =>
      RunAppend(st, Tokens(head), ListTokens(tail));
      PartKeepsDepths(st, head);
      BalancedKeepsDepths(Run(st, Tokens(head)), tail);
  }

  lemma PartKeepsDepths(st: Stacks, p: Part)
    requires Bottomed(st)
    ensures SameDepths(st, Run(st, Tokens(p)))
    decreases p, 1
  {
    hide Step, Bottomed, Run, SameDepths;
    if HasInside(p) {
      var st1 := Step(st, Opener(p));
      RunInside(st, p);
      BalancedKeepsDepths(st1, p.inside);
      InsideDepths(st, p, Run(st1, ListTokens(p.inside)));
    } else {
      RunOne(st, Simple(p));
      SimpleKeepsDepths(st, p);
    }
  }

  /** The number of templates; each leaves a paren indent behind. */
  function Templates(p: Part): nat {
    if HasInside(p) then (if p.Templated? then 1 else 0) + ListTemplates(p.inside) else 0
  }

  function ListTemplates(ps: Parts): nat {
    match ps
    case Nil => 0
    case Cons(head, tail) => Templates(head) + ListTemplates(tail)
  }

  predicate NoBlocks(ps: Parts) {
    match ps
    case Nil => true
    case Cons(head, tail) => PartNoBlocks(head) && NoBlocks(tail)
  }

  predicate PartNoBlocks(p: Part) {
    !p.Blocked? && (HasInside(p) ==> NoBlocks(p.inside))
  }

  // ---------- What no part can change ----------

  /** The size stack is back, and of the paren indents only `more` have been added. */
  ghost predicate SameShape(a: Stacks, more: nat, b: Stacks) {
    && b.sizes == a.sizes
    && a.parenIndents <= b.parenIndents && |b.parenIndents| == |a.parenIndents| + more
  }

  lemma SimpleKeepsShape(st: Stacks, p: Part)
    requires Bottomed(st) && !HasInside(p)
    ensures SameShape(st, 0, Step(st, Simple(p)))
  {
  }

  lemma CloseKeepsShape(st: Stacks, p: Part, more: nat, st2: Stacks)
    requires Bottomed(st) && Bottomed(st2) && HasInside(p) && !p.Blocked?
    requires SameShape(Step(st, Opener(p)), more, st2)
    ensures SameShape(st, if p.Templated? then more + 1 else more, Step(st2, Closer(p)))
  {
  }

  /** Without blocks the sizes come back whatever is dropped, and each template leaves a paren indent. */
  lemma {:induction false} PartsKeepShape(st: Stacks, ps: Parts)
    requires Bottomed(st) && NoBlocks(ps)
    ensures SameShape(st, ListTemplates(ps), Run(st, ListTokens(ps)))
    decreases ps, 0
  {
    hide Step, Bottomed, Tokens;
    match ps
    case Nil =>
    case Cons(head, tail) =>
      RunAppend(st, Tokens(head), ListTokens(tail));
      PartKeepsShape(st, head);
      PartsKeepShape(Run(st, Tokens(head)), tail);
  }

  lemma PartKeepsShape(st: Stacks, p: Part)
    requires Bottomed(st) && PartNoBlocks(p)
    ensures SameShape(st, Templates(p), Run(st, Tokens(p)))
    decreases p, 1
  {
    hide Step, Bottomed, Run, SameShape;
    if HasInside(p) {
      var st1 := Step(st, Opener(p));
      RunInside(st, p);
      PartsKeepShape(st1, p.inside);
      CloseKeepsShape(st, p, ListTemplates(p.inside), Run(st1, ListTokens(p.inside)));
    } else {
      RunOne(st, Simple(p));
      SimpleKeepsShape(st, p);
    }
  }

  // ---------- What a bracket keeps ----------

  /**
    The indents `base` of an opener are spared: nothing is taken away when they are all there is,
    and `new` then finds a 0 that it can replace by its 0.
  */
  ghost predicate SparesOne(base: seq<int>, st: Stacks, t: Token) {
    base != [] && |st.indents| == |base| ==>
      !TakesUnguarded(st, t) && (t.NewOperator? ==> st.indents[|base| - 1] == 0)
  }

  ghost predicate Spares(base: seq<int>, st: Stacks, ts: seq<Token>)
    requires Bottomed(st)
    decreases |ts|
  {
    ts == [] ||
    (SparesOne(base, st, ts[0]) && (StepKeepsBottom(st, ts[0]); Spares(base, Step(st, ts[0]), ts[1..])))
  }

  /** In every state of the run `base` is at the bottom of the indents. */
  ghost predicate KeepsPrefix(base: seq<int>, st: Stacks, ts: seq<Token>)
    requires Bottomed(st)
    decreases |ts|
  {
    && base <= st.indents
    && (ts == [] || (StepKeepsBottom(st, ts[0]); KeepsPrefix(base, Step(st, ts[0]), ts[1..])))
  }

  lemma SparesCons(base: seq<int>, st: Stacks, t: Token, ts: seq<Token>)
    requires Bottomed(st)
    ensures Bottomed(Step(st, t))
    ensures Spares(base, st, [t] + ts) <==> SparesOne(base, st, t) && Spares(base, Step(st, t), ts)
    ensures KeepsPrefix(base, st, [t] + ts) <==> base <= st.indents && KeepsPrefix(base, Step(st, t), ts)
  {
    hide Step, Bottomed, SparesOne;
    StepKeepsBottom(st, t);
    assert ([t] + ts)[1..] == ts;
  }

  lemma SparesNothing(base: seq<int>, st: Stacks)
    requires Bottomed(st)
    ensures Spares(base, st, []) && (KeepsPrefix(base, st, []) <==> base <= st.indents)
  {
  }

  lemma {:induction false} SparesAppend(base: seq<int>, st: Stacks, a: seq<Token>, b: seq<Token>)
    requires Bottomed(st)
    ensures Spares(base, st, a + b) <==> Spares(base, st, a) && Spares(base, Run(st, a), b)
    ensures KeepsPrefix(base, st, a + b) <==> KeepsPrefix(base, st, a) && KeepsPrefix(base, Run(st, a), b)
    decreases |a|
  {
    hide Step, Bottomed, SparesOne;
    if a == [] {
      assert a + b == b;
    } else {
      StepKeepsBottom(st, a[0]);
      SparesAppend(base, Step(st, a[0]), a[1..], b);
      assert (a + b)[1..] == a[1..] + b;
    }
  }

  /**
    `base` is at the bottom, and of the sizes all but the first `n` count it; with `own` the first
    of these does not count the last indent of `base`, the own one of an open bracket.
  */
  ghost predicate Above(base: seq<int>, n: nat, own: bool, st: Stacks) {
    && base <= st.indents && n < |st.sizes| && (own ==> st.parenDepth > 0)
    && st.sizes[n] + (if own then 1 else 0) >= |base|
    && forall i :: n < i < |st.sizes| ==> st.sizes[i] >= |base|
  }

  /** One step leaves the opener's indents alone exactly when it spares them. */
  lemma StepSparesIff(base: seq<int>, n: nat, own: bool, st: Stacks, p: Part)
    requires Bottomed(st) && !HasInside(p) && Above(base, n, own, st)
    ensures base <= Step(st, Simple(p)).indents <==> SparesOne(base, st, Simple(p))
    ensures SparesOne(base, st, Simple(p)) ==> Above(base, n, own, Step(st, Simple(p)))
  {
    var st' := Step(st, Simple(p));
    assert st'.sizes == st.sizes;
    if |st.indents| == |base| {
      assert st.indents == base;
    }
    if p.NewPart? && st.indents != [] && |st.indents| == |base| {
      assert st'.indents[|base| - 1] == 0;
    }
  }

  lemma OpenStaysAbove(base: seq<int>, n: nat, own: bool, st: Stacks, p: Part)
    requires Bottomed(st) && HasInside(p) && !p.Blocked? && Above(base, n, own, st)
    ensures var st1 := Step(st, Opener(p)); Above(base, n, own, st1) && |st1.sizes| > n + 1
    ensures SparesOne(base, st, Opener(p))
  {
  }

  lemma CloseStaysAbove(base: seq<int>, n: nat, own: bool, st: Stacks, p: Part)
    requires Bottomed(st) && HasInside(p) && !p.Blocked? && Above(base, n, own, st) && |st.sizes| > n + 1
    requires own ==> Step(st, Closer(p)).parenDepth > 0
    ensures Above(base, n, own, Step(st, Closer(p))) && SparesOne(base, st, Closer(p))
  {
    var st1 := PopLast(st);
    assert Above(base, n, own, st1);
  }

  /** Over parts without blocks the opener's indents stay at the bottom exactly when every step spares them. */
  lemma {:induction false} PartsSpareIff(base: seq<int>, n: nat, own: bool, st: Stacks, ps: Parts)
    requires Bottomed(st) && NoBlocks(ps) && Above(base, n, own, st)
    ensures KeepsPrefix(base, st, ListTokens(ps)) <==> Spares(base, st, ListTokens(ps))
    ensures Spares(base, st, ListTokens(ps)) ==> Above(base, n, own, Run(st, ListTokens(ps)))
    decreases ps, 0
  {
    hide Step, Bottomed, Tokens, Above, Spares, KeepsPrefix;
    match ps
    case Nil =>
      SparesNothing(base, st);
      assert base <= st.indents by { AboveIsPrefix(base, n, own, st); }
    case Cons(head, tail) =>
      RunAppend(st, Tokens(head), ListTokens(tail));
      SparesAppend(base, st, Tokens(head), ListTokens(tail));
      PartSparesIff(base, n, own, st, head);
      if Spares(base, st, Tokens(head)) {
        PartsSpareIff(base, n, own, Run(st, Tokens(head)), tail);
      }
  }

  lemma AboveIsPrefix(base: seq<int>, n: nat, own: bool, st: Stacks)
    requires Above(base, n, own, st)
    ensures base <= st.indents
  {
  }

  lemma AboveDepth(base: seq<int>, n: nat, own: bool, st: Stacks)
    requires Above(base, n, own, st)
    ensures own ==> st.parenDepth > 0
  {
  }

  lemma PartSparesIff(base: seq<int>, n: nat, own: bool, st: Stacks, p: Part)
    requires Bottomed(st) && PartNoBlocks(p) && Above(base, n, own, st)
    ensures KeepsPrefix(base, st, Tokens(p)) <==> Spares(base, st, Tokens(p))
    ensures Spares(base, st, Tokens(p)) ==> Above(base, n, own, Run(st, Tokens(p)))
    decreases p, 1
  {
    hide Step, Bottomed, Run, Above, Spares, SparesOne, KeepsPrefix, SameShape;
    AboveIsPrefix(base, n, own, st);
    if HasInside(p) {
      InsideSparesIff(base, n, own, st, p);
    } else {
      var t := Simple(p);
      RunOne(st, t);
      StepSparesIff(base, n, own, st, p);
      SparesCons(base, st, t, []);
      SparesNothing(base, Step(st, t));
      assert [t] + [] == [t];
    }
  }

  lemma InsideSparesIff(base: seq<int>, n: nat, own: bool, st: Stacks, p: Part)
    requires Bottomed(st) && HasInside(p) && PartNoBlocks(p) && Above(base, n, own, st)
    ensures KeepsPrefix(base, st, Tokens(p)) <==> Spares(base, st, Tokens(p))
    ensures Spares(base, st, Tokens(p)) ==> Above(base, n, own, Run(st, Tokens(p)))
    decreases p, 0
  {
    hide Step, Bottomed, Run, Above, Spares, SparesOne, KeepsPrefix, ListTokens;
    AboveIsPrefix(base, n, own, st);
    var open, inside, close := Opener(p), ListTokens(p.inside), Closer(p);
    var st1 := Step(st, open);
    OpenStaysAbove(base, n, own, st, p);
    RunInside(st, p);
    SparesCons(base, st, open, inside + [close]);
    SparesAppend(base, st1, inside, [close]);
    PartsSpareIff(base, n, own, st1, p.inside);
    if Spares(base, st1, inside) {
      var st2 := Run(st1, inside);
      PartsKeepShape(st1, p.inside);
      DepthStays(st, p);
      AboveDepth(base, n, own, st);
      CloseStaysAbove(base, n, own, st2, p);
      SparesCons(base, st2, close, []);
      SparesNothing(base, Step(st2, close));
      assert [close] + [] == [close];
      AboveIsPrefix(base, n, own, st2);
      AboveIsPrefix(base, n, own, Step(st2, close));
    }
  }

  /** Everything back, but for `left` paren indents left behind. */
  ghost predicate Restored(outer: Stacks, left: nat, st: Stacks) {
    && st == outer.(parenIndents := st.parenIndents)
    && outer.parenIndents <= st.parenIndents && |st.parenIndents| == |outer.parenIndents| + left
  }

  lemma OpenIsAbove(st: Stacks, p: Part)
    requires Bottomed(st) && HasInside(p) && !p.Blocked?
    ensures Above(st.indents, |st.sizes|, false, Step(st, Opener(p)))
  {
  }

  /** What follows the opener spares its indents. */
  ghost predicate SparesOuter(st: Stacks, p: Part)
    requires Bottomed(st) && HasInside(p)
  {
    StepKeepsBottom(st, Opener(p));
    Spares(st.indents, Step(st, Opener(p)), ListTokens(p.inside))
  }

  /** A bracket is closed, or a template that is not the outermost. */
  lemma CloseRestores(outer: Stacks, more: nat, st: Stacks, p: Part)
    requires Bottomed(outer) && Bottomed(st) && HasInside(p) && !p.Blocked?
    requires SameShape(Step(outer, Opener(p)), more, st) && SameDepths(Step(outer, Opener(p)), st)
    requires outer.indents <= st.indents && (p.Templated? ==> outer.templateDepth > 0)
    ensures Restored(outer, if p.Templated? then more + 1 else more, Step(st, Closer(p)))
  {
    hide CutTo, DropLast, SameShape, SameDepths;
    PopRestores(outer, p, more, st);
    OpenShape(outer, p);
    SameAfterOpen(outer, p, more, st);
  }

  /** Popping the size of the opener restores indents and sizes. */
  lemma PopRestores(outer: Stacks, p: Part, more: nat, st: Stacks)
    requires Bottomed(outer) && HasInside(p) && !p.Blocked?
    requires SameShape(Step(outer, Opener(p)), more, st) && outer.indents <= st.indents
    ensures st.sizes != []
    ensures PopLast(st) == st.(indents := outer.indents, sizes := outer.sizes)
  {
    assert st.sizes == outer.sizes + [|outer.indents|];
    assert st.indents[..|outer.indents|] == outer.indents;
    assert (outer.sizes + [|outer.indents|])[..|outer.sizes|] == outer.sizes;
  }

  lemma OpenShape(outer: Stacks, p: Part)
    requires Bottomed(outer) && HasInside(p) && !p.Blocked?
    ensures var st1 := Step(outer, Opener(p));
            && st1.parenDepth == (if p.Templated? then outer.parenDepth else outer.parenDepth + 1)
            && st1.templateDepth == (if p.Templated? then outer.templateDepth + 1 else outer.templateDepth)
            && st1.depths == outer.depths
            && outer.parenIndents <= st1.parenIndents && |st1.parenIndents| == |outer.parenIndents| + 1
  {
  }

  lemma SameAfterOpen(outer: Stacks, p: Part, more: nat, st: Stacks)
    requires Bottomed(outer) && HasInside(p) && !p.Blocked?
    requires SameShape(Step(outer, Opener(p)), more, st) && SameDepths(Step(outer, Opener(p)), st)
    ensures var st1 := Step(outer, Opener(p));
            && st.parenDepth == st1.parenDepth && st.templateDepth == st1.templateDepth && st.depths == st1.depths
            && outer.parenIndents <= st.parenIndents && |st.parenIndents| == |outer.parenIndents| + 1 + more
            && outer.parenIndents <= DropLast(st.parenIndents)
            && |DropLast(st.parenIndents)| == |outer.parenIndents| + more
  {
    hide Step;
    OpenShape(outer, p);
  }

  /** The closer of the outermost template ends a part as well. */
  lemma OutermostRestores(outer: Stacks, more: nat, st: Stacks, p: Part)
    requires Bottomed(outer) && Bottomed(st) && p.Templated? && outer.templateDepth == 0
    requires SameShape(Step(outer, Opener(p)), more, st) && SameDepths(Step(outer, Opener(p)), st)
    requires outer.indents <= st.indents
    ensures Restored(EndOfPart(outer), more + 1, Step(st, CloseTemplate))
  {
    assert st.indents[..|outer.indents|] == outer.indents;
    assert (outer.sizes + [|outer.indents|])[..|outer.sizes|] == outer.sizes;
  }

  /** The indents of the opener stay at the bottom of every state inside exactly when they are spared. */
  lemma KeptInsideIff(st: Stacks, p: Part)
    requires Bottomed(st) && HasInside(p) && PartNoBlocks(p)
    ensures var st1 := Step(st, Opener(p));
            && Bottomed(st1)
            && (KeepsPrefix(st.indents, st1, ListTokens(p.inside)) <==> SparesOuter(st, p))
            && (SparesOuter(st, p) ==> st.indents <= Run(st1, ListTokens(p.inside)).indents)
  {
    hide Step, Bottomed, Run, Above, Spares, KeepsPrefix, ListTokens;
    var st1 := Step(st, Opener(p));
    StepKeepsBottom(st, Opener(p));
    OpenIsAbove(st, p);
    PartsSpareIff(st.indents, |st.sizes|, false, st1, p.inside);
    if SparesOuter(st, p) {
      AboveIsPrefix(st.indents, |st.sizes|, false, Run(st1, ListTokens(p.inside)));
    }
  }

  /**
    A matched bracket or array brace, whatever is inside but blocks.  Its opener's indents stay
    at the bottom of every state inside if and only if every step spares them, and then all the
    stacks are as they were, but for one paren indent for each template inside.
  */
  lemma BracketRestores(st: Stacks, p: Part)
    requires Bottomed(st) && (p.Bracketed? || p.ArrayBraced?) && PartNoBlocks(p)
    ensures var st1 := Step(st, Opener(p));
            Bottomed(st1) && (KeepsPrefix(st.indents, st1, ListTokens(p.inside)) <==> SparesOuter(st, p))
    ensures SparesOuter(st, p) ==> Restored(st, Templates(p), Run(st, Tokens(p)))
    ensures SparesOuter(st, p) && Templates(p) == 0 ==> Run(st, Tokens(p)) == st
  {
    hide Step, Bottomed, Run, SparesOuter, KeepsPrefix, SameShape, SameDepths, Tokens, ListTokens;
    KeptInsideIff(st, p);
    if SparesOuter(st, p) {
      var st1 := Step(st, Opener(p));
      RunInside(st, p);
      PartsKeepShape(st1, p.inside);
      BalancedKeepsDepths(st1, p.inside);
      CloseRestores(st, ListTemplates(p.inside), Run(st1, ListTokens(p.inside)), p);
    }
  }

  /** A template: its own paren indent stays, and the outermost ends a part as a semicolon does. */
  lemma TemplateRestores(st: Stacks, p: Part)
    requires Bottomed(st) && p.Templated? && PartNoBlocks(p)
    ensures var st1 := Step(st, Opener(p));
            Bottomed(st1) && (KeepsPrefix(st.indents, st1, ListTokens(p.inside)) <==> SparesOuter(st, p))
    ensures SparesOuter(st, p) ==>
              Restored(if st.templateDepth > 0 then st else EndOfPart(st), Templates(p), Run(st, Tokens(p)))
  {
    hide Step, Bottomed, Run, SparesOuter, KeepsPrefix, SameShape, SameDepths, Restored, Tokens, ListTokens, EndOfPart;
    BottomedDepth(st);
    KeptInsideIff(st, p);
    if SparesOuter(st, p) {
      var st1, more := Step(st, Opener(p)), ListTemplates(p.inside);
      RunInside(st, p);
      PartsKeepShape(st1, p.inside);
      BalancedKeepsDepths(st1, p.inside);
      if st.templateDepth > 0 {
        CloseRestores(st, more, Run(st1, ListTokens(p.inside)), p);
      } else {
        OutermostRestores(st, more, Run(st1, ListTokens(p.inside)), p);
      }
    }
  }

  lemma BottomedDepth(st: Stacks)
    requires Bottomed(st)
    ensures st.templateDepth >= 0 && st.sizes != []
  {
  }

  predicate NoDrops(ps: Parts) {
    match ps
    case Nil => true
    case Cons(head, tail) => PartNoDrops(head) && NoDrops(tail)
  }

  predicate PartNoDrops(p: Part) {
    !p.DropPart? && !p.NewPart? && (HasInside(p) ==> NoDrops(p.inside))
  }

  /** Inside a bracket, without drops and `new`, any indents are spared. */
  lemma {:induction false} NoDropsSpare(base: seq<int>, st: Stacks, ps: Parts)
    requires Bottomed(st) && st.parenDepth > 0 && NoDrops(ps) && NoBlocks(ps)
    ensures Spares(base, st, ListTokens(ps))
    decreases ps, 0
  {
    hide Step, Bottomed, Spares, SameDepths, Tokens;
    match ps
    case Nil => SparesNothing(base, st);
    case Cons(head, tail) =>
      SparesAppend(base, st, Tokens(head), ListTokens(tail));
      PartNoDropsSpares(base, st, head);
      DepthStays(st, head);
      NoDropsSpare(base, Run(st, Tokens(head)), tail);
  }

  lemma DepthStays(st: Stacks, p: Part)
    requires Bottomed(st)
    ensures Run(st, Tokens(p)).parenDepth == st.parenDepth
  {
    hide Step, Bottomed, Run;
    PartKeepsDepths(st, p);
  }

  lemma PartNoDropsSpares(base: seq<int>, st: Stacks, p: Part)
    requires Bottomed(st) && st.parenDepth > 0 && PartNoDrops(p) && PartNoBlocks(p)
    ensures Spares(base, st, Tokens(p))
    decreases p, 1
  {
    hide Step, Bottomed, Run, Spares, SparesOne, ListTokens;
    if HasInside(p) {
      var open, inside, close := Opener(p), ListTokens(p.inside), Closer(p);
      var st1 := Step(st, open);
      OpenDeepens(st, p);
      SparesCons(base, st, open, inside + [close]);
      SparesAppend(base, st1, inside, [close]);
      NoDropsSpare(base, st1, p.inside);
      var st2 := Run(st1, inside);
      TakesNothing(base, st2, close);
      SparesCons(base, st2, close, []);
      SparesNothing(base, Step(st2, close));
      assert [close] + [] == [close];
    } else {
      var t := Simple(p);
      TakesNothing(base, st, t);
      SparesCons(base, st, t, []);
      SparesNothing(base, Step(st, t));
      assert [t] + [] == [t];
    }
  }

  lemma TakesNothing(base: seq<int>, st: Stacks, t: Token)
    requires !t.DropIndent? && !t.NewOperator? && (t.EnumComma? ==> st.parenDepth > 0)
    ensures SparesOne(base, st, t)
  {
  }

  lemma OpenDeepens(st: Stacks, p: Part)
    requires Bottomed(st) && st.parenDepth > 0 && HasInside(p) && !p.Blocked?
    ensures Bottomed(Step(st, Opener(p))) && Step(st, Opener(p)).parenDepth > 0
    ensures forall base :: SparesOne(base, st, Opener(p))
  {
  }

  // ---------- What a part adds ----------

  /** A semicolon ends a statement: outside of brackets only the indents in front of it are left. */
  lemma SemicolonEnds(st: Stacks, ps: Parts)
    requires Bottomed(st) && NoBlocks(ps) && st.parenDepth == 0 && st.sizes[|st.sizes| - 1] == |st.indents|
    requires Spares(st.indents, st, ListTokens(ps))
    ensures Run(st, ListTokens(ps) + [Semicolon]).indents == st.indents
  {
    hide Run, ListTokens, Spares, KeepsPrefix;
    var n, st1 := |st.sizes| - 1, Run(st, ListTokens(ps));
    assert Above(st.indents, n, false, st);
    PartsSpareIff(st.indents, n, false, st, ps);
    PartsKeepShape(st, ps);
    BalancedKeepsDepths(st, ps);
    RunAppend(st, ListTokens(ps), [Semicolon]);
    RunOne(st1, Semicolon);
  }

  /** Inside a bracket a semicolon or comma leaves the indents around it and its own. */
  lemma SeparatorKeepsOwn(st: Stacks, p: Part, ps: Parts, t: Token)
    requires Bottomed(st) && st.parenDepth >= 0 && (p.Bracketed? || p.ArrayBraced?) && NoBlocks(ps)
    requires t.Semicolon? || t.Comma? || t.EnumComma?
    requires var st1 := Step(st, Opener(p)); Bottomed(st1) && Spares(st.indents + [p.indent], st1, ListTokens(ps))
    ensures var st1 := Step(st, Opener(p));
            Run(st1, ListTokens(ps) + [t]).indents == st.indents + [p.indent]
  {
    hide Run, ListTokens, Spares, KeepsPrefix;
    var st1, base, n := Step(st, Opener(p)), st.indents + [p.indent], |st.sizes|;
    assert Above(base, n, true, st1);
    PartsSpareIff(base, n, true, st1, ps);
    PartsKeepShape(st1, ps);
    BalancedKeepsDepths(st1, ps);
    var st2 := Run(st1, ListTokens(ps));
    RunAppend(st1, ListTokens(ps), [t]);
    RunOne(st2, t);
  }

  /** The indents that parts leave above those of the statement or bracket they stand in. */
  function Added(inBracket: bool, inTemplate: bool, x: seq<int>, ps: Parts): seq<int>
    decreases ps
  {
    match ps
    case Nil => x
    case Cons(head, tail) => Added(inBracket, inTemplate, AddedBy(inBracket, inTemplate, x, head), tail)
  }

  /** What ends a part takes all away; a closed bracket leaves nothing of its own. */
  function AddedBy(inBracket: bool, inTemplate: bool, x: seq<int>, p: Part): seq<int> {
    match p
    case Assign(indent) => x + [indent]
    case NewPart => if x == [] then [] else x[|x| - 1 := 0]
    case CommaPart(None) => if inBracket then [] else x
    case CommaPart(Some(indent)) => if inBracket then [] else x + [indent]
    case EnumCommaPart => if inBracket || x == [] then [] else x[..|x| - 1]
    case DropPart => if x == [] then [] else x[..|x| - 1]
    case SemicolonPart => []
    case Bracketed(_, _, _) => x
    case ArrayBraced(_, _, _) => x
    case Templated(_, _, _) => if inTemplate then x else []
    case Blocked(_) => []
  }

  /** `base` are the indents of the statement, or those around a bracket and its own. */
  ghost predicate AtLevel(base: seq<int>, x: seq<int>, st: Stacks) {
    && Bottomed(st) && st.parenDepth >= 0 && st.indents == base + x
    && st.sizes[|st.sizes| - 1] + (if st.parenDepth > 0 then 1 else 0) == |base|
  }

  /** Every bracket and template among the parts keeps the indents of its opener. */
  ghost predicate AllSpared(st: Stacks, ps: Parts)
    requires Bottomed(st)
    decreases ps
  {
    ps.Cons? ==> (HasInside(ps.head) ==> SparesOuter(st, ps.head)) && AllSpared(Run(st, Tokens(ps.head)), ps.tail)
  }

  lemma SimpleAdds(base: seq<int>, x: seq<int>, st: Stacks, p: Part)
    requires AtLevel(base, x, st) && !HasInside(p) && SparesOne(base, st, Simple(p))
    ensures AtLevel(base, AddedBy(st.parenDepth > 0, st.templateDepth > 0, x, p), Step(st, Simple(p)))
  {
    hide EndOfPart, CutTo, DropLast, SparesOne;
    LevelIsBottomed(base, x, st);
    hide AtLevel;
    if p.NewPart? {
      NewAdds(base, x, st);
    } else if p.DropPart? || (p.EnumCommaPart? && st.parenDepth == 0) {
      DropAdds(base, x, st, p);
    } else if p.SemicolonPart? || (st.parenDepth > 0 && !p.Assign?) {
      EndAdds(base, x, st);
    } else {
      var more := if p.Assign? then [p.indent] else AsSeq(p.endOfLineIndent);
      MoreAdds(base, x, st, more);
      assert x + [] == x;
    }
  }

  lemma EndAdds(base: seq<int>, x: seq<int>, st: Stacks)
    requires AtLevel(base, x, st)
    ensures AtLevel(base, [], EndOfPart(st))
  {
    assert (base + x)[..|base|] == base + [];
  }

  lemma MoreAdds(base: seq<int>, x: seq<int>, st: Stacks, more: seq<int>)
    requires AtLevel(base, x, st)
    ensures AtLevel(base, x + more, st.(indents := st.indents + more))
  {
    Append3(base, x, more);
  }

  lemma NewAdds(base: seq<int>, x: seq<int>, st: Stacks)
    requires AtLevel(base, x, st) && SparesOne(base, st, NewOperator)
    ensures AtLevel(base, AddedBy(st.parenDepth > 0, st.templateDepth > 0, x, NewPart), Step(st, NewOperator))
  {
    if x != [] {
      assert (base + x)[..|base + x| - 1] + [0] == base + x[|x| - 1 := 0];
    } else if base != [] {
      assert base[..|base| - 1] + [0] == base;
    }
  }

  lemma DropAdds(base: seq<int>, x: seq<int>, st: Stacks, p: Part)
    requires AtLevel(base, x, st) && (p.DropPart? || (p.EnumCommaPart? && st.parenDepth == 0))
    requires SparesOne(base, st, Simple(p))
    ensures AtLevel(base, AddedBy(st.parenDepth > 0, st.templateDepth > 0, x, p), Step(st, Simple(p)))
  {
    if x != [] {
      assert (base + x)[..|base + x| - 1] == base + x[..|x| - 1];
    }
  }

  lemma InsideAdds(base: seq<int>, x: seq<int>, st: Stacks, p: Part)
    requires AtLevel(base, x, st) && HasInside(p) && PartNoBlocks(p) && SparesOuter(st, p)
    ensures AtLevel(base, AddedBy(st.parenDepth > 0, st.templateDepth > 0, x, p), Run(st, Tokens(p)))
  {
    hide Run, SparesOuter, Tokens, KeepsPrefix;
    if p.Templated? {
      TemplateRestores(st, p);
      assert (base + x)[..|base|] == base + [];
      assert x == [] ==> base + x == base + [];
    } else {
      BracketRestores(st, p);
    }
    BalancedStaysBottomed(st, p);
  }

  lemma BalancedStaysBottomed(st: Stacks, p: Part)
    requires Bottomed(st)
    ensures Bottomed(Run(st, Tokens(p)))
  {
  }

  /** The indents after any parts without blocks are those of the level and what the parts add. */
  lemma {:induction false} PartsAdd(base: seq<int>, x: seq<int>, st: Stacks, ps: Parts)
    requires AtLevel(base, x, st) && NoBlocks(ps) && Spares(base, st, ListTokens(ps)) && AllSpared(st, ps)
    ensures Run(st, ListTokens(ps)).indents == base + Added(st.parenDepth > 0, st.templateDepth > 0, x, ps)
    decreases ps
  {
    hide Step, Run, Tokens, AddedBy, SparesOuter, AtLevel, Spares, SparesOne, PartNoBlocks;
    LevelIsBottomed(base, x, st);
    match ps
    case Nil => RunNothing(st);
    case Cons(head, tail) =>
      var st1, y := Run(st, Tokens(head)), AddedBy(st.parenDepth > 0, st.templateDepth > 0, x, head);
      RunAppend(st, Tokens(head), ListTokens(tail));
      SparesAppend(base, st, Tokens(head), ListTokens(tail));
      if HasInside(head) {
        InsideAdds(base, x, st, head);
      } else {
        SimplePart(base, st, head);
        SimpleAdds(base, x, st, head);
      }
      PartKeepsDepths(st, head);
      PartsAdd(base, y, st1, tail);
  }

  lemma LevelIsBottomed(base: seq<int>, x: seq<int>, st: Stacks)
    requires AtLevel(base, x, st)
    ensures Bottomed(st) && st.indents == base + x
  {
  }

  lemma RunNothing(st: Stacks)
    requires Bottomed(st)
    ensures Run(st, []) == st
  {
  }

  lemma SimplePart(base: seq<int>, st: Stacks, p: Part)
    requires Bottomed(st) && !HasInside(p)
    ensures Run(st, Tokens(p)) == Step(st, Simple(p))
    ensures Spares(base, st, Tokens(p)) ==> SparesOne(base, st, Simple(p))
  {
    hide Step, Run, SparesOne;
    RunOne(st, Simple(p));
    SparesCons(base, st, Simple(p), []);
    assert [Simple(p)] + [] == [Simple(p)];
  }

  /** The end of an Objective-C class cuts to the top size, and takes it away unless it is the bottom. */
  lemma ObjCEndCuts(st: Stacks)
    requires Bottomed(st)
    ensures var st1, top := Step(st, ObjCEnd), |st.sizes| - 1;
            && st1.indents <= st.indents && |st1.indents| <= st.sizes[top]
            && (|st.indents| <= st.sizes[top] ==> st1.indents == st.indents)
            && (|st.indents| > st.sizes[top] ==> |st1.indents| == st.sizes[top])
            && st1.sizes == (if top == 0 then st.sizes else st.sizes[..top])
            && SameDepths(st, st1) && st1.parenIndents == st.parenIndents
  {
  }

  // ---------- Brackets with blocks inside ----------

  lemma {:induction false} OrderedAppend(st: Stacks, a: seq<Token>, b: seq<Token>)
    requires Bottomed(st)
    ensures AlwaysOrdered(st, a + b) <==> AlwaysOrdered(st, a) && AlwaysOrdered(Run(st, a), b)
    decreases |a|
  {
    hide Step, Bottomed, Ordered;
    if a == [] {
      assert a + b == b;
    } else {
      StepKeepsBottom(st, a[0]);
      OrderedAppend(Step(st, a[0]), a[1..], b);
      assert (a + b)[1..] == a[1..] + b;
    }
  }

  lemma OrderedInside(st: Stacks, p: Part)
    requires Bottomed(st) && HasInside(p) && AlwaysOrdered(st, Tokens(p))
    ensures Ordered(st) && Bottomed(Step(st, Opener(p)))
    ensures AlwaysOrdered(Step(st, Opener(p)), ListTokens(p.inside))
  {
    hide Step, Bottomed, Ordered, ListTokens, Opener, Closer;
    StepKeepsBottom(st, Opener(p));
    assert Tokens(p)[1..] == ListTokens(p.inside) + [Closer(p)] && Tokens(p)[0] == Opener(p);
    OrderedAppend(Step(st, Opener(p)), ListTokens(p.inside), [Closer(p)]);
  }

  /** Only sizes of 0 are left, and at least one less than the `m` before, if that is possible. */
  ghost predicate Emptied(m: nat, st: Stacks) {
    && (forall i :: 0 <= i < |st.sizes| ==> st.sizes[i] == 0)
    && |st.sizes| <= if m > 1 then m - 1 else 1
  }

  /** The block opener leaves only sizes of 0. */
  lemma OpenBlockEmpties(st: Stacks)
    requires Ordered(st)
    ensures var st1 := Step(st, OpenBlock); Emptied(|st.sizes| + 1, st1) && Bottomed(st1)
  {
    hide Purge;
    PurgeEmpties(st);
  }

  lemma ClosePops(m: nat, st: Stacks, p: Part)
    requires Bottomed(st) && HasInside(p) && Emptied(m + 1, st)
    ensures Emptied(m, Step(st, Closer(p))) && Step(st, Closer(p)).indents == []
  {
  }

  lemma BothEmptied(m: nat, st: Stacks, st': Stacks)
    requires Bottomed(st) && Emptied(m, st) && (st'.sizes == st.sizes || Emptied(|st.sizes|, st'))
    ensures Emptied(m, st')
  {
  }

  /** Parts with a block among them, at any nesting, leave only sizes of 0. */
  lemma {:induction false} BlocksEmpty(st: Stacks, ps: Parts)
    requires Bottomed(st) && AlwaysOrdered(st, ListTokens(ps)) && !NoBlocks(ps)
    ensures Emptied(|st.sizes|, Run(st, ListTokens(ps)))
    decreases ps, 0
  {
    hide Step, Bottomed, Tokens, Emptied, AlwaysOrdered, PartNoBlocks;
    var head, tail := ps.head, ps.tail;
    var st1 := Run(st, Tokens(head));
    RunAppend(st, Tokens(head), ListTokens(tail));
    OrderedAppend(st, Tokens(head), ListTokens(tail));
    if PartNoBlocks(head) {
      PartKeepsShape(st, head);
      BlocksEmpty(st1, tail);
    } else {
      PartWithBlockEmpties(st, head);
      if NoBlocks(tail) {
        PartsKeepShape(st1, tail);
      } else {
        BlocksEmpty(st1, tail);
      }
      BothEmptied(|st.sizes|, st1, Run(st1, ListTokens(tail)));
    }
  }

  lemma PartWithBlockEmpties(st: Stacks, p: Part)
    requires Bottomed(st) && AlwaysOrdered(st, Tokens(p)) && !PartNoBlocks(p)
    ensures Emptied(|st.sizes|, Run(st, Tokens(p))) && Run(st, Tokens(p)).indents == []
    decreases p, 1
  {
    hide Step, Bottomed, Run, Emptied, AlwaysOrdered, Ordered, NoBlocks;
    var st1, m := Step(st, Opener(p)), |st.sizes|;
    RunInside(st, p);
    OrderedInside(st, p);
    var st2 := Run(st1, ListTokens(p.inside));
    if p.Blocked? {
      OpenBlockEmpties(st);
      if NoBlocks(p.inside) {
        PartsKeepShape(st1, p.inside);
      } else {
        BlocksEmpty(st1, p.inside);
      }
      BothEmptied(m + 1, st1, st2);
    } else {
      OpenAddsSize(st, p);
      BlocksEmpty(st1, p.inside);
    }
    ClosePops(m, st2, p);
  }

  lemma OpenAddsSize(st: Stacks, p: Part)
    requires Bottomed(st) && HasInside(p) && !p.Blocked?
    ensures |Step(st, Opener(p)).sizes| == |st.sizes| + 1
  {
  }

  /**
    A bracket with a block inside, at any nesting, throws away all indents: those around it are
    back exactly when there were none, and the sizes exactly when there was only the bottom.
    By `AlwaysOrderedIff` the hypothesis is that nothing is taken that the top size counts.
  */
  lemma BlockForgetsOuterIff(st: Stacks, p: Part)
    requires Bottomed(st) && (p.Bracketed? || p.ArrayBraced?) && !PartNoBlocks(p) && AlwaysOrdered(st, Tokens(p))
    ensures var st' := Run(st, Tokens(p));
            && st'.indents == []
            && (st'.indents == st.indents <==> st.indents == [])
            && (st'.sizes == st.sizes <==> |st.sizes| == 1)
  {
    hide Step, Run, AlwaysOrdered, Tokens, PartNoBlocks;
    PartWithBlockEmpties(st, p);
    var st' := Run(st, Tokens(p));
    if |st.sizes| == 1 {
      assert st.sizes == [0] && st'.sizes == [0];
    }
  }

  // ---------- Where restoring and order fail ----------

  lemma RunSteps(st: Stacks, t: Token, ts: seq<Token>)
    requires Bottomed(st) && ts != [] && ts[0] == t
    ensures Bottomed(Step(st, t)) && Run(st, ts) == Run(Step(st, t), ts[1..])
  {
    RunCons(st, t, ts[1..]);
    assert [t] + ts[1..] == ts;
  }

  /**
    `enum E x = f(1`, then the lines `, 2` and `, 3);`: each of the two lines takes an indent away.
    The run is well bracketed, but the order breaks and the indent of the assignment is lost.
  */
  lemma CommaLinesTakeOuter()
    ensures var st := Stacks([4], [0], [], 0, 0, []);
            var inside := Cons(DropPart, Cons(EnumCommaPart, Cons(DropPart, Cons(EnumCommaPart, Nil))));
            var p := Bracketed(8, 0, inside);
            && Bottomed(INITIAL) && Bottomed(st) && st == Step(INITIAL, Assignment(4))
            && Run(st, Tokens(p)) == st.(indents := [])
            && !Ordered(Run(st, [OpenBracket(8, 0), DropIndent, EnumComma, DropIndent]))
  {
    hide Step, Run, ListTokens;
    var st := Stacks([4], [0], [], 0, 0, []);
    var inside := Cons(DropPart, Cons(EnumCommaPart, Cons(DropPart, Cons(EnumCommaPart, Nil))));
    var st1, st2 := Stacks([4, 8], [0, 1], [0], 1, 0, []), Stacks([4], [0, 1], [0], 1, 0, []);
    var st3 := Stacks([], [0, 1], [0], 1, 0, []);
    CommaLineSteps();
    var ts := [DropIndent, EnumComma, DropIndent, EnumComma];
    FourParts(inside, ts);
    RunInside(st, Bracketed(8, 0, inside));
    FourSteps(st1, ts, st2, st2, st3, st3);
    FourSteps(st, [OpenBracket(8, 0), DropIndent, EnumComma, DropIndent], st1, st2, st2, st3);
  }

  lemma CommaLineSteps()
    ensures Bottomed(INITIAL) && Step(INITIAL, Assignment(4)) == Stacks([4], [0], [], 0, 0, [])
    ensures var st := Stacks([4], [0], [], 0, 0, []);
            var st1, st2 := Stacks([4, 8], [0, 1], [0], 1, 0, []), Stacks([4], [0, 1], [0], 1, 0, []);
            var st3 := Stacks([], [0, 1], [0], 1, 0, []);
            && Bottomed(st) && Bottomed(st1) && Bottomed(st2) && Bottomed(st3)
            && Step(st, OpenBracket(8, 0)) == st1 && Step(st1, DropIndent) == st2 && Step(st2, EnumComma) == st2
            && Step(st2, DropIndent) == st3 && Step(st3, EnumComma) == st3
            && Step(st3, CloseBracket) == st.(indents := [])
  {
    hide Step;
    FirstCommaLine();
    SecondCommaLine();
  }

  lemma FirstCommaLine()
    ensures var st := Stacks([4], [0], [], 0, 0, []);
            var st1, st2 := Stacks([4, 8], [0, 1], [0], 1, 0, []), Stacks([4], [0, 1], [0], 1, 0, []);
            && Bottomed(INITIAL) && Bottomed(st) && Bottomed(st1) && Bottomed(st2)
            && Step(INITIAL, Assignment(4)) == st && Step(st, OpenBracket(8, 0)) == st1
            && Step(st1, DropIndent) == st2 && Step(st2, EnumComma) == st2
  {
  }

  lemma SecondCommaLine()
    ensures var st2, st3 := Stacks([4], [0, 1], [0], 1, 0, []), Stacks([], [0, 1], [0], 1, 0, []);
            && Bottomed(st2) && Bottomed(st3)
            && Step(st2, DropIndent) == st3 && Step(st3, EnumComma) == st3
            && Step(st3, CloseBracket) == Stacks([], [0], [], 0, 0, [])
  {
  }

  lemma FourParts(inside: Parts, ts: seq<Token>)
    requires inside == Cons(DropPart, Cons(EnumCommaPart, Cons(DropPart, Cons(EnumCommaPart, Nil))))
    requires ts == [DropIndent, EnumComma, DropIndent, EnumComma]
    ensures ListTokens(inside) == ts
  {
    assert ListTokens(Cons(EnumCommaPart, Nil)) == [EnumComma];
    assert ListTokens(Cons(DropPart, Cons(EnumCommaPart, Nil))) == [DropIndent, EnumComma];
    assert ListTokens(Cons(EnumCommaPart, Cons(DropPart, Cons(EnumCommaPart, Nil)))) ==
           [EnumComma, DropIndent, EnumComma];
  }

  lemma FourSteps(st: Stacks, ts: seq<Token>, st1: Stacks, st2: Stacks, st3: Stacks, st4: Stacks)
    requires Bottomed(st) && |ts| == 4 && Step(st, ts[0]) == st1
    requires Bottomed(st1) && Step(st1, ts[1]) == st2 && Bottomed(st2) && Step(st2, ts[2]) == st3
    requires Bottomed(st3) && Step(st3, ts[3]) == st4
    ensures Run(st, ts) == st4
  {
    hide Step, Bottomed;
    RunSteps(st, ts[0], ts);
    RunSteps(st1, ts[1], ts[1..]);
    RunSteps(st2, ts[2], ts[1..][1..]);
    assert ts[1..][1..][1..] == [ts[3]];
    RunOne(st3, ts[3]);
  }

  /** A drop of the bracket's own indent, and `new`: the order is kept, but the indent around becomes 0. */
  lemma NewTakesOuter()
    ensures var st := Stacks([4], [0], [], 0, 0, []);
            var p := Bracketed(8, 0, Cons(DropPart, Cons(NewPart, Nil)));
            Bottomed(st) && AlwaysOrdered(st, Tokens(p)) && Run(st, Tokens(p)) == st.(indents := [0])
  {
    hide Step, Run, AlwaysOrdered, ListTokens, Ordered;
    var st := Stacks([4], [0], [], 0, 0, []);
    var st1, st2, st3 := Stacks([4, 8], [0, 1], [0], 1, 0, []), Stacks([4], [0, 1], [0], 1, 0, []),
                         Stacks([0], [0, 1], [0], 1, 0, []);
    NewSteps();
    OnePart(NewPart);
    assert ListTokens(Cons(DropPart, Cons(NewPart, Nil))) == [DropIndent, NewOperator] by { TwoParts(); }
    var ts := [OpenBracket(8, 0), DropIndent, NewOperator, CloseBracket];
    assert Tokens(Bracketed(8, 0, Cons(DropPart, Cons(NewPart, Nil)))) == ts;
    FourSteps(st, ts, st1, st2, st3, st.(indents := [0]));
    FourOrdered(st, ts, st1, st2, st3, st.(indents := [0]));
  }

  lemma TwoParts()
    ensures ListTokens(Cons(DropPart, Cons(NewPart, Nil))) == [DropIndent, NewOperator]
  {
    OnePart(NewPart);
    assert ListTokens(Cons(DropPart, Cons(NewPart, Nil))) == Tokens(DropPart) + ListTokens(Cons(NewPart, Nil));
  }

  lemma NewSteps()
    ensures var st := Stacks([4], [0], [], 0, 0, []);
            var st1, st2 := Stacks([4, 8], [0, 1], [0], 1, 0, []), Stacks([4], [0, 1], [0], 1, 0, []);
            var st3 := Stacks([0], [0, 1], [0], 1, 0, []);
            && Ordered(st) && Ordered(st1) && Ordered(st2) && Ordered(st3) && Ordered(st.(indents := [0]))
            && Bottomed(st) && Bottomed(st1) && Bottomed(st2) && Bottomed(st3) && Bottomed(st.(indents := [0]))
            && Step(st, OpenBracket(8, 0)) == st1 && Step(st1, DropIndent) == st2
            && Step(st2, NewOperator) == st3 && Step(st3, CloseBracket) == st.(indents := [0])
  {
    hide Ordered;
    NewStates();
  }

  lemma NewStates()
    ensures Ordered(Stacks([4], [0], [], 0, 0, [])) && Ordered(Stacks([0], [0], [], 0, 0, []))
    ensures Ordered(Stacks([4, 8], [0, 1], [0], 1, 0, [])) && Ordered(Stacks([4], [0, 1], [0], 1, 0, []))
    ensures Ordered(Stacks([0], [0, 1], [0], 1, 0, []))
  {
  }

  lemma FourOrdered(st: Stacks, ts: seq<Token>, st1: Stacks, st2: Stacks, st3: Stacks, st4: Stacks)
    requires Bottomed(st) && |ts| == 4 && Step(st, ts[0]) == st1
    requires Bottomed(st1) && Step(st1, ts[1]) == st2 && Bottomed(st2) && Step(st2, ts[2]) == st3
    requires Bottomed(st3) && Step(st3, ts[3]) == st4
    requires Ordered(st) && Ordered(st1) && Ordered(st2) && Ordered(st3) && Ordered(st4)
    ensures AlwaysOrdered(st, ts)
  {
    hide Step, Bottomed, Ordered;
    StepKeepsBottom(st3, ts[3]);
    assert ts[1..][0] == ts[1] && ts[1..][1..][0] == ts[2] && ts[1..][1..][1..][0] == ts[3];
    assert AlwaysOrdered(st4, ts[1..][1..][1..][1..]);
    assert AlwaysOrdered(st3, ts[1..][1..][1..]);
    assert AlwaysOrdered(st2, ts[1..][1..]);
  }

  /** Inside an open template two enum commas break the order, with no closing bracket at all. */
  lemma TemplateBreaksOrder()
    ensures Bottomed(INITIAL) && !Ordered(Run(INITIAL, [Assignment(4), OpenTemplate(8, 0), EnumComma, EnumComma]))
  {
    var st1, st2 := Stacks([4], [0], [], 0, 0, []), Stacks([4, 8], [0, 1], [0], 0, 1, []);
    var st3, st4 := Stacks([4], [0, 1], [0], 0, 1, []), Stacks([], [0, 1], [0], 0, 1, []);
    FourSteps(INITIAL, [Assignment(4), OpenTemplate(8, 0), EnumComma, EnumComma], st1, st2, st3, st4);
  }

  /** A block that ends inside of an open bracket leaves its size behind, and enum commas break the order. */
  lemma EarlyBlockEndBreaksOrder()
    ensures var st := Stacks([4, 8, 12], [0, 1, 2], [0, 0], 2, 0, [0]);
            var st1 := Stacks([4, 8], [0, 1], [0, 0], 0, 0, []);
            && Bottomed(INITIAL)
            && Run(INITIAL, [OpenBlock, Assignment(4), OpenBracket(8, 0), OpenBracket(12, 0)]) == st
            && Bottomed(st) && Ordered(st) && Step(st, CloseBlock) == st1
            && !WellBracketed(st, CloseBlock) && Bottomed(st1)
            && !Ordered(Step(Step(st1, EnumComma), EnumComma))
  {
    hide Step;
    var st1, st2 := Stacks([], [0], [], 0, 0, [0]), Stacks([4], [0], [], 0, 0, [0]);
    var st3, st4 := Stacks([4, 8], [0, 1], [0], 1, 0, [0]), Stacks([4, 8, 12], [0, 1, 2], [0, 0], 2, 0, [0]);
    EarlySteps();
    EarlyBrackets();
    EarlyEndSteps();
    FourSteps(INITIAL, [OpenBlock, Assignment(4), OpenBracket(8, 0), OpenBracket(12, 0)], st1, st2, st3, st4);
  }

  lemma EarlySteps()
    ensures var st1, st2 := Stacks([], [0], [], 0, 0, [0]), Stacks([4], [0], [], 0, 0, [0]);
            && Bottomed(INITIAL) && Bottomed(st1) && Bottomed(st2)
            && Step(INITIAL, OpenBlock) == st1 && Step(st1, Assignment(4)) == st2
  {
  }

  lemma EarlyBrackets()
    ensures var st2 := Stacks([4], [0], [], 0, 0, [0]);
            var st3, st4 := Stacks([4, 8], [0, 1], [0], 1, 0, [0]), Stacks([4, 8, 12], [0, 1, 2], [0, 0], 2, 0, [0]);
            && Bottomed(st2) && Bottomed(st3) && Bottomed(st4)
            && Step(st2, OpenBracket(8, 0)) == st3 && Step(st3, OpenBracket(12, 0)) == st4
  {
  }

  lemma EarlyEndSteps()
    ensures var st4 := Stacks([4, 8, 12], [0, 1, 2], [0, 0], 2, 0, [0]);
            var st5, st6 := Stacks([4, 8], [0, 1], [0, 0], 0, 0, []), Stacks([4], [0, 1], [0, 0], 0, 0, []);
            var st7 := Stacks([], [0, 1], [0, 0], 0, 0, []);
            && Bottomed(st4) && Bottomed(st5) && Bottomed(st6) && Step(st4, CloseBlock) == st5
            && Step(st5, EnumComma) == st6 && Step(st6, EnumComma) == st7
            && Ordered(st4) && !Ordered(st7) && !WellBracketed(st4, CloseBlock)
  {
  }

  /** After a closing bracket too many, two enum commas break the order. */
  lemma UnbalancedBreaksOrder()
    ensures var st := Step(INITIAL, CloseBracket);
            && Bottomed(INITIAL) && Bottomed(st) && Ordered(st)
            && !Ordered(Run(st, [Assignment(4), OpenBracket(8, 0), EnumComma, EnumComma]))
  {
    var st := Stacks([], [0], [], -1, 0, []);
    assert Step(INITIAL, CloseBracket) == st;
    var st1 := Stacks([4], [0], [], -1, 0, []);
    var st2 := Stacks([4, 8], [0, 1], [0], 0, 0, []);
    var st3 := Stacks([4], [0, 1], [0], 0, 0, []);
    var st4 := Stacks([], [0, 1], [0], 0, 0, []);
    FourSteps(st, [Assignment(4), OpenBracket(8, 0), EnumComma, EnumComma], st1, st2, st3, st4);
  }

  /** A template in a bracket: the paren indent that is left is the bracket's, in the place of none. */
  lemma TemplateLeavesParenIndent()
    ensures var p := Bracketed(8, 5, Cons(Templated(12, 9, Nil), Nil));
            Bottomed(INITIAL) && Run(INITIAL, Tokens(p)) == INITIAL.(parenIndents := [5])
  {
    hide Step, ListTokens, Tokens;
    var st1 := Stacks([8], [0, 0], [5], 1, 0, []);
    TemplateSteps();
    OnePart(Templated(12, 9, Nil));
    RunInside(INITIAL, Bracketed(8, 5, Cons(Templated(12, 9, Nil), Nil)));
    RunInside(st1, Templated(12, 9, Nil));
    NoPart();
  }

  lemma TemplateSteps()
    ensures var st1, st2 := Stacks([8], [0, 0], [5], 1, 0, []), Stacks([8, 12], [0, 0, 1], [5, 9], 1, 1, []);
            var st3 := Stacks([8], [0, 0], [5, 9], 1, 0, []);
            && Bottomed(INITIAL) && Bottomed(st1) && Bottomed(st2) && Bottomed(st3)
            && Step(INITIAL, OpenBracket(8, 5)) == st1 && Step(st1, OpenTemplate(12, 9)) == st2
            && Step(st2, CloseTemplate) == st3 && Step(st3, CloseBracket) == INITIAL.(parenIndents := [5])
  {
  }

  lemma OnePart(p: Part)
    ensures ListTokens(Cons(p, Nil)) == Tokens(p)
  {
    hide Tokens;
    assert ListTokens(Nil) == [] && Tokens(p) + [] == Tokens(p);
  }

  lemma NoPart()
    ensures ListTokens(Nil) == []
  {
  }

  /** A block in a bracket throws away the indents around the bracket. */
  lemma BlockForgetsOuter()
    ensures var st := Stacks([4], [0], [], 0, 0, []);
            Bottomed(st) && Run(st, Tokens(Bracketed(8, 0, Cons(Blocked(Nil), Nil)))) == st.(indents := [])
  {
    hide Step, ListTokens, Tokens;
    var st, st1 := Stacks([4], [0], [], 0, 0, []), Stacks([4, 8], [0, 1], [0], 1, 0, []);
    BlockSteps();
    OnePart(Blocked(Nil));
    RunInside(st, Bracketed(8, 0, Cons(Blocked(Nil), Nil)));
    RunInside(st1, Blocked(Nil));
    NoPart();
  }

  lemma BlockSteps()
    ensures var st, st1 := Stacks([4], [0], [], 0, 0, []), Stacks([4, 8], [0, 1], [0], 1, 0, []);
            var st2, st3 := Stacks([], [0], [0], 0, 0, [1]), Stacks([], [0], [0], 1, 0, []);
            && Bottomed(st) && Bottomed(st1) && Bottomed(st2) && Bottomed(st3)
            && Step(st, OpenBracket(8, 0)) == st1 && Step(st1, OpenBlock) == st2
            && Step(st2, CloseBlock) == st3 && Step(st3, CloseBracket) == st.(indents := [])
  {
    var st1, popped := Stacks([4, 8], [0, 1], [0], 1, 0, []), Stacks([4], [0], [0], 1, 0, []);
    assert PopLast(st1) == popped && PopLast(popped) == popped.(indents := []);
    assert Purge(st1) == Purge(popped) == Purge(popped.(indents := [])) == popped.(indents := []);
  }

  // ---------- The columns that are registered ----------

  datatype Settings = Settings(
    indentLength: nat,
    continuationIndent: nat,
    maxContinuationIndent: int,
    indentAfterParen: bool)

  /**
    The place where an indent is registered: character `i` of the line, or just before its first
    character for an operator at the beginning of the line.  `runIn` is the indent of
    a run-in; `afterAssign`: an array brace after `=`; `blockArray`: an array brace that opens a
    block outside of an enum and is not to be indented.
  */
  datatype Place = Place(
    line: string, i: int, spaceIndentCount: int, tabIncrement: nat, minIndent: int, runIn: int,
    afterAssign: bool, blockArray: bool)
  {
    predicate Valid() {
      -1 <= i < |line|
    }

    predicate IsBrace() {
      0 <= i < |line| && line[i] == '{'
    }
  }

  predicate At(line: string, i: nat, two: string)
    requires |two| == 2
  {
    i + 2 <= |line| && line[i] == two[0] && line[i + 1] == two[1]
  }

  /** The next character from `k` on outside of blanks and comments, or the end; a lone slash is passed over. */
  function NextProgramChar(line: string, k: nat, inComment: bool): (r: nat)
    requires k <= |line|
    ensures k <= r <= |line|
    ensures r < |line| ==> !IsWhiteSpace(line[r]) && line[r] != '/'
    decreases |line| - k
  {
    if k == |line| then k
    else if inComment then
      if At(line, k, "*/") then NextProgramChar(line, k + 2, false) else NextProgramChar(line, k + 1, true)
    else if IsWhiteSpace(line[k]) then NextProgramChar(line, k + 1, false)
    else if At(line, k, "//") then |line|
    else if At(line, k, "/*") then NextProgramChar(line, k + 2, true)
    else if line[k] == '/' then NextProgramChar(line, k + 1, false)
    else k
  }

  /** The columns that tabs from `k` up to `end` add to those before. */
  function TabsAdd(line: string, k: nat, end: nat, added: nat, indentLength: nat): nat
    requires k <= end <= |line| && indentLength > 0
    decreases end - k
  {
    if k == end then added
    else TabsAdd(line, k + 1, end, AddedAt(line, k, added, indentLength), indentLength)
  }

  /** Character `k` counted as well, a tab going on to the next tab stop. */
  function AddedAt(line: string, k: nat, added: nat, indentLength: nat): nat
    requires k < |line| && indentLength > 0
  {
    if line[k] == '\t' then added + TabWidth(k, added, indentLength) else added
  }

  function TabWidth(k: nat, added: nat, indentLength: nat): nat
    requires indentLength > 0
  {
    indentLength - 1 - (added + k) % indentLength
  }

  /** After a tab the next column is a tab stop, and no tab stop lies between. */
  lemma TabEndsOnStop(k: nat, added: nat, indentLength: nat)
    requires indentLength > 0
    ensures exists q :: added + TabWidth(k, added, indentLength) + k + 1 == q * indentLength
    ensures TabWidth(k, added, indentLength) < indentLength
  {
    var q := (added + k) / indentLength;
    assert added + TabWidth(k, added, indentLength) + k + 1 == (q + 1) * indentLength;
  }

  lemma TabStep(line: string, k: nat, end: nat, added: nat, indentLength: nat)
    requires k <= end <= |line| && indentLength > 0
    ensures TabsAdd(line, k, end, added, indentLength) ==
            if k == end then added
            else TabsAdd(line, k + 1, end, AddedAt(line, k, added, indentLength), indentLength)
  {
  }

  function NextChar(p: Place): nat
    requires p.Valid()
  {
    NextProgramChar(p.line, p.i + 1, false)
  }

  /** The column of the next program character, with tabs expanded. */
  function AlignedColumn(o: Settings, p: Place): int
    requires p.Valid() && o.indentLength > 0
  {
    NextChar(p) + p.spaceIndentCount + TabsAdd(p.line, p.i + 1, NextChar(p), p.tabIncrement, o.indentLength)
  }

  /** The indent and the paren indent to register, given the last indent. */
  function Columns(o: Settings, p: Place, last: Option<int>): (int, int)
    requires p.Valid() && o.indentLength > 0
  {
    if NextChar(p) == |p.line| || o.indentAfterParen then
      var previous := if last.Some? then last.value else p.spaceIndentCount;
      var indent := o.continuationIndent * o.indentLength + previous;
      (if indent > o.maxContinuationIndent && !p.IsBrace() then o.indentLength * 2 + p.spaceIndentCount else indent,
       previous)
    else
      var aligned := AlignedColumn(o, p) - if p.i > 0 && p.line[0] == '{' then o.indentLength else 0;
      var least := if aligned < p.minIndent then p.minIndent + p.spaceIndentCount else aligned;
      var most := if least > o.maxContinuationIndent && !p.afterAssign
        then o.indentLength * 2 + p.spaceIndentCount else least;
      var indent := if last.Some? && most < last.value then last.value else most;
      (if p.blockArray then 0 else indent, p.i + p.spaceIndentCount - p.runIn)
  }

  /** At the end of a line a bracket is continued by the continuation indent, or by two indents if that is too far. */
  lemma ContinuedAtEnd(o: Settings, p: Place, last: Option<int>)
    requires p.Valid() && o.indentLength > 0 && (NextChar(p) == |p.line| || o.indentAfterParen)
    ensures var (indent, parenIndent) := Columns(o, p, last);
            && (last.Some? ==> parenIndent == last.value) && (last.None? ==> parenIndent == p.spaceIndentCount)
            && (indent - parenIndent == o.continuationIndent * o.indentLength
                || (indent == 2 * o.indentLength + p.spaceIndentCount && !p.IsBrace()))
            && (indent - parenIndent == o.continuationIndent * o.indentLength
                <== p.IsBrace() || parenIndent + o.continuationIndent * o.indentLength <= o.maxContinuationIndent)
            && (indent == 2 * o.indentLength + p.spaceIndentCount
                <== !p.IsBrace() && parenIndent + o.continuationIndent * o.indentLength > o.maxContinuationIndent)
  {
  }

  /** Behind the bracket there is text: the limits, a run-in, a block array, and the column of the bracket itself. */
  lemma ContinuedInLine(o: Settings, p: Place)
    requires p.Valid() && o.indentLength > 0 && NextChar(p) < |p.line| && !o.indentAfterParen
    ensures var (indent, parenIndent) := Columns(o, p, None);
            var runIn := p.i > 0 && p.line[0] == '{';
            var column := AlignedColumn(o, p) - if runIn then o.indentLength else 0;
            && parenIndent == p.i + p.spaceIndentCount - p.runIn
            && (p.blockArray ==> indent == 0)
            && (!p.blockArray && p.minIndent <= column && (column <= o.maxContinuationIndent || p.afterAssign) ==>
                  indent == column)
            && (!p.blockArray && column < p.minIndent
                && (p.minIndent + p.spaceIndentCount <= o.maxContinuationIndent || p.afterAssign) ==>
                  indent == p.minIndent + p.spaceIndentCount)
            && (!p.blockArray && !p.afterAssign && p.minIndent <= column && column > o.maxContinuationIndent ==>
                  indent == 2 * o.indentLength + p.spaceIndentCount)
  {
  }

  /** Blanks are passed over, a line comment is the end, and anything but a slash is the next character. */
  lemma NextCharAtOnce(line: string, k: nat)
    requires k < |line|
    ensures line[k] == ' ' || line[k] == '\t' ==> NextProgramChar(line, k, false) == NextProgramChar(line, k + 1, false)
    ensures line[k] !in {' ', '\t', '/'} ==> NextProgramChar(line, k, false) == k
    ensures k + 1 < |line| && line[k] == '/' && line[k + 1] == '/' ==> NextProgramChar(line, k, false) == |line|
  {
  }

  /** A comment is passed over up to the first place where it is closed. */
  lemma {:induction false} CommentIsPassed(line: string, k: nat, j: nat)
    requires k <= j && j + 2 <= |line| && line[j] == '*' && line[j + 1] == '/'
    requires forall m :: k <= m < j ==> line[m] != '*' || line[m + 1] != '/'
    ensures NextProgramChar(line, k, true) == NextProgramChar(line, j + 2, false)
    decreases j - k
  {
    if k < j {
      CommentIsPassed(line, k + 1, j);
    }
  }

  lemma {:induction false} OpenCommentIsEnd(line: string, k: nat)
    requires k <= |line| && forall m :: k <= m < |line| - 1 ==> line[m] != '*' || line[m + 1] != '/'
    ensures NextProgramChar(line, k, true) == |line|
    decreases |line| - k
  {
    if k < |line| {
      OpenCommentIsEnd(line, k + 1);
    }
  }

  lemma CommentOpens(line: string, k: nat)
    requires k + 2 <= |line| && line[k] == '/' && line[k + 1] == '*'
    ensures NextProgramChar(line, k, false) == NextProgramChar(line, k + 2, true)
  {
  }

  /** Except for block arrays and over-long continuations, an indent is never less than the last one. */
  lemma NeverLessThanLast(o: Settings, p: Place, last: int)
    requires p.Valid() && o.indentLength > 0 && !p.blockArray
    requires NextChar(p) == |p.line| || o.indentAfterParen ==>
               o.continuationIndent * o.indentLength + last <= o.maxContinuationIndent || p.IsBrace()
    ensures Columns(o, p, Some(last)).0 >= last
  {
  }

  /** The column of character `k`: a tab goes on to the next tab stop. */
  function Column(line: string, k: nat, indentLength: nat): nat
    requires k <= |line| && indentLength > 0
  {
    if k == 0 then 0
    else
      var before := Column(line, k - 1, indentLength);
      if line[k - 1] == '\t' then NextStop(before, indentLength) else before + 1
  }

  function NextStop(column: nat, indentLength: nat): nat
    requires indentLength > 0
  {
    (column / indentLength + 1) * indentLength
  }

  lemma {:induction false} TabsAddLast(line: string, k: nat, end: nat, added: nat, indentLength: nat)
    requires k <= end < |line| && indentLength > 0
    ensures var sum := TabsAdd(line, k, end, added, indentLength);
            TabsAdd(line, k, end + 1, added, indentLength) ==
              if line[end] == '\t' then sum + TabWidth(end, sum, indentLength) else sum
    decreases end - k
  {
    hide TabWidth;
    TabStep(line, k, end, added, indentLength);
    TabStep(line, k, end + 1, added, indentLength);
    if k == end {
      TabStep(line, end + 1, end + 1, AddedAt(line, k, added, indentLength), indentLength);
    } else {
      TabsAddLast(line, k + 1, end, AddedAt(line, k, added, indentLength), indentLength);
    }
  }

  lemma {:induction false} TabsAddIsColumn(line: string, k: nat, indentLength: nat)
    requires k <= |line| && indentLength > 0
    ensures k + TabsAdd(line, 0, k, 0, indentLength) == Column(line, k, indentLength)
  {
    hide TabsAdd, TabWidth, NextStop;
    if k == 0 {
      TabStep(line, 0, 0, 0, indentLength);
    } else {
      TabsAddIsColumn(line, k - 1, indentLength);
      TabsAddLast(line, 0, k - 1, 0, indentLength);
      TabGoesToStop(k - 1, TabsAdd(line, 0, k - 1, 0, indentLength), indentLength);
    }
  }

  lemma TabGoesToStop(k: nat, added: nat, indentLength: nat)
    requires indentLength > 0
    ensures k + 1 + added + TabWidth(k, added, indentLength) == NextStop(k + added, indentLength)
  {
  }

  lemma {:induction false} TabsAddParts(line: string, k: nat, mid: nat, end: nat, added: nat, indentLength: nat)
    requires k <= mid <= end <= |line| && indentLength > 0
    ensures TabsAdd(line, mid, end, TabsAdd(line, k, mid, added, indentLength), indentLength) ==
            TabsAdd(line, k, end, added, indentLength)
    decreases mid - k
  {
    hide TabWidth;
    TabStep(line, k, mid, added, indentLength);
    TabStep(line, k, end, added, indentLength);
    if k < mid {
      TabsAddParts(line, k + 1, mid, end, AddedAt(line, k, added, indentLength), indentLength);
    }
  }

  /** With the tabs in front of the place already added, the text is aligned with its column on the screen. */
  lemma AlignedIsColumn(o: Settings, p: Place)
    requires p.Valid() && o.indentLength > 0
    requires p.tabIncrement == TabsAdd(p.line, 0, p.i + 1, 0, o.indentLength)
    ensures AlignedColumn(o, p) == p.spaceIndentCount + Column(p.line, NextChar(p), o.indentLength)
  {
    hide TabsAdd, Column;
    TabsAddParts(p.line, 0, p.i + 1, NextChar(p), 0, o.indentLength);
    TabsAddIsColumn(p.line, NextChar(p), o.indentLength);
  }

  /** Within the limits the indent is the column on the screen of the next program character. */
  lemma AlignedWithinLimits(o: Settings, p: Place, last: Option<int>)
    requires p.Valid() && o.indentLength > 0 && !p.blockArray
    requires NextChar(p) < |p.line| && !o.indentAfterParen && (p.i == 0 || p.line[0] != '{')
    requires p.minIndent <= AlignedColumn(o, p) <= o.maxContinuationIndent
    requires last.Some? ==> last.value <= AlignedColumn(o, p)
    requires p.tabIncrement == TabsAdd(p.line, 0, p.i + 1, 0, o.indentLength)
    ensures Columns(o, p, last).0 == p.spaceIndentCount + Column(p.line, NextChar(p), o.indentLength)
  {
    hide TabsAdd, Column;
    AlignedIsColumn(o, p);
  }

  // ---------- The stacks, in place ----------

  class Beautifier {
    const settings: Settings
    var continuationIndentStack: seq<int>
    var continuationIndentStackSizeStack: seq<nat>
    var parenIndentStack: seq<int>
    var parenDepth: int
    var templateDepth: int
    var squareBracketDepthStack: seq<int>

    ghost function Abs(): Stacks
      reads this
    {
      Stacks(continuationIndentStack, continuationIndentStackSizeStack, parenIndentStack, parenDepth, templateDepth,
             squareBracketDepthStack)
    }

    constructor (settings: Settings)
      ensures Abs() == INITIAL && Counted(Abs()) && this.settings == settings
    {
      this.settings := settings;
      continuationIndentStack, continuationIndentStackSizeStack := [], [0];
      parenIndentStack, parenDepth, templateDepth, squareBracketDepthStack := [], 0, 0, [];
    }

    method PopTo(n: nat)
      modifies this`continuationIndentStack
      ensures continuationIndentStack == CutTo(old(continuationIndentStack), n)
    {
      while n < |continuationIndentStack|
        invariant continuationIndentStack <= old(continuationIndentStack)
        invariant |continuationIndentStack| >= n || continuationIndentStack == old(continuationIndentStack)
      {
        continuationIndentStack := continuationIndentStack[..|continuationIndentStack| - 1];
      }
    }

    method PopLastContinuationIndent()
      requires continuationIndentStackSizeStack != []
      modifies this`continuationIndentStack, this`continuationIndentStackSizeStack
      ensures Abs() == PopLast(old(Abs()))
    {
      var top := |continuationIndentStackSizeStack| - 1;
      var previousIndentStackSize := continuationIndentStackSizeStack[top];
      if top > 0 {
        continuationIndentStackSizeStack := continuationIndentStackSizeStack[..top];
      }
      PopTo(previousIndentStackSize);
    }

    /** The distance from character `i` to the next program character, or to the end. */
    method GetNextProgramCharDistance(line: string, i: int) returns (charDistance: nat)
      requires -1 <= i < |line|
      ensures i + charDistance == NextProgramChar(line, i + 1, false)
    {
      var inComment, remainingCharNum := false, |line| - i;
      charDistance := 1;
      while charDistance < remainingCharNum
        invariant 1 <= charDistance <= remainingCharNum
        invariant NextProgramChar(line, i + charDistance, inComment) == NextProgramChar(line, i + 1, false)
        decreases remainingCharNum - charDistance
      {
        var ch := line[i + charDistance];
        if inComment {
          if At(line, i + charDistance, "*/") {
            charDistance := charDistance + 1;
            inComment := false;
          }
        } else if IsWhiteSpace(ch) {
        } else if ch == '/' {
          if At(line, i + charDistance, "//") {
            return remainingCharNum;
          }
          if At(line, i + charDistance, "/*") {
            charDistance := charDistance + 1;
            inComment := true;
          }
        } else {
          return charDistance;
        }
        charDistance := charDistance + 1;
      }
    }

    /** Compute the columns of a place and register them. */
    method RegisterContinuationIndent(p: Place, updateParenStack: bool)
      requires p.Valid() && settings.indentLength > 0
      modifies this`continuationIndentStack, this`parenIndentStack
      ensures var last := if old(continuationIndentStack) == [] then None
                          else Some(old(continuationIndentStack)[|old(continuationIndentStack)| - 1]);
              var (indent, parenIndent) := Columns(settings, p, last);
              && continuationIndentStack == old(continuationIndentStack) + [indent]
              && parenIndentStack == old(parenIndentStack) + if updateParenStack then [parenIndent] else []
    {
      hide NextProgramChar, TabsAdd, TabWidth;
      var remainingCharNum := |p.line| - p.i;
      var nextNonWSChar := GetNextProgramCharDistance(p.line, p.i);
      var top := |continuationIndentStack| - 1;
      if nextNonWSChar == remainingCharNum || settings.indentAfterParen {
        var previousIndent := p.spaceIndentCount;
        if continuationIndentStack != [] {
          previousIndent := continuationIndentStack[top];
        }
        var currIndent := settings.continuationIndent * settings.indentLength + previousIndent;
        if currIndent > settings.maxContinuationIndent && !p.IsBrace() {
          currIndent := settings.indentLength * 2 + p.spaceIndentCount;
        }
        PushIndent(currIndent, previousIndent, updateParenStack);
        return;
      }
      // check for following tabs
      var tabIncrement: nat := p.tabIncrement;
      var j := p.i + 1;
      while j < p.i + nextNonWSChar
        modifies {}
        invariant p.i + 1 <= j <= p.i + nextNonWSChar
        invariant TabsAdd(p.line, j, p.i + nextNonWSChar, tabIncrement, settings.indentLength) ==
                  TabsAdd(p.line, p.i + 1, p.i + nextNonWSChar, p.tabIncrement, settings.indentLength)
      {
        TabStep(p.line, j, p.i + nextNonWSChar, tabIncrement, settings.indentLength);
        if p.line[j] == '\t' {
          tabIncrement := tabIncrement + TabWidth(j, tabIncrement, settings.indentLength);
        }
        j := j + 1;
      }
      var continuationIndentCount := p.i + nextNonWSChar + p.spaceIndentCount + tabIncrement;
      // check for run-in statement
      if p.i > 0 && p.line[0] == '{' {
        continuationIndentCount := continuationIndentCount - settings.indentLength;
      }
      if continuationIndentCount < p.minIndent {
        continuationIndentCount := p.minIndent + p.spaceIndentCount;
      }
      if continuationIndentCount > settings.maxContinuationIndent && !p.afterAssign {
        continuationIndentCount := settings.indentLength * 2 + p.spaceIndentCount;
      }
      if continuationIndentStack != [] && continuationIndentCount < continuationIndentStack[top] {
        continuationIndentCount := continuationIndentStack[top];
      }
      if p.blockArray {
        continuationIndentCount := 0;
      }
      TabStep(p.line, j, p.i + nextNonWSChar, tabIncrement, settings.indentLength);
      PushIndent(continuationIndentCount, p.i + p.spaceIndentCount - p.runIn, updateParenStack);
    }

    method PushIndent(indent: int, parenIndent: int, updateParenStack: bool)
      modifies this`continuationIndentStack, this`parenIndentStack
      ensures continuationIndentStack == old(continuationIndentStack) + [indent]
      ensures parenIndentStack == old(parenIndentStack) + if updateParenStack then [parenIndent] else []
    {
      if updateParenStack {
        parenIndentStack := parenIndentStack + [parenIndent];
      }
      continuationIndentStack := continuationIndentStack + [indent];
    }

    /** Note the number of indents, and register those of an opening bracket. */
    method PushSize(indent: int, parenIndent: int)
      modifies this`continuationIndentStack, this`continuationIndentStackSizeStack, this`parenIndentStack
      ensures Abs() == Push(old(Abs()), indent, parenIndent)
    {
      continuationIndentStackSizeStack := continuationIndentStackSizeStack + [|continuationIndentStack|];
      PushIndent(indent, parenIndent, true);
    }

    method CloseOne()
      requires continuationIndentStackSizeStack != []
      modifies this
      ensures Abs() == Close(old(Abs()))
    {
      parenDepth := parenDepth - 1;
      PopLastContinuationIndent();
      if parenIndentStack != [] {
        parenIndentStack := parenIndentStack[..|parenIndentStack| - 1];
      }
    }

    /** The closer of the outermost template goes on as a semicolon. */
    method CloseOneTemplate()
      requires continuationIndentStackSizeStack != []
      modifies this
      ensures Abs() == LeaveTemplate(old(Abs()))
    {
      PopLastContinuationIndent();
      templateDepth := templateDepth - 1;
      if templateDepth <= 0 {
        templateDepth := 0;
        EndPart();
      }
    }

    /** The purge loop of a block opener terminates and leaves no continuation indent. */
    method PurgeContinuationIndents()
      requires Bottomed(Abs())
      modifies this`continuationIndentStack, this`continuationIndentStackSizeStack
      ensures Abs() == Purge(old(Abs())) && continuationIndentStack == []
    {
      while continuationIndentStack != []
        invariant Bottomed(Abs()) && Purge(Abs()) == Purge(old(Abs()))
        decreases |continuationIndentStack|, |continuationIndentStackSizeStack|
      {
        PopLastContinuationIndent();
      }
    }

    method OpenBlockBrace()
      requires Bottomed(Abs())
      modifies this
      ensures Abs() == EnterBlock(old(Abs()))
    {
      squareBracketDepthStack := squareBracketDepthStack + [parenDepth];
      ghost var before := old(Abs());
      PurgeDepths(before, Abs());
      PurgeContinuationIndents();
      parenDepth := 0;
    }

    method CloseBlockBrace()
      requires continuationIndentStackSizeStack != []
      modifies this
      ensures Abs() == LeaveBlock(old(Abs()))
    {
      PopLastContinuationIndent();
      if squareBracketDepthStack != [] {
        parenDepth := squareBracketDepthStack[|squareBracketDepthStack| - 1];
        squareBracketDepthStack := squareBracketDepthStack[..|squareBracketDepthStack| - 1];
      }
    }

    /** Take an indent away, whatever the sizes are. */
    method DropContinuationIndent()
      modifies this`continuationIndentStack
      ensures continuationIndentStack == DropLast(old(continuationIndentStack))
    {
      if continuationIndentStack != [] {
        continuationIndentStack := continuationIndentStack[..|continuationIndentStack| - 1];
      }
    }

    method Parse(t: Token)
      requires Bottomed(Abs())
      modifies this
      ensures Bottomed(Abs()) && Abs() == Step(old(Abs()), t)
      ensures old(Ordered(Abs())) ==> (Ordered(Abs()) <==> (TakesUnguarded(old(Abs()), t) ==> !AtBottom(old(Abs()))))
    {
      hide Ordered, Purge, PopLast, AtBottom, TakesUnguarded;
      StepKeepsBottom(Abs(), t);
      if Ordered(Abs()) {
        StepKeepsOrderIff(Abs(), t);
      }
      match t
      case OpenBracket(indent, parenIndent) =>
        parenDepth := parenDepth + 1;
        PushSize(indent, parenIndent);
      case OpenArrayBrace(indent, parenIndent) =>
        PushSize(indent, parenIndent);
        parenDepth := parenDepth + 1;
      case OpenTemplate(indent, parenIndent) =>
        templateDepth := templateDepth + 1;
        PushSize(indent, parenIndent);
      case CloseBracket => CloseOne();
      case CloseArrayBrace => CloseOne();
      case CloseTemplate => CloseOneTemplate();
      case Assignment(indent) => PushIndent(indent, 0, false);
      case NewOperator =>
        if continuationIndentStack != [] {
          continuationIndentStack := continuationIndentStack[|continuationIndentStack| - 1 := 0];
        }
      case Comma(more) => ParseComma(more, false);
      case EnumComma => ParseComma(None, true);
      case DropIndent => DropContinuationIndent();
      case Semicolon => EndPart();
      case OpenBlock => OpenBlockBrace();
      case CloseBlock => CloseBlockBrace();
      case ObjCEnd => PopLastContinuationIndent();
    }

    method EndPart()
      requires continuationIndentStackSizeStack != []
      modifies this`continuationIndentStack
      ensures Abs() == EndOfPart(old(Abs()))
    {
      var top := |continuationIndentStackSizeStack| - 1;
      PopTo(continuationIndentStackSizeStack[top] + if parenDepth > 0 then 1 else 0);
    }

    method ParseComma(endOfLineIndent: Option<int>, inEnum: bool)
      requires Bottomed(Abs())
      modifies this`continuationIndentStack
      ensures Abs() == Step(old(Abs()), if inEnum then EnumComma else Comma(endOfLineIndent))
    {
      if parenDepth > 0 {
        EndPart();
      } else if inEnum {
        DropContinuationIndent();
      } else {
        continuationIndentStack := continuationIndentStack + AsSeq(endOfLineIndent);
      }
    }
  }

  /** The purge does not look at the depths. */
  lemma {:induction false} PurgeDepths(a: Stacks, b: Stacks)
    requires Bottomed(a) && b == a.(depths := b.depths)
    ensures Bottomed(b) && Purge(b) == Purge(a).(depths := b.depths)
    decreases |a.indents|, |a.sizes|
  {
    if a.indents != [] {
      PurgeDepths(PopLast(a), PopLast(b));
    }
  }
}
