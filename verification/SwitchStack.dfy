/**
  The switch stack of the enhancer, which unindents the cases of `switch` statements.

  At a `switch` the variables of the enclosing switch are saved; at the brace that closes the
  switch block they are restored.
*/
module SwitchStack {
  import opened Common

  datatype SwitchVariables = SwitchVariables(switchBraceCount: int, unindentDepth: int, unindentCase: bool)

  /**
    What the line parser reacts to.  `applies`: a comment of a kind that can be unindented with
    its case.  `first`: the brace is the first text of its line.  A case label may be followed by
    a brace, closed on its line or not.
  */
  datatype Token =
    | LineStart
    | LineEnd
    | Comment(applies: bool)
    | Switch
    | OpenBrace
    | CloseBrace(first: bool)
    | CaseLabel(oneLineBrace: Option<bool>)
    | Other

  /** `edits` are the unindents of the current line. */
  datatype State = State(
    sw: SwitchVariables,
    switchStack: seq<SwitchVariables>,
    switchDepth: int,
    braceCount: int,
    lookingForCaseBrace: bool,
    unindentNextLine: bool,
    shouldUnindentLine: bool,
    shouldUnindentComment: bool,
    edits: seq<int>)

  const INITIAL := State(SwitchVariables(0, 0, false), [], 0, 0, false, false, true, false, [])

  // ---------- The steps as functions ----------

  function StartLine(st: State): State {
    var st1 := st.(shouldUnindentLine := true, shouldUnindentComment := false, edits := []);
    if !st.unindentNextLine then st1 else
      st1.(sw := st.sw.(unindentDepth := st.sw.unindentDepth + 1, unindentCase := true), unindentNextLine := false)
  }

  function EndLine(st: State): State {
    if st.shouldUnindentComment && st.sw.unindentDepth > 0 then st.(edits := st.edits + [st.sw.unindentDepth - 1])
    else if st.shouldUnindentLine && st.sw.unindentDepth > 0 then st.(edits := st.edits + [st.sw.unindentDepth])
    else st
  }

  function MeetComment(st: State, applies: bool): State {
    if applies && st.sw.switchBraceCount == 1 && st.sw.unindentCase then st.(shouldUnindentComment := true) else st
  }

  function EnterSwitch(st: State): State {
    st.(switchDepth := st.switchDepth + 1, switchStack := st.switchStack + [st.sw],
        sw := st.sw.(switchBraceCount := 0, unindentCase := false))
  }

  function OpenInSwitch(st: State): State {
    var sw := st.sw.(switchBraceCount := st.sw.switchBraceCount + 1);
    if st.lookingForCaseBrace
    then st.(sw := sw.(unindentCase := true, unindentDepth := sw.unindentDepth + 1), lookingForCaseBrace := false)
    else st.(sw := sw)
  }

  /** At the end of a switch the line is unindented now, by the enclosing switch if it begins with the brace. */
  function LeaveSwitch(st: State, first: bool): State
    requires st.switchStack != []
  {
    var top := |st.switchStack| - 1;
    var lineUnindent := if first then st.switchStack[top].unindentDepth else st.sw.unindentDepth;
    st.(switchDepth := st.switchDepth - 1, sw := st.switchStack[top], switchStack := st.switchStack[..top],
        lookingForCaseBrace := false, shouldUnindentLine := false,
        edits := if st.shouldUnindentLine && lineUnindent > 0 then st.edits + [lineUnindent] else st.edits)
  }

  function CloseInSwitch(st: State, first: bool): State
    requires st.switchStack != []
  {
    var count := st.sw.switchBraceCount - 1;
    if count == 0 then LeaveSwitch(st, first)
    else st.(sw := st.sw.(switchBraceCount := count), lookingForCaseBrace := false)
  }

  function CaseInSwitch(st: State, oneLineBrace: Option<bool>): State {
    var sw := if st.sw.unindentCase
      then st.sw.(unindentCase := false, unindentDepth := st.sw.unindentDepth - 1) else st.sw;
    match oneLineBrace
    case None => st.(sw := sw, lookingForCaseBrace := true)
    case Some(oneLine) =>
      st.(sw := sw.(switchBraceCount := sw.switchBraceCount + 1), braceCount := st.braceCount + 1,
          lookingForCaseBrace := false, unindentNextLine := st.unindentNextLine || !oneLine)
  }

  /** The braces of a token, a brace behind a case label included. */
  function Braces(t: Token): int {
    match t
    case OpenBrace => 1
    case CloseBrace(_) => -1
    case CaseLabel(Some(_)) => 1
    case _ => 0
  }

  /** Lines, comments and the word `switch` are looked at before anything is bypassed. */
  predicate NeverBypassed(t: Token) {
    t.LineStart? || t.LineEnd? || t.Comment? || t.Switch?
  }

  /** A token other than those, inside of a switch. */
  function InSwitchBlock(st: State, t: Token): State
    requires st.switchStack != []
  {
    if t.OpenBrace? then OpenInSwitch(st)
    else if t.CloseBrace? then CloseInSwitch(st, t.first)
    else if t.CaseLabel? then CaseInSwitch(st, t.oneLineBrace)
    else st.(lookingForCaseBrace := false)
  }

  function CountBraces(st: State, n: int): State {
    st.(braceCount := st.braceCount + n)
  }

  /** `bypass`: cases are indented, or this is a preprocessor line. */
  function Step(st: State, t: Token, bypass: bool): State
    requires Matched(st)
  {
    if t.LineStart? then StartLine(st)
    else if t.LineEnd? then EndLine(st)
    else if t.Comment? then MeetComment(st, t.applies)
    else if t.Switch? then EnterSwitch(st)
    else if bypass || st.switchDepth == 0 then CountBraces(st, Braces(t))
    else InSwitchBlock(CountBraces(st, if t.CaseLabel? then 0 else Braces(t)), t)
  }

  // ---------- Every run ----------

  /** The depth is the length of the stack, so a switch is never restored from an empty stack. */
  predicate Matched(st: State) {
    st.switchDepth == |st.switchStack|
  }

  lemma StepKeepsMatched(st: State, t: Token, bypass: bool)
    requires Matched(st)
    ensures Matched(Step(st, t, bypass))
  {
  }

  predicate NotBelow(sw: SwitchVariables) {
    sw.unindentDepth >= if sw.unindentCase then 1 else 0
  }

  /** No unindent goes below the margin, and before its end a line is unindented at most once. */
  ghost predicate Sound(st: State) {
    && NotBelow(st.sw) && (forall k :: 0 <= k < |st.switchStack| ==> NotBelow(st.switchStack[k]))
    && (st.edits == [] || (|st.edits| == 1 && !st.shouldUnindentLine))
    && forall k :: 0 <= k < |st.edits| ==> st.edits[k] >= 0
  }

  lemma BlockKeepsSound(st: State, t: Token)
    requires Matched(st) && Sound(st) && st.switchDepth > 0 && !t.CloseBrace?
    ensures Sound(InSwitchBlock(st, t))
  {
    hide CloseInSwitch;
  }

  lemma CloseKeepsSound(st: State, first: bool)
    requires Matched(st) && Sound(st) && st.switchDepth > 0
    ensures Sound(CloseInSwitch(st, first))
  {
  }

  lemma OthersKeepSound(st: State, t: Token)
    requires Matched(st) && Sound(st) && NeverBypassed(t) && !t.LineEnd?
    ensures Sound(Step(st, t, false)) && Step(st, t, true) == Step(st, t, false)
  {
    hide InSwitchBlock;
  }

  lemma CountKeepsSound(st: State, n: int)
    requires Matched(st) && Sound(st)
    ensures Matched(CountBraces(st, n)) && Sound(CountBraces(st, n))
  {
  }

  lemma StepKeepsSound(st: State, t: Token, bypass: bool)
    requires Matched(st) && Sound(st) && !t.LineEnd?
    ensures Sound(Step(st, t, bypass))
  {
    hide Sound, StartLine, EndLine, MeetComment, EnterSwitch, OpenInSwitch, CloseInSwitch, CaseInSwitch;
    if NeverBypassed(t) {
      OthersKeepSound(st, t);
    } else {
      CountKeepsSound(st, Braces(t));
      CountKeepsSound(st, 0);
      if t.CloseBrace? && st.switchDepth > 0 {
        CloseKeepsSound(CountBraces(st, Braces(t)), t.first);
      } else if st.switchDepth > 0 {
        BlockKeepsSound(CountBraces(st, if t.CaseLabel? then 0 else Braces(t)), t);
      }
    }
  }

  /** At its end a line is unindented at most once in all, but for a line with a comment of its case. */
  lemma EndUnindentsOnce(st: State)
    requires Matched(st) && Sound(st)
    ensures var st' := Step(st, LineEnd, false);
            && |st'.edits| <= (if st.shouldUnindentComment then 2 else 1)
            && (forall k :: 0 <= k < |st'.edits| ==> st'.edits[k] >= 0)
            && Sound(Step(st', LineStart, false))
  {
  }

  function Run(st: State, ts: seq<Token>): (st': State)
    requires Matched(st)
    ensures Matched(st')
    decreases |ts|
  {
    if ts == [] then st else
      StepKeepsMatched(st, ts[0], false);
      Run(Step(st, ts[0], false), ts[1..])
  }

  // ---------- Bypassed lines ----------

  datatype Event = Event(token: Token, bypass: bool)

  function RunEvents(st: State, es: seq<Event>): (st': State)
    requires Matched(st)
    ensures Matched(st')
    decreases |es|
  {
    if es == [] then st else
      StepKeepsMatched(st, es[0].token, es[0].bypass);
      RunEvents(Step(st, es[0].token, es[0].bypass), es[1..])
  }

  /** The tokens that are not bypassed. */
  function Effective(es: seq<Event>): seq<Token> {
    if es == [] then []
    else (if es[0].bypass && !NeverBypassed(es[0].token) then [] else [es[0].token]) + Effective(es[1..])
  }

  /** The braces that are bypassed, opening ones minus closing ones. */
  function BypassedBraces(es: seq<Event>): int {
    if es == [] then 0
    else (if es[0].bypass && !NeverBypassed(es[0].token) then Braces(es[0].token) else 0) + BypassedBraces(es[1..])
  }

  lemma BypassedStep(st: State, t: Token)
    requires Matched(st)
    ensures NeverBypassed(t) ==> Step(st, t, true) == Step(st, t, false)
    ensures !NeverBypassed(t) ==> Step(st, t, true) == st.(braceCount := st.braceCount + Braces(t))
  {
  }

  lemma CaseOnlyCounts(st: State, n: int, o: Option<bool>)
    ensures CaseInSwitch(st.(braceCount := n), o) ==
            CaseInSwitch(st, o).(braceCount := n + CaseInSwitch(st, o).braceCount - st.braceCount)
  {
  }

  lemma CloseOnlyCounts(st: State, n: int, first: bool)
    requires st.switchStack != []
    ensures CloseInSwitch(st.(braceCount := n), first) == CloseInSwitch(st, first).(braceCount := n)
    ensures CloseInSwitch(st, first).braceCount == st.braceCount
  {
  }

  lemma LineOnlyCounts(st: State, n: int)
    ensures StartLine(st.(braceCount := n)) == StartLine(st).(braceCount := n)
    ensures StartLine(st).braceCount == st.braceCount
    ensures EndLine(st.(braceCount := n)) == EndLine(st).(braceCount := n) && EndLine(st).braceCount == st.braceCount
  {
  }

  lemma CommentOnlyCounts(st: State, n: int, applies: bool)
    ensures MeetComment(st.(braceCount := n), applies) == MeetComment(st, applies).(braceCount := n)
    ensures MeetComment(st, applies).braceCount == st.braceCount
  {
  }

  lemma EnterOnlyCounts(st: State, n: int)
    ensures EnterSwitch(st.(braceCount := n)) == EnterSwitch(st).(braceCount := n)
    ensures EnterSwitch(st).braceCount == st.braceCount
  {
  }

  lemma OpenOnlyCounts(st: State, n: int)
    ensures OpenInSwitch(st.(braceCount := n)) == OpenInSwitch(st).(braceCount := n)
    ensures OpenInSwitch(st).braceCount == st.braceCount
  {
  }

  lemma OthersOnlyCount(st: State, n: int, t: Token)
    requires Matched(st) && NeverBypassed(t)
    ensures Step(st.(braceCount := n), t, false) ==
            Step(st, t, false).(braceCount := n + Step(st, t, false).braceCount - st.braceCount)
  {
    hide StartLine, EndLine, MeetComment, EnterSwitch, InSwitchBlock, CountBraces, Braces;
    if t.Comment? {
      CommentOnlyCounts(st, n, t.applies);
    } else if t.Switch? {
      EnterOnlyCounts(st, n);
    } else {
      LineOnlyCounts(st, n);
    }
  }

  /** No step depends on the number of braces. */
  lemma BracesOnlyCount(st: State, n: int, t: Token)
    requires Matched(st)
    ensures Matched(st.(braceCount := n))
    ensures Step(st.(braceCount := n), t, false) ==
            Step(st, t, false).(braceCount := n + Step(st, t, false).braceCount - st.braceCount)
  {
    hide Step, OpenInSwitch, CloseInSwitch, CaseInSwitch, StartLine, EndLine, MeetComment, EnterSwitch;
    if NeverBypassed(t) {
      OthersOnlyCount(st, n, t);
    } else {
      var m := if t.CaseLabel? then 0 else Braces(t);
      PlainStep(st, t);
      PlainStep(st.(braceCount := n), t);
      if st.switchDepth > 0 {
        assert CountBraces(st.(braceCount := n), m) == CountBraces(st, m).(braceCount := n + m);
        BlockOnlyCounts(CountBraces(st, m), n + m, t);
      }
    }
  }

  lemma PlainStep(st: State, t: Token)
    requires Matched(st) && !NeverBypassed(t)
    ensures Step(st, t, false) ==
            if st.switchDepth == 0 then CountBraces(st, Braces(t))
            else InSwitchBlock(CountBraces(st, if t.CaseLabel? then 0 else Braces(t)), t)
  {
    hide InSwitchBlock;
  }

  lemma BlockOnlyCounts(st: State, n: int, t: Token)
    requires st.switchStack != []
    ensures InSwitchBlock(st.(braceCount := n), t) ==
            InSwitchBlock(st, t).(braceCount := n + InSwitchBlock(st, t).braceCount - st.braceCount)
  {
    hide OpenInSwitch, CloseInSwitch, CaseInSwitch;
    OpenOnlyCounts(st, n);
    if t.CloseBrace? {
      CloseOnlyCounts(st, n, t.first);
    } else if t.CaseLabel? {
      CaseOnlyCounts(st, n, t.oneLineBrace);
    }
  }

  lemma {:induction false} RunCountsBraces(st: State, n: int, ts: seq<Token>)
    requires Matched(st)
    ensures Matched(st.(braceCount := n))
    ensures Run(st.(braceCount := n), ts) == Run(st, ts).(braceCount := n + Run(st, ts).braceCount - st.braceCount)
    decreases |ts|
  {
    hide Step;
    if ts != [] {
      BracesOnlyCount(st, n, ts[0]);
      StepKeepsMatched(st, ts[0], false);
      var next := Step(st, ts[0], false);
      RunCountsBraces(next, n + next.braceCount - st.braceCount, ts[1..]);
    }
  }

  lemma BypassedFirst(st: State, e: Event, rest: seq<Event>)
    requires Matched(st) && e.bypass && !NeverBypassed(e.token)
    ensures var st1 := CountBraces(st, Braces(e.token));
            && Matched(st1) && RunEvents(st, [e] + rest) == RunEvents(st1, rest)
            && Effective([e] + rest) == Effective(rest)
            && BypassedBraces([e] + rest) == Braces(e.token) + BypassedBraces(rest)
            && Run(st1, Effective(rest)) == CountBraces(Run(st, Effective(rest)), Braces(e.token))
  {
    hide Step, Run, Braces, NeverBypassed;
    assert ([e] + rest)[1..] == rest && [] + Effective(rest) == Effective(rest);
    BypassedStep(st, e.token);
    RunCountsBraces(st, st.braceCount + Braces(e.token), Effective(rest));
  }

  lemma EffectiveFirst(st: State, e: Event, rest: seq<Event>)
    requires Matched(st) && (!e.bypass || NeverBypassed(e.token))
    ensures var st1 := Step(st, e.token, false);
            && Matched(st1) && RunEvents(st, [e] + rest) == RunEvents(st1, rest)
            && Effective([e] + rest) == [e.token] + Effective(rest)
            && BypassedBraces([e] + rest) == BypassedBraces(rest)
            && Run(st, [e.token] + Effective(rest)) == Run(st1, Effective(rest))
  {
    hide Step;
    assert ([e] + rest)[1..] == rest;
    BypassedStep(st, e.token);
    RunCons(st, e.token, Effective(rest));
  }

  /** For any mix of bypassed and other lines: exactly the other tokens count, but for the number of braces. */
  lemma {:induction false} OnlyEffectiveCount(st: State, es: seq<Event>)
    requires Matched(st)
    ensures RunEvents(st, es) == CountBraces(Run(st, Effective(es)), BypassedBraces(es))
    decreases |es|
  {
    hide Step, Matched, RunEvents, Run, Effective, BypassedBraces;
    if es == [] {
      NoEvents(st);
    } else {
      var e, rest := es[0], es[1..];
      assert es == [e] + rest;
      if e.bypass && !NeverBypassed(e.token) {
        BypassedFirst(st, e, rest);
        OnlyEffectiveCount(CountBraces(st, Braces(e.token)), rest);
      } else {
        EffectiveFirst(st, e, rest);
        OnlyEffectiveCount(Step(st, e.token, false), rest);
      }
    }
  }

  lemma NoEvents(st: State)
    requires Matched(st)
    ensures RunEvents(st, []) == st && Run(st, Effective([])) == st && BypassedBraces([]) == 0
  {
  }

  lemma {:induction false} RunAppend(st: State, a: seq<Token>, b: seq<Token>)
    requires Matched(st)
    ensures Run(st, a + b) == Run(Run(st, a), b)
    decreases |a|
  {
    hide Step, Matched;
    if a == [] {
      assert a + b == b;
    } else {
      StepKeepsMatched(st, a[0], false);
      RunAppend(Step(st, a[0], false), a[1..], b);
      assert (a + b)[1..] == a[1..] + b;
    }
  }

  lemma RunCons(st: State, t: Token, ts: seq<Token>)
    requires Matched(st)
    ensures Matched(Step(st, t, false)) && Run(st, [t] + ts) == Run(Step(st, t, false), ts)
  {
    StepKeepsMatched(st, t, false);
    assert ([t] + ts)[1..] == ts;
  }

  // ---------- Balanced switch statements ----------

  /** What leaves the nesting as it is, and may stand between the word `switch` and the brace of its block. */
  type FlatToken = t: Token | t.LineStart? || t.LineEnd? || t.Comment? || t.Other? witness Other

  datatype Item =
    | Flat(token: FlatToken)
    | Case
    | CaseWithBrace(oneLine: bool, block: Items, first: bool)
    | Braced(block: Items, first: bool)
    | SwitchStatement(condition: seq<FlatToken>, body: Items, first: bool)

  datatype Items = Nil | Cons(head: Item, tail: Items)

  function Tokens(i: Item): seq<Token> {
    match i
    case Flat(token) => [token]
    case Case => [CaseLabel(None)]
    case CaseWithBrace(oneLine, block, first) => [CaseLabel(Some(oneLine))] + (ListTokens(block) + [CloseBrace(first)])
    case Braced(block, first) => [OpenBrace] + (ListTokens(block) + [CloseBrace(first)])
    case SwitchStatement(condition, body, first) =>
      [Switch] + (condition + ([OpenBrace] + (ListTokens(body) + [CloseBrace(first)])))
  }

  function ListTokens(items: Items): seq<Token> {
    match items
    case Nil => []
    case Cons(head, tail) => Tokens(head) + ListTokens(tail)
  }

  /** Two states at the same nesting: nothing but the unindent variables may differ. */
  ghost predicate SameNesting(a: State, b: State) {
    && a.switchStack == b.switchStack && a.switchDepth == b.switchDepth && a.braceCount == b.braceCount
    && a.sw.switchBraceCount == b.sw.switchBraceCount
  }

  ghost predicate InSwitch(st: State) {
    Matched(st) && st.switchDepth > 0 && st.sw.switchBraceCount > 0
  }

  lemma {:induction false} ConditionKeeps(st: State, condition: seq<FlatToken>)
    requires Matched(st) && st.switchDepth > 0
    ensures SameNesting(st, Run(st, condition))
    decreases |condition|
  {
    hide Step;
    if condition != [] {
      RunCons(st, condition[0], condition[1..]);
      assert [condition[0]] + condition[1..] == condition;
      FlatStep(st, condition[0]);
      ConditionKeeps(Step(st, condition[0], false), condition[1..]);
    }
  }

  /** A brace or a case with its brace opens one level. */
  lemma OpenLevel(st: State, t: Token)
    requires Matched(st) && st.switchDepth > 0 && (t.OpenBrace? || (t.CaseLabel? && t.oneLineBrace.Some?))
    ensures var st1 := Step(st, t, false);
            && st1.switchStack == st.switchStack && st1.switchDepth == st.switchDepth
            && st1.braceCount == st.braceCount + 1 && st1.sw.switchBraceCount == st.sw.switchBraceCount + 1
  {
  }

  lemma CloseLevel(st: State, first: bool)
    requires Matched(st) && st.switchDepth > 0 && st.sw.switchBraceCount > 1
    ensures var st1 := Step(st, CloseBrace(first), false);
            && st1.switchStack == st.switchStack && st1.switchDepth == st.switchDepth
            && st1.braceCount == st.braceCount - 1 && st1.sw.switchBraceCount == st.sw.switchBraceCount - 1
  {
  }

  lemma CloseLast(st: State, first: bool)
    requires Matched(st) && st.switchDepth > 0 && st.sw.switchBraceCount == 1
    ensures var st1, top := Step(st, CloseBrace(first), false), st.switchDepth - 1;
            && st1.switchStack == st.switchStack[..top] && st1.switchDepth == top && st1.sw == st.switchStack[top]
            && st1.braceCount == st.braceCount - 1 && !st1.lookingForCaseBrace
  {
  }

  lemma EnterStep(st: State)
    requires Matched(st)
    ensures Step(st, Switch, false) == EnterSwitch(st) && Matched(EnterSwitch(st))
  {
  }

  lemma FlatStep(st: State, t: Token)
    requires Matched(st) && st.switchDepth > 0
    requires t.LineStart? || t.LineEnd? || t.Comment? || t.Other? || t == CaseLabel(None)
    ensures SameNesting(st, Step(st, t, false))
  {
  }

  /**
    A complete switch statement, however nested, from any state: the switch variables, the
    stack, its depth and the brace count are what they were before the `switch`.
  */
  lemma {:induction false} SwitchRestores(st: State, s: Item)
    requires Matched(st) && s.SwitchStatement?
    ensures var st' := Run(st, Tokens(s));
            && st'.sw == st.sw && SameNesting(st, st') && !st'.lookingForCaseBrace
    decreases s, 1
  {
    hide Step, ListTokens, Run;
    var st1 := EnterSwitch(st);
    EnterStep(st);
    var block := [OpenBrace] + (ListTokens(s.body) + [CloseBrace(s.first)]);
    RunCons(st, Switch, s.condition + block);
    RunAppend(st1, s.condition, block);
    ConditionKeeps(st1, s.condition);
    var st2 := Run(st1, s.condition);
    BlockRun(st2, OpenBrace, s.body, s.first);
    OpenLevel(st2, OpenBrace);
    var st3 := Step(st2, OpenBrace, false);
    ItemsKeep(st3, s.body);
    CloseLast(Run(st3, ListTokens(s.body)), s.first);
    assert st.switchStack == (st.switchStack + [st.sw])[..|st.switchStack|];
  }

  /** A token, a block and a closing brace. */
  lemma BlockRun(st: State, open: Token, block: Items, first: bool)
    requires Matched(st)
    ensures var inside := Step(st, open, false);
            && Matched(inside)
            && Run(st, [open] + (ListTokens(block) + [CloseBrace(first)])) ==
               Step(Run(inside, ListTokens(block)), CloseBrace(first), false)
  {
    hide Step, ListTokens;
    RunCons(st, open, ListTokens(block) + [CloseBrace(first)]);
    var inside := Step(st, open, false);
    RunAppend(inside, ListTokens(block), [CloseBrace(first)]);
    RunOne(Run(inside, ListTokens(block)), CloseBrace(first));
  }

  lemma {:induction false} ItemsKeep(st: State, items: Items)
    requires InSwitch(st)
    ensures SameNesting(st, Run(st, ListTokens(items)))
    decreases items, 0
  {
    hide Step, Tokens;
    match items
    case Nil =>
    case Cons(head, tail) =>
      RunAppend(st, Tokens(head), ListTokens(tail));
      ItemKeeps(st, head);
      ItemsKeep(Run(st, Tokens(head)), tail);
  }

  lemma ItemKeeps(st: State, item: Item)
    requires InSwitch(st)
    ensures SameNesting(st, Run(st, Tokens(item)))
    decreases item, 2
  {
    hide Step, Run, ListTokens;
    match item
    case Flat(token) => FlatOne(st, token);
    case Case => FlatOne(st, CaseLabel(None));
    case CaseWithBrace(oneLine, block, first) => LevelKeeps(st, CaseLabel(Some(oneLine)), block, first);
    case Braced(block, first) => LevelKeeps(st, OpenBrace, block, first);
    case SwitchStatement(_, _, _) => SwitchRestores(st, item);
  }

  lemma LevelKeeps(st: State, open: Token, block: Items, first: bool)
    requires InSwitch(st) && (open.OpenBrace? || (open.CaseLabel? && open.oneLineBrace.Some?))
    ensures SameNesting(st, Run(st, [open] + (ListTokens(block) + [CloseBrace(first)])))
    decreases block, 1
  {
    hide Step, Run, ListTokens;
    BlockRun(st, open, block, first);
    OpenLevel(st, open);
    var inside := Step(st, open, false);
    ItemsKeep(inside, block);
    CloseLevel(Run(inside, ListTokens(block)), first);
  }

  lemma FlatOne(st: State, t: Token)
    requires Matched(st) && st.switchDepth > 0
    requires t.LineStart? || t.LineEnd? || t.Comment? || t.Other? || t == CaseLabel(None)
    ensures SameNesting(st, Run(st, [t]))
  {
    hide Step;
    RunOne(st, t);
    FlatStep(st, t);
  }

  lemma RunOne(st: State, t: Token)
    requires Matched(st)
    ensures Run(st, [t]) == Step(st, t, false)
  {
    hide Step;
    RunCons(st, t, []);
    assert [t] + [] == [t];
  }

  // ---------- Switch statements with bypassed lines ----------

  /**
    Preprocessor lines anywhere in a switch statement: as long as what is left without the
    bypassed tokens is a complete switch statement, the variables, the stack and its depth are
    restored; the brace count if and only if the bypassed braces cancel out.
  */
  lemma MixedRestores(st: State, es: seq<Event>, s: Item)
    requires Matched(st) && s.SwitchStatement? && Effective(es) == Tokens(s)
    ensures var st' := RunEvents(st, es);
            && st'.sw == st.sw && st'.switchStack == st.switchStack && st'.switchDepth == st.switchDepth
            && (st'.braceCount == st.braceCount <==> BypassedBraces(es) == 0)
  {
    hide Tokens, Run, RunEvents, Effective, BypassedBraces, Step;
    OnlyEffectiveCount(st, es);
    SwitchRestores(st, s);
  }

  // What a caller can read off: the lines outside of directives, and the words in them.

  /** The tokens outside of the bypassed lines. */
  function Outside(es: seq<Event>): seq<Token> {
    if es == [] then [] else (if es[0].bypass then [] else [es[0].token]) + Outside(es[1..])
  }

  lemma {:induction false} OutsideAppend(a: seq<Event>, b: seq<Event>)
    ensures Outside(a + b) == Outside(a) + Outside(b)
    decreases |a|
  {
    if a == [] {
      assert a + b == b && [] + Outside(b) == Outside(b);
    } else {
      assert (a + b)[1..] == a[1..] + b && (a + b)[0] == a[0];
      OutsideAppend(a[1..], b);
      Append3(if a[0].bypass then [] else [a[0].token], Outside(a[1..]), Outside(b));
    }
  }

  lemma {:induction false} EffectiveAppend(a: seq<Event>, b: seq<Event>)
    ensures Effective(a + b) == Effective(a) + Effective(b)
    decreases |a|
  {
    hide NeverBypassed;
    if a == [] {
      assert a + b == b && [] + Effective(b) == Effective(b);
    } else {
      assert (a + b)[1..] == a[1..] + b && (a + b)[0] == a[0];
      EffectiveAppend(a[1..], b);
      var first := if a[0].bypass && !NeverBypassed(a[0].token) then [] else [a[0].token];
      Append3(first, Effective(a[1..]), Effective(b));
    }
  }

  lemma EventsAppend(a: seq<Event>, b: seq<Event>)
    ensures Outside(a + b) == Outside(a) + Outside(b)
    ensures Effective(a + b) == Effective(a) + Effective(b)
  {
    hide Outside, Effective;
    OutsideAppend(a, b);
    EffectiveAppend(a, b);
  }

  lemma OneEvent(e: Event)
    ensures Outside([e]) == if e.bypass then [] else [e.token]
    ensures Effective([e]) == if e.bypass && !NeverBypassed(e.token) then [] else [e.token]
  {
    assert [e][1..] == [];
  }

  lemma {:induction false} NoneIsBypassed(es: seq<Event>)
    requires forall k :: 0 <= k < |es| ==> !es[k].bypass
    ensures Effective(es) == Outside(es)
    decreases |es|
  {
    if es != [] {
      NoneIsBypassed(es[1..]);
    }
  }

  /** `t` inserted at `k`. */
  function Inserted(ts: seq<Token>, k: nat, t: Token): seq<Token>
    requires k <= |ts|
  {
    ts[..k] + [t] + ts[k..]
  }

  lemma InsertedInFront(a: seq<Token>, b: seq<Token>, k: nat, t: Token)
    requires k <= |a|
    ensures Inserted(a + b, k, t) == Inserted(a, k, t) + b
  {
  }

  lemma InsertedBehind(a: seq<Token>, b: seq<Token>, k: nat, t: Token)
    requires |a| <= k <= |a| + |b|
    ensures Inserted(a + b, k, t) == a + Inserted(b, k - |a|, t)
  {
    assert (a + b)[..k] == a + b[..k - |a|] && (a + b)[k..] == b[k - |a|..];
  }

  /** A flat token anywhere among items is an item more. */
  lemma {:induction false} InsertIntoList(items: Items, k: nat, t: FlatToken) returns (items': Items)
    requires k <= |ListTokens(items)|
    ensures ListTokens(items') == Inserted(ListTokens(items), k, t)
    decreases items, 0
  {
    hide Tokens;
    if k == 0 {
      items' := Cons(Flat(t), items);
      assert Tokens(Flat(t)) == [t] by { FlatTokens(t); }
      assert [] + [t] + ListTokens(items) == [t] + ListTokens(items);
    } else {
      var head, tail := items.head, items.tail;
      if k < |Tokens(head)| {
        var head' := InsertIntoItem(head, k, t);
        items' := Cons(head', tail);
        InsertedInFront(Tokens(head), ListTokens(tail), k, t);
      } else {
        var tail' := InsertIntoList(tail, k - |Tokens(head)|, t);
        items' := Cons(head, tail');
        InsertedBehind(Tokens(head), ListTokens(tail), k, t);
      }
    }
  }

  lemma FlatTokens(t: FlatToken)
    ensures Tokens(Flat(t)) == [t]
  {
  }

  /** Within an item. */
  lemma InsertIntoItem(i: Item, k: nat, t: FlatToken) returns (i': Item)
    requires 0 < k < |Tokens(i)|
    ensures Tokens(i') == Inserted(Tokens(i), k, t) && (i.SwitchStatement? ==> i'.SwitchStatement?)
    decreases i, 1
  {
    hide ListTokens, Inserted;
    match i
    case CaseWithBrace(oneLine, block, first) =>
      var block' := InsertIntoBlock(CaseLabel(Some(oneLine)), block, first, k, t);
      i' := CaseWithBrace(oneLine, block', first);
    case Braced(block, first) =>
      var block' := InsertIntoBlock(OpenBrace, block, first, k, t);
      i' := Braced(block', first);
    case SwitchStatement(condition, body, first) =>
      var block := [OpenBrace] + (ListTokens(body) + [CloseBrace(first)]);
      InsertedBehind([Switch], condition + block, k, t);
      if k - 1 <= |condition| {
        InsertedInFront(condition, block, k - 1, t);
        var condition' := InsertIntoCondition(condition, k - 1, t);
        i' := SwitchStatement(condition', body, first);
      } else {
        InsertedBehind(condition, block, k - 1, t);
        var body' := InsertIntoBlock(OpenBrace, body, first, k - 1 - |condition|, t);
        i' := SwitchStatement(condition, body', first);
      }
  }

  lemma InsertIntoCondition(condition: seq<FlatToken>, k: nat, t: FlatToken) returns (condition': seq<FlatToken>)
    requires k <= |condition|
    ensures condition' == Inserted(condition, k, t)
  {
    condition' := condition[..k] + [t] + condition[k..];
  }

  lemma InsertIntoBlock(open: Token, block: Items, first: bool, k: nat, t: FlatToken) returns (block': Items)
    requires 0 < k <= |ListTokens(block)| + 1
    ensures [open] + (ListTokens(block') + [CloseBrace(first)]) ==
            Inserted([open] + (ListTokens(block) + [CloseBrace(first)]), k, t)
    decreases block, 1
  {
    hide ListTokens, Inserted;
    InsertedBehind([open], ListTokens(block) + [CloseBrace(first)], k, t);
    InsertedInFront(ListTokens(block), [CloseBrace(first)], k - 1, t);
    block' := InsertIntoList(block, k - 1, t);
  }

  /**
    With what is looked at on the bypassed lines, but for the word `switch`, the lines outside
    still form a switch statement.
  */
  lemma {:induction false} EffectiveIsStatement(es: seq<Event>, s: Item) returns (s': Item)
    requires s.SwitchStatement? && Outside(es) == Tokens(s)
    requires es != [] && !es[0].bypass && !es[|es| - 1].bypass
    requires forall k :: 0 <= k < |es| && es[k].bypass ==> !es[k].token.Switch?
    ensures s'.SwitchStatement? && Effective(es) == Tokens(s')
    decreases |es|
  {
    hide Tokens, Outside, Effective, Inserted;
    if forall k :: 0 <= k < |es| ==> !es[k].bypass {
      NoneIsBypassed(es);
      return s;
    }
    var m :| 0 <= m < |es| && es[m].bypass;
    var a, e, b := es[..m], es[m], es[m + 1..];
    assert es == a + ([e] + b);
    EventsAppend(a, [e] + b);
    EventsAppend([e], b);
    EventsAppend(a, b);
    OneEvent(e);
    assert (a + b)[0] == es[0] && (a + b)[|a + b| - 1] == es[|es| - 1];
    s' := EffectiveIsStatement(a + b, s);
    if NeverBypassed(e.token) {
      KeepsEnds(a, b);
      s' := InsertIntoItem(s', |Effective(a)|, e.token);
      InsertedBetween(Effective(a), Effective(b), e.token);
    } else {
      assert [] + Effective(b) == Effective(b);
    }
  }

  lemma InsertedBetween(a: seq<Token>, b: seq<Token>, t: Token)
    ensures Inserted(a + b, |a|, t) == a + ([t] + b)
  {
  }

  lemma KeepsEnds(a: seq<Event>, b: seq<Event>)
    requires a != [] && b != [] && !a[0].bypass && !b[|b| - 1].bypass
    ensures Effective(a) != [] && Effective(b) != []
  {
    var front := b[..|b| - 1];
    assert b == front + [b[|b| - 1]];
    EventsAppend(front, [b[|b| - 1]]);
    OneEvent(b[|b| - 1]);
  }

  /**
    Directives anywhere within a switch statement: if the lines outside of them form the
    statement and no directive holds the word `switch`, everything is restored, the brace count
    if and only if the braces on directives cancel out.
  */
  lemma DirectivesRestore(st: State, es: seq<Event>, s: Item)
    requires Matched(st) && s.SwitchStatement? && Outside(es) == Tokens(s)
    requires es != [] && !es[0].bypass && !es[|es| - 1].bypass
    requires forall k :: 0 <= k < |es| && es[k].bypass ==> !es[k].token.Switch?
    ensures var st' := RunEvents(st, es);
            && st'.sw == st.sw && st'.switchStack == st.switchStack && st'.switchDepth == st.switchDepth
            && (st'.braceCount == st.braceCount <==> BypassedBraces(es) == 0)
  {
    hide Tokens, Outside, Effective, RunEvents, BypassedBraces;
    var s' := EffectiveIsStatement(es, s);
    MixedRestores(st, es, s');
  }

  function SwitchCount(ts: seq<Token>): nat {
    if ts == [] then 0 else (if ts[0] == Switch then 1 else 0) + SwitchCount(ts[1..])
  }

  function Flagged(ts: seq<Token>, bypass: bool): seq<Event> {
    if ts == [] then [] else [Event(ts[0], bypass)] + Flagged(ts[1..], bypass)
  }

  lemma {:induction false} NoneBypassed(ts: seq<Token>)
    ensures Effective(Flagged(ts, false)) == ts && BypassedBraces(Flagged(ts, false)) == 0
    decreases |ts|
  {
    if ts != [] {
      assert Flagged(ts, false)[1..] == Flagged(ts[1..], false);
      NoneBypassed(ts[1..]);
    }
  }

  /** When cases are indented, or on preprocessor lines, switches are entered and never left. */
  lemma {:induction false} BypassOnlyEnters(st: State, ts: seq<Token>)
    requires Matched(st)
    ensures RunEvents(st, Flagged(ts, true)).switchDepth == st.switchDepth + SwitchCount(ts)
    decreases |ts|
  {
    hide Matched;
    if ts != [] {
      var es := Flagged(ts, true);
      assert es[0] == Event(ts[0], true) && es[1..] == Flagged(ts[1..], true);
      StepKeepsMatched(st, ts[0], true);
      BypassOnlyEnters(Step(st, ts[0], true), ts[1..]);
    }
  }

  ghost predicate NotUnindenting(st: State) {
    && !st.unindentNextLine && !st.sw.unindentCase && st.sw.unindentDepth == 0
    && st.edits == [] && !st.shouldUnindentComment
  }

  /** And no line is unindented. */
  lemma {:induction false} BypassNeverUnindents(st: State, ts: seq<Token>)
    requires Matched(st) && NotUnindenting(st)
    ensures NotUnindenting(RunEvents(st, Flagged(ts, true)))
    decreases |ts|
  {
    hide Matched;
    if ts != [] {
      var es := Flagged(ts, true);
      assert es[0] == Event(ts[0], true) && es[1..] == Flagged(ts[1..], true);
      StepKeepsMatched(st, ts[0], true);
      BypassNeverUnindents(Step(st, ts[0], true), ts[1..]);
    }
  }

  /** All lines of a switch statement alike: it is left again if and only if they are not bypassed. */
  lemma RestoredIffNotBypassed(st: State, s: Item, bypass: bool)
    requires Matched(st) && s.SwitchStatement?
    ensures RunEvents(st, Flagged(Tokens(s), bypass)).switchStack == st.switchStack <==> !bypass
  {
    hide Step, RunEvents;
    var ts := Tokens(s);
    assert ts[0] == Switch;
    if bypass {
      BypassOnlyEnters(st, ts);
    } else {
      NoneBypassed(ts);
      MixedRestores(st, Flagged(ts, false), s);
    }
  }

  /** The word `switch` on a preprocessor line is not bypassed: a switch around it is not left at its brace. */
  lemma SwitchInDirective()
    ensures var es := [Event(Switch, false), Event(OpenBrace, false), Event(Switch, true),
                       Event(CloseBrace(true), false)];
            && Matched(INITIAL) && RunEvents(INITIAL, es).switchDepth == 2
            && BypassedBraces(es) == 0
  {
    var es := [Event(Switch, false), Event(OpenBrace, false), Event(Switch, true), Event(CloseBrace(true), false)];
    var st1 := EnterSwitch(INITIAL);
    var st2 := Step(st1, OpenBrace, false);
    var st3 := EnterSwitch(st2);
    var st4 := Step(st3, CloseBrace(true), false);
    assert es[1..] == [Event(OpenBrace, false), Event(Switch, true), Event(CloseBrace(true), false)];
    assert es[1..][1..] == [Event(Switch, true), Event(CloseBrace(true), false)];
    assert es[1..][1..][1..] == [Event(CloseBrace(true), false)];
    assert RunEvents(st4, []) == st4 && BypassedBraces([]) == 0;
  }

  lemma LeaveStopsLooking(st: State, first: bool)
    requires st.switchStack != []
    ensures LeaveSwitch(st.(lookingForCaseBrace := false), first) == LeaveSwitch(st, first)
  {
  }

  // ---------- How far each line is unindented ----------

  /**
    Text laid out in lines, the braces of blocks on lines of their own.  The brace of a switch may
    be attached to it, and its closing brace stand `alone` or behind text.
  */
  datatype Line =
    | Text
    | CommentLine
    | BlockLines(lines: Lines)
    | SwitchLines(attached: bool, cases: Cases, alone: bool)

  datatype Lines = NoLines | LinesCons(first: Line, rest: Lines)

  /** A label alone on its line or followed by text, by a block on the same line, or by a brace. */
  datatype Label = Unbraced(text: bool) | OneLineBlock | BraceBelow | BraceAttached

  /** `inside` are the lines between the braces of a case, `after` those up to the next label. */
  datatype Cases = NoCases | CaseThen(style: Label, inside: Lines, after: Lines, more: Cases)

  predicate IsBraced(style: Label) {
    style == BraceBelow || style == BraceAttached
  }

  /** One line. */
  function L(ts: seq<Token>): seq<Token> {
    [LineStart] + ts + [LineEnd]
  }

  function LineText(l: Line): seq<Token> {
    match l
    case Text => L([Other])
    case CommentLine => L([Comment(true)])
    case BlockLines(lines) => L([OpenBrace]) + (LinesText(lines) + L([CloseBrace(true)]))
    case SwitchLines(attached, cases, alone) => SwitchHead(attached) + (CasesText(cases) + SwitchEnd(alone))
  }

  function SwitchHead(attached: bool): seq<Token> {
    if attached then L([Switch, Other, OpenBrace]) else L([Switch, Other]) + L([OpenBrace])
  }

  function SwitchEnd(alone: bool): seq<Token> {
    if alone then L([CloseBrace(true)]) else L([Other, CloseBrace(false)])
  }

  function LinesText(ls: Lines): seq<Token> {
    match ls
    case NoLines => []
    case LinesCons(first, rest) => LineText(first) + LinesText(rest)
  }

  function LabelText(style: Label): seq<Token> {
    match style
    case Unbraced(text) => L([CaseLabel(None)] + if text then [Other] else [])
    case OneLineBlock => L([CaseLabel(Some(true)), Other, CloseBrace(false)])
    case BraceBelow => L([CaseLabel(None)]) + L([OpenBrace])
    case BraceAttached => L([CaseLabel(Some(false))])
  }

  function CasesText(cs: Cases): seq<Token> {
    match cs
    case NoCases => []
    case CaseThen(style, inside, after, more) =>
      LabelText(style)
      + ((if IsBraced(style) then LinesText(inside) + L([CloseBrace(true)]) else [])
         + (LinesText(after) + CasesText(more)))
  }

  /** A block comes first, but for comments: behind a bare label it would be the block of the case. */
  predicate StartsWithBlock(ls: Lines) {
    ls.LinesCons? && (ls.first.BlockLines? || (ls.first.CommentLine? && StartsWithBlock(ls.rest)))
  }

  predicate WellLaid(ls: Lines) {
    ls.LinesCons? ==> LineWellLaid(ls.first) && WellLaid(ls.rest)
  }

  predicate LineWellLaid(l: Line) {
    match l
    case BlockLines(lines) => WellLaid(lines)
    case SwitchLines(_, cases, _) => CasesWellLaid(cases)
    case _ => true
  }

  predicate CasesWellLaid(cs: Cases) {
    cs.CaseThen? ==>
      && (cs.style == Unbraced(false) ==> !StartsWithBlock(cs.after))
      && WellLaid(cs.inside) && WellLaid(cs.after) && CasesWellLaid(cs.more)
  }

  /** Unindented by `d`; nothing is done for 0. */
  function Edit(d: nat): seq<int> {
    if d > 0 then [d] else []
  }

  /**
    The unindents line by line, `d` being the number of braced cases around.  A braced case goes
    from its brace, or from the line after its label if the brace is attached, up to the next
    label or the end of the switch, whose brace goes with the switch if it stands alone.
    `behind`: between the closing brace of a case and the next label a comment goes with the label.
  */
  function Expected(l: Line, d: nat, behind: bool): seq<seq<int>>
    requires behind ==> d > 0
  {
    match l
    case Text => [Edit(d)]
    case CommentLine => [if behind then [d - 1] else Edit(d)]
    case BlockLines(lines) => [Edit(d)] + (ExpectedLines(lines, d, false) + [Edit(d)])
    case SwitchLines(attached, cases, alone) =>
      (if attached then [Edit(d)] else [Edit(d), Edit(d)])
      + (ExpectedCases(cases, d) + [Edit(if alone || !LastIsBraced(cases) then d else d + 1)])
  }

  function ExpectedLines(ls: Lines, d: nat, behind: bool): seq<seq<int>>
    requires behind ==> d > 0
  {
    match ls
    case NoLines => []
    case LinesCons(first, rest) => Expected(first, d, behind) + ExpectedLines(rest, d, behind)
  }

  function ExpectedCases(cs: Cases, d: nat): seq<seq<int>> {
    match cs
    case NoCases => []
    case CaseThen(style, inside, after, more) =>
      (if style == BraceBelow then [Edit(d), Edit(d + 1)] else [Edit(d)])
      + ((if IsBraced(style) then ExpectedLines(inside, d + 1, false) + [Edit(d + 1)] else [])
         + ((if IsBraced(style) then ExpectedLines(after, d + 1, true) else ExpectedLines(after, d, false))
            + ExpectedCases(more, d)))
  }

  predicate LastIsBraced(cs: Cases) {
    cs.CaseThen? && if cs.more.NoCases? then IsBraced(cs.style) else LastIsBraced(cs.more)
  }

  /** The unindents of each line of a run, when it ends. */
  function Observed(st: State, ts: seq<Token>): seq<seq<int>>
    requires Matched(st)
    decreases |ts|
  {
    if ts == [] then [] else
      StepKeepsMatched(st, ts[0], false);
      var st1 := Step(st, ts[0], false);
      (if ts[0].LineEnd? then [st1.edits] else []) + Observed(st1, ts[1..])
  }

  lemma {:induction false} ObservedAppend(st: State, a: seq<Token>, b: seq<Token>)
    requires Matched(st)
    ensures Observed(st, a + b) == Observed(st, a) + Observed(Run(st, a), b)
    decreases |a|
  {
    hide Step, Matched;
    if a == [] {
      assert a + b == b && [] + Observed(st, b) == Observed(st, b);
    } else {
      StepKeepsMatched(st, a[0], false);
      var st1 := Step(st, a[0], false);
      ObservedAppend(st1, a[1..], b);
      assert (a + b)[1..] == a[1..] + b && (a + b)[0] == a[0];
      Append3(if a[0].LineEnd? then [st1.edits] else [], Observed(st1, a[1..]), Observed(Run(st1, a[1..]), b));
    }
  }

  lemma {:induction false} NoLineEnds(st: State, ts: seq<Token>)
    requires Matched(st) && LineEnd !in ts
    ensures Observed(st, ts) == []
    decreases |ts|
  {
    hide Step, Matched;
    if ts != [] {
      StepKeepsMatched(st, ts[0], false);
      assert ts[0] in ts && forall t :: t in ts[1..] ==> t in ts;
      NoLineEnds(Step(st, ts[0], false), ts[1..]);
    }
  }

  /** Both at once: what a run shows line by line, and where it ends. */
  ghost predicate Shows(st: State, ts: seq<Token>, edits: seq<seq<int>>, st': State) {
    Matched(st) && Matched(st') && Observed(st, ts) == edits && Run(st, ts) == st'
  }

  lemma ShowsBoth(st: State, a: seq<Token>, ea: seq<seq<int>>, st1: State, b: seq<Token>, eb: seq<seq<int>>, st2: State)
    requires Shows(st, a, ea, st1) && Shows(st1, b, eb, st2)
    ensures Shows(st, a + b, ea + eb, st2)
  {
    hide Matched, Run, Observed;
    RunAppend(st, a, b);
    ObservedAppend(st, a, b);
  }

  lemma ShowsNothing(st: State)
    requires Matched(st)
    ensures Shows(st, [], [], st)
  {
  }

  lemma LineShows(st: State, ts: seq<Token>)
    requires Matched(st) && LineEnd !in ts
    ensures Matched(StartLine(st))
    ensures var st' := EndLine(Run(StartLine(st), ts)); Shows(st, L(ts), [st'.edits], st')
  {
    hide Run, Observed;
    var st0, front := StartLine(st), [LineStart] + ts;
    assert Step(st, LineStart, false) == st0;
    RunCons(st, LineStart, ts);
    NoLineEnds(st, front);
    RunAppend(st, front, [LineEnd]);
    ObservedAppend(st, front, [LineEnd]);
    var st1 := Run(st0, ts);
    RunOne(st1, LineEnd);
    ObservedOne(st1);
    assert [] + [EndLine(st1).edits] == [EndLine(st1).edits];
  }

  lemma ObservedOne(st: State)
    requires Matched(st)
    ensures Matched(EndLine(st)) && Observed(st, [LineEnd]) == [EndLine(st).edits]
  {
    hide EndLine;
    assert Step(st, LineEnd, false) == EndLine(st);
    StepKeepsMatched(st, LineEnd, false);
    assert [LineEnd][1..] == [];
  }

  /** At the beginning of a line, with `d` braced cases around. */
  ghost predicate AtLine(st: State, d: nat, behind: bool) {
    && Matched(st) && !st.unindentNextLine && st.sw.unindentDepth == d
    && (behind <==> st.sw.switchBraceCount == 1 && st.sw.unindentCase)
    && (if st.switchDepth > 0 then st.sw.switchBraceCount >= 1 else st.sw.switchBraceCount == 0)
  }

  /** After some lines everything but the brace still looked for is as it was. */
  ghost predicate SameAgain(a: State, b: State) {
    && Matched(b) && b.sw == a.sw && b.switchStack == a.switchStack && b.switchDepth == a.switchDepth
    && b.braceCount == a.braceCount && b.unindentNextLine == a.unindentNextLine
    && (b.lookingForCaseBrace ==> a.lookingForCaseBrace)
  }

  lemma RunTwo(st: State, t: Token, u: Token)
    requires Matched(st)
    ensures var st1 := Step(st, t, false); Matched(st1) && Run(st, [t, u]) == Step(st1, u, false)
  {
    hide Step;
    RunCons(st, t, [u]);
    RunOne(Step(st, t, false), u);
    assert [t] + [u] == [t, u];
  }

  lemma RunThree(st: State, t: Token, u: Token, v: Token)
    requires Matched(st)
    ensures var st1 := Step(st, t, false);
            && Matched(st1)
            && var st2 := Step(st1, u, false); Matched(st2) && Run(st, [t, u, v]) == Step(st2, v, false)
  {
    hide Step;
    RunCons(st, t, [u, v]);
    RunTwo(Step(st, t, false), u, v);
    assert [t] + [u, v] == [t, u, v];
  }

  // Single lines.

  lemma TextShows(st: State, d: nat, behind: bool) returns (st': State)
    requires AtLine(st, d, behind)
    ensures Shows(st, L([Other]), [Edit(d)], st') && SameAgain(st, st')
    ensures st.switchDepth > 0 ==> !st'.lookingForCaseBrace
  {
    hide Shows;
    LineShows(st, [Other]);
    RunOne(StartLine(st), Other);
    st' := EndLine(Step(StartLine(st), Other, false));
    assert st'.edits == Edit(d);
  }

  lemma CommentShows(st: State, d: nat, behind: bool) returns (st': State)
    requires AtLine(st, d, behind) && (behind ==> d > 0)
    ensures Shows(st, L([Comment(true)]), [if behind then [d - 1] else Edit(d)], st') && SameAgain(st, st')
  {
    hide Shows;
    LineShows(st, [Comment(true)]);
    RunOne(StartLine(st), Comment(true));
    st' := EndLine(Step(StartLine(st), Comment(true), false));
    assert st'.edits == (if behind then [d - 1] else Edit(d));
  }

  /** A brace that opens a block, not that of a case. */
  lemma OpenShows(st: State, d: nat, behind: bool) returns (st': State)
    requires AtLine(st, d, behind) && !st.lookingForCaseBrace
    ensures Shows(st, L([OpenBrace]), [Edit(d)], st') && AtLine(st', d, false)
    ensures !st'.lookingForCaseBrace && st'.switchStack == st.switchStack && st'.switchDepth == st.switchDepth
    ensures st'.braceCount == st.braceCount + 1
    ensures st'.sw == st.sw.(switchBraceCount := st.sw.switchBraceCount + if st.switchDepth > 0 then 1 else 0)
  {
    hide Shows;
    LineShows(st, [OpenBrace]);
    RunOne(StartLine(st), OpenBrace);
    st' := EndLine(Step(StartLine(st), OpenBrace, false));
    assert st'.edits == Edit(d);
  }

  /** And the one that closes it. */
  lemma CloseShows(st: State, d: nat) returns (st': State)
    requires AtLine(st, d, false) && (st.switchDepth > 0 ==> st.sw.switchBraceCount > 1)
    ensures Shows(st, L([CloseBrace(true)]), [Edit(d)], st') && Matched(st')
    ensures st'.switchStack == st.switchStack && st'.switchDepth == st.switchDepth && !st'.unindentNextLine
    ensures st.switchDepth > 0 ==> !st'.lookingForCaseBrace
    ensures st.switchDepth == 0 ==> st'.lookingForCaseBrace == st.lookingForCaseBrace
    ensures st'.braceCount == st.braceCount - 1
    ensures st'.sw == st.sw.(switchBraceCount := st.sw.switchBraceCount - if st.switchDepth > 0 then 1 else 0)
  {
    hide Shows;
    LineShows(st, [CloseBrace(true)]);
    RunOne(StartLine(st), CloseBrace(true));
    st' := EndLine(Step(StartLine(st), CloseBrace(true), false));
    assert st'.edits == Edit(d);
  }

  /** Among the cases of a switch, `d` being the number of braced cases around the switch. */
  ghost predicate InCases(st: State, d: nat) {
    && Matched(st) && st.switchDepth > 0 && st.sw.switchBraceCount == 1 && !st.unindentNextLine
    && st.sw.unindentDepth == d + if st.sw.unindentCase then 1 else 0
  }

  ghost predicate SameSwitch(a: State, b: State) {
    b.switchStack == a.switchStack && b.switchDepth == a.switchDepth && b.braceCount == a.braceCount
  }

  /** The word `switch`, its condition and its brace. */
  lemma HeadShows(st: State, d: nat, behind: bool, attached: bool) returns (st': State)
    requires AtLine(st, d, behind)
    ensures Shows(st, SwitchHead(attached), if attached then [Edit(d)] else [Edit(d), Edit(d)], st')
    ensures InCases(st', d) && !st'.lookingForCaseBrace && !st'.sw.unindentCase
    ensures st'.switchStack == st.switchStack + [st.sw] && st'.switchDepth == st.switchDepth + 1
    ensures st'.braceCount == st.braceCount + 1
  {
    if attached {
      st' := AttachedHeadShows(st, d, behind);
    } else {
      hide Shows, L;
      var st1 := WordShows(st, d, behind);
      st' := SwitchBraceShows(st1, d);
      ShowsBoth(st, L([Switch, Other]), [Edit(d)], st1, L([OpenBrace]), [Edit(d)], st');
      assert [Edit(d)] + [Edit(d)] == [Edit(d), Edit(d)];
    }
  }

  lemma AttachedHeadShows(st: State, d: nat, behind: bool) returns (st': State)
    requires AtLine(st, d, behind)
    ensures Shows(st, L([Switch, Other, OpenBrace]), [Edit(d)], st')
    ensures InCases(st', d) && !st'.lookingForCaseBrace && !st'.sw.unindentCase
    ensures st'.switchStack == st.switchStack + [st.sw] && st'.switchDepth == st.switchDepth + 1
    ensures st'.braceCount == st.braceCount + 1
  {
    hide Shows;
    LineShows(st, [Switch, Other, OpenBrace]);
    var st0 := StartLine(st);
    RunThree(st0, Switch, Other, OpenBrace);
    var st1 := EnterSwitch(st0);
    var st2 := st1.(lookingForCaseBrace := false);
    assert Step(st1, Other, false) == st2;
    st' := EndLine(Step(st2, OpenBrace, false));
    assert st'.edits == Edit(d);
  }

  lemma WordShows(st: State, d: nat, behind: bool) returns (st': State)
    requires AtLine(st, d, behind)
    ensures Shows(st, L([Switch, Other]), [Edit(d)], st') && Matched(st')
    ensures !st'.lookingForCaseBrace && !st'.unindentNextLine
    ensures st'.sw == st.sw.(switchBraceCount := 0, unindentCase := false)
    ensures st'.switchStack == st.switchStack + [st.sw] && st'.switchDepth == st.switchDepth + 1
    ensures st'.braceCount == st.braceCount
  {
    hide Shows;
    LineShows(st, [Switch, Other]);
    var st0 := StartLine(st);
    RunTwo(st0, Switch, Other);
    st' := EndLine(Step(EnterSwitch(st0), Other, false));
    assert st'.edits == Edit(d);
  }

  lemma SwitchBraceShows(st: State, d: nat) returns (st': State)
    requires Matched(st) && st.switchDepth > 0 && !st.lookingForCaseBrace && !st.unindentNextLine
    requires st.sw.switchBraceCount == 0 && !st.sw.unindentCase && st.sw.unindentDepth == d
    ensures Shows(st, L([OpenBrace]), [Edit(d)], st')
    ensures InCases(st', d) && !st'.lookingForCaseBrace && !st'.sw.unindentCase
    ensures st'.switchStack == st.switchStack && st'.switchDepth == st.switchDepth
    ensures st'.braceCount == st.braceCount + 1
  {
    hide Shows;
    LineShows(st, [OpenBrace]);
    RunOne(StartLine(st), OpenBrace);
    st' := EndLine(Step(StartLine(st), OpenBrace, false));
    assert st'.edits == Edit(d);
  }

  /** The line of the closing brace of a switch goes with the switch, behind text with the text. */
  lemma SwitchEndShows(st: State, d: nat, alone: bool) returns (st': State)
    requires InCases(st, d) && st.switchStack[|st.switchStack| - 1].unindentDepth == d
    ensures Matched(st')
    ensures Shows(st, SwitchEnd(alone), [Edit(if alone || !st.sw.unindentCase then d else d + 1)], st')
    ensures var top := |st.switchStack| - 1;
            && st'.sw == st.switchStack[top] && st'.switchStack == st.switchStack[..top]
            && st'.switchDepth == st.switchDepth - 1 && st'.braceCount == st.braceCount - 1
            && !st'.lookingForCaseBrace && !st'.unindentNextLine
  {
    hide Shows;
    var st0 := StartLine(st);
    if alone {
      LineShows(st, [CloseBrace(true)]);
      RunOne(st0, CloseBrace(true));
      st' := EndLine(Step(st0, CloseBrace(true), false));
    } else {
      LineShows(st, [Other, CloseBrace(false)]);
      RunTwo(st0, Other, CloseBrace(false));
      var st1 := st0.(lookingForCaseBrace := false);
      assert Step(st0, Other, false) == st1;
      st' := EndLine(Step(st1, CloseBrace(false), false));
    }
    assert st'.edits == Edit(if alone || !st.sw.unindentCase then d else d + 1);
  }

  // Labels.

  /** A label that no brace follows. */
  lemma UnbracedShows(st: State, d: nat, text: bool) returns (st': State)
    requires InCases(st, d)
    ensures Shows(st, LabelText(Unbraced(text)), [Edit(d)], st')
    ensures InCases(st', d) && SameSwitch(st, st') && !st'.sw.unindentCase
    ensures st'.lookingForCaseBrace == !text
  {
    hide Shows;
    var ts := [CaseLabel(None)] + if text then [Other] else [];
    LineShows(st, ts);
    var st0 := StartLine(st);
    var st1 := CaseInSwitch(st0, None);
    assert Step(st0, CaseLabel(None), false) == st1;
    if text {
      assert ts == [CaseLabel(None), Other];
      RunTwo(st0, CaseLabel(None), Other);
      st' := EndLine(Step(st1, Other, false));
    } else {
      assert ts == [CaseLabel(None)];
      RunOne(st0, CaseLabel(None));
      st' := EndLine(st1);
    }
    assert st'.edits == Edit(d);
  }

  lemma OneLineShows(st: State, d: nat) returns (st': State)
    requires InCases(st, d)
    ensures Shows(st, LabelText(OneLineBlock), [Edit(d)], st')
    ensures InCases(st', d) && SameSwitch(st, st') && !st'.sw.unindentCase && !st'.lookingForCaseBrace
  {
    hide Shows;
    LineShows(st, [CaseLabel(Some(true)), Other, CloseBrace(false)]);
    var st0 := StartLine(st);
    RunThree(st0, CaseLabel(Some(true)), Other, CloseBrace(false));
    var st1 := CaseInSwitch(st0, Some(true));
    assert Step(st0, CaseLabel(Some(true)), false) == st1;
    assert Step(st1, Other, false) == st1;
    st' := EndLine(Step(st1, CloseBrace(false), false));
    assert st'.edits == Edit(d);
  }

  /** The brace of a case on the line after its label: it and what follows are unindented. */
  lemma CaseBraceShows(st: State, d: nat) returns (st': State)
    requires InCases(st, d) && st.lookingForCaseBrace && !st.sw.unindentCase
    ensures Shows(st, L([OpenBrace]), [Edit(d + 1)], st') && InCase(st', d) && st'.braceCount == st.braceCount + 1
    ensures st'.switchStack == st.switchStack && st'.switchDepth == st.switchDepth
  {
    hide Shows;
    LineShows(st, [OpenBrace]);
    RunOne(StartLine(st), OpenBrace);
    st' := EndLine(Step(StartLine(st), OpenBrace, false));
    assert st'.edits == Edit(d + 1);
  }

  /** Between the braces of a case. */
  ghost predicate InCase(st: State, d: nat) {
    && Matched(st) && st.switchDepth > 0 && st.sw == SwitchVariables(2, d + 1, true)
    && !st.lookingForCaseBrace && !st.unindentNextLine
  }

  /** With an attached brace this is so from the beginning of the next line. */
  lemma AttachedShows(st: State, d: nat) returns (st': State)
    requires InCases(st, d)
    ensures Shows(st, LabelText(BraceAttached), [Edit(d)], st') && Matched(st') && st'.switchDepth > 0
    ensures st'.sw == SwitchVariables(2, d, false) && !st'.lookingForCaseBrace && st'.unindentNextLine
    ensures st'.switchStack == st.switchStack && st'.switchDepth == st.switchDepth
    ensures st'.braceCount == st.braceCount + 1
  {
    hide Shows;
    LineShows(st, [CaseLabel(Some(false))]);
    var st0 := StartLine(st);
    RunOne(st0, CaseLabel(Some(false)));
    assert Step(st0, CaseLabel(Some(false)), false) == CaseInSwitch(st0, Some(false));
    st' := EndLine(CaseInSwitch(st0, Some(false)));
    assert st'.edits == Edit(d);
  }

  /** A pending unindent takes effect on whatever line comes next. */
  function Began(st: State): State {
    if !st.unindentNextLine then st
    else st.(sw := st.sw.(unindentDepth := st.sw.unindentDepth + 1, unindentCase := true), unindentNextLine := false)
  }

  lemma BeganShows(st: State, ts: seq<Token>, edits: seq<seq<int>>, st': State)
    requires Matched(st) && Shows(Began(st), ts, edits, st') && ts != [] && ts[0] == LineStart
    ensures Shows(st, ts, edits, st')
  {
    assert Step(st, LineStart, false) == Step(Began(st), LineStart, false);
  }

  lemma {:induction false} LinesBeginLines(ls: Lines, rest: seq<Token>)
    requires rest != [] && rest[0] == LineStart
    ensures var ts := LinesText(ls) + rest; ts != [] && ts[0] == LineStart
  {
    match ls
    case NoLines =>
    case LinesCons(first, _) => LineBegins(first);
  }

  lemma LineBegins(l: Line)
    ensures LineText(l) != [] && LineText(l)[0] == LineStart
  {
  }

  // Whole texts.

  lemma {:induction false} LinesShow(st: State, ls: Lines, d: nat, behind: bool) returns (st': State)
    requires AtLine(st, d, behind) && (behind ==> d > 0) && WellLaid(ls)
    requires st.lookingForCaseBrace ==> st.switchDepth > 0 && !StartsWithBlock(ls)
    ensures Shows(st, LinesText(ls), ExpectedLines(ls, d, behind), st') && SameAgain(st, st')
    decreases ls, 1
  {
    hide Shows, LineText, Expected;
    match ls
    case NoLines =>
      ShowsNothing(st);
      st' := st;
    case LinesCons(first, rest) =>
      var st1 := OneLineShown(st, first, d, behind);
      st' := LinesShow(st1, rest, d, behind);
      ShowsBoth(st, LineText(first), Expected(first, d, behind), st1,
                LinesText(rest), ExpectedLines(rest, d, behind), st');
  }

  lemma OneLineShown(st: State, l: Line, d: nat, behind: bool) returns (st': State)
    requires AtLine(st, d, behind) && (behind ==> d > 0) && LineWellLaid(l)
    requires st.lookingForCaseBrace ==> st.switchDepth > 0 && !l.BlockLines?
    ensures Shows(st, LineText(l), Expected(l, d, behind), st') && SameAgain(st, st')
    ensures !l.CommentLine? ==> !st'.lookingForCaseBrace
    decreases l, 0
  {
    hide Shows, L, SwitchHead, SwitchEnd, LinesText, CasesText, ExpectedLines, ExpectedCases;
    match l
    case Text => st' := TextShows(st, d, behind);
    case CommentLine => st' := CommentShows(st, d, behind);
    case BlockLines(lines) =>
      var st1 := OpenShows(st, d, behind);
      var st2 := LinesShow(st1, lines, d, false);
      st' := CloseShows(st2, d);
      ShowsBoth(st1, LinesText(lines), ExpectedLines(lines, d, false), st2, L([CloseBrace(true)]), [Edit(d)], st');
      ShowsBoth(st, L([OpenBrace]), [Edit(d)], st1,
                LinesText(lines) + L([CloseBrace(true)]), ExpectedLines(lines, d, false) + [Edit(d)], st');
    case SwitchLines(attached, cases, alone) =>
      var st1 := HeadShows(st, d, behind, attached);
      var st2 := CasesShow(st1, cases, d);
      assert st2.switchStack == st.switchStack + [st.sw];
      st' := SwitchEndShows(st2, d, alone);
      assert (st.switchStack + [st.sw])[..|st.switchStack|] == st.switchStack;
      var last := [Edit(if alone || !LastIsBraced(cases) then d else d + 1)];
      ShowsBoth(st1, CasesText(cases), ExpectedCases(cases, d), st2, SwitchEnd(alone), last, st');
      ShowsBoth(st, SwitchHead(attached), if attached then [Edit(d)] else [Edit(d), Edit(d)], st1,
                CasesText(cases) + SwitchEnd(alone), ExpectedCases(cases, d) + last, st');
  }

  lemma {:induction false} CasesShow(st: State, cs: Cases, d: nat) returns (st': State)
    requires InCases(st, d) && CasesWellLaid(cs)
    ensures Shows(st, CasesText(cs), ExpectedCases(cs, d), st') && InCases(st', d) && SameSwitch(st, st')
    ensures st'.sw.unindentCase == if cs.NoCases? then st.sw.unindentCase else LastIsBraced(cs)
    decreases cs, 1
  {
    hide Shows, L, LabelText, LinesText, ExpectedLines;
    match cs
    case NoCases =>
      ShowsNothing(st);
      st' := st;
    case CaseThen(style, inside, after, more) =>
      if IsBraced(style) {
        st' := BracedCaseShows(st, cs, d);
      } else {
        var st1;
        if style.Unbraced? {
          st1 := UnbracedShows(st, d, style.text);
        } else {
          st1 := OneLineShows(st, d);
        }
        var st2 := LinesShow(st1, after, d, false);
        st' := CasesShow(st2, more, d);
        ShowsBoth(st1, LinesText(after), ExpectedLines(after, d, false), st2,
                  CasesText(more), ExpectedCases(more, d), st');
        var ts, es := LinesText(after) + CasesText(more), ExpectedLines(after, d, false) + ExpectedCases(more, d);
        ShowsBoth(st, LabelText(style), [Edit(d)], st1, ts, es, st');
        assert [] + ts == ts && [] + es == es;
      }
  }

  lemma BracedCaseShows(st: State, cs: Cases, d: nat) returns (st': State)
    requires InCases(st, d) && CasesWellLaid(cs) && cs.CaseThen? && IsBraced(cs.style)
    ensures Shows(st, CasesText(cs), ExpectedCases(cs, d), st') && InCases(st', d) && SameSwitch(st, st')
    ensures st'.sw.unindentCase == if cs.NoCases? then st.sw.unindentCase else LastIsBraced(cs)
    decreases cs, 0
  {
    hide Shows, L, LabelText, LinesText, ExpectedLines;
    var CaseThen(style, inside, after, more) := cs;
    var head := if style == BraceBelow then [Edit(d), Edit(d + 1)] else [Edit(d)];
    var close, e1 := L([CloseBrace(true)]), ExpectedLines(inside, d + 1, false);
    var st1;
    if style == BraceBelow {
      st1 := BelowShows(st, d);
    } else {
      st1 := AttachedShows(st, d);
    }
    var st2 := LinesShow(Began(st1), inside, d + 1, false);
    var st3 := CloseShows(st2, d + 1);
    ShowsBoth(Began(st1), LinesText(inside), e1, st2, close, [Edit(d + 1)], st3);
    CloseBeginsLine();
    LinesBeginLines(inside, close);
    BeganShows(st1, LinesText(inside) + close, e1 + [Edit(d + 1)], st3);
    var st4 := LinesShow(st3, after, d + 1, true);
    st' := CasesShow(st4, more, d);
    var tail, e2 := LinesText(after) + CasesText(more), ExpectedLines(after, d + 1, true) + ExpectedCases(more, d);
    ShowsBoth(st3, LinesText(after), ExpectedLines(after, d + 1, true), st4,
              CasesText(more), ExpectedCases(more, d), st');
    ShowsBoth(st1, LinesText(inside) + close, e1 + [Edit(d + 1)], st3, tail, e2, st');
    ShowsBoth(st, LabelText(style), head, st1, LinesText(inside) + close + tail, e1 + [Edit(d + 1)] + e2, st');
  }

  lemma CloseBeginsLine()
    ensures L([CloseBrace(true)]) != [] && L([CloseBrace(true)])[0] == LineStart
  {
  }

  lemma BelowShows(st: State, d: nat) returns (st': State)
    requires InCases(st, d)
    ensures Shows(st, LabelText(BraceBelow), [Edit(d), Edit(d + 1)], st') && InCase(st', d)
    ensures st'.switchStack == st.switchStack && st'.switchDepth == st.switchDepth
    ensures st'.braceCount == st.braceCount + 1
  {
    hide Shows, L;
    var st1 := UnbracedShows(st, d, false);
    st' := CaseBraceShows(st1, d);
    assert [CaseLabel(None)] + [] == [CaseLabel(None)];
    ShowsBoth(st, L([CaseLabel(None)]), [Edit(d)], st1, L([OpenBrace]), [Edit(d + 1)], st');
    assert [Edit(d)] + [Edit(d + 1)] == [Edit(d), Edit(d + 1)];
  }

  /** A whole file: each line is unindented by the number of braced cases around it. */
  lemma FileShows(ls: Lines)
    requires WellLaid(ls)
    ensures Matched(INITIAL) && Observed(INITIAL, LinesText(ls)) == ExpectedLines(ls, 0, false)
  {
    var st' := LinesShow(INITIAL, ls, 0, false);
  }

  // ---------- The enhancer ----------

  class Enhancer {
    const caseIndent: bool
    const preprocDefineIndent: bool
    var sw: SwitchVariables
    var switchStack: seq<SwitchVariables>
    var switchDepth: int
    var braceCount: int
    var lookingForCaseBrace: bool
    var unindentNextLine: bool
    var shouldUnindentLine: bool
    var shouldUnindentComment: bool
    var edits: seq<int>

    ghost function Abs(): State
      reads this
    {
      State(sw, switchStack, switchDepth, braceCount, lookingForCaseBrace, unindentNextLine, shouldUnindentLine,
            shouldUnindentComment, edits)
    }

    constructor (caseIndent: bool, preprocDefineIndent: bool)
      ensures Abs() == INITIAL && Matched(Abs()) && Sound(Abs())
      ensures this.caseIndent == caseIndent && this.preprocDefineIndent == preprocDefineIndent
    {
      this.caseIndent, this.preprocDefineIndent := caseIndent, preprocDefineIndent;
      sw, switchStack := SwitchVariables(0, 0, false), [];
      switchDepth, braceCount, lookingForCaseBrace, unindentNextLine := 0, 0, false, false;
      shouldUnindentLine, shouldUnindentComment, edits := true, false, [];
    }

    method BeginLine()
      modifies this
      ensures Abs() == StartLine(old(Abs()))
    {
      shouldUnindentLine, shouldUnindentComment, edits := true, false, [];
      if unindentNextLine {
        sw := sw.(unindentDepth := sw.unindentDepth + 1);
        sw := sw.(unindentCase := true);
        unindentNextLine := false;
      }
    }

    method FinishLine()
      modifies this`edits
      ensures Abs() == EndLine(old(Abs()))
    {
      if shouldUnindentComment && sw.unindentDepth > 0 {
        UnindentLine(sw.unindentDepth - 1);
      } else if shouldUnindentLine && sw.unindentDepth > 0 {
        UnindentLine(sw.unindentDepth);
      }
    }

    /** The edit itself is recorded. */
    method UnindentLine(unindent: int)
      modifies this`edits
      ensures edits == old(edits) + [unindent]
    {
      edits := edits + [unindent];
    }

    method BeginSwitch()
      modifies this
      ensures Abs() == EnterSwitch(old(Abs()))
    {
      switchDepth := switchDepth + 1;
      switchStack := switchStack + [sw];
      sw := sw.(switchBraceCount := 0);
      sw := sw.(unindentCase := false);
    }

    method Parse(t: Token, isInPreprocessor: bool)
      requires Matched(Abs())
      modifies this
      ensures Matched(Abs()) && Abs() == Step(old(Abs()), t, caseIndent || (isInPreprocessor && !preprocDefineIndent))
      ensures old(Sound(Abs())) && !t.LineEnd? ==> Sound(Abs())
    {
      hide Sound, StartLine, EndLine, EnterSwitch, InSwitchBlock;
      StepKeepsMatched(Abs(), t, caseIndent || (isInPreprocessor && !preprocDefineIndent));
      if Sound(Abs()) && !t.LineEnd? {
        StepKeepsSound(Abs(), t, caseIndent || (isInPreprocessor && !preprocDefineIndent));
      }
      ParseToken(t, isInPreprocessor);
    }

    method ParseToken(t: Token, isInPreprocessor: bool)
      requires Matched(Abs())
      modifies this
      ensures Abs() == Step(old(Abs()), t, caseIndent || (isInPreprocessor && !preprocDefineIndent))
    {
      hide StartLine, EndLine, EnterSwitch, InSwitchBlock;
      if t.LineStart? {
        BeginLine();
        return;
      } else if t.LineEnd? {
        FinishLine();
        return;
      } else if t.Comment? {
        // unindent if not in case braces
        if t.applies && sw.switchBraceCount == 1 && sw.unindentCase {
          shouldUnindentComment := true;
        }
        return;
      }
      if t.OpenBrace? {
        braceCount := braceCount + 1;
      }
      if t.CloseBrace? {
        braceCount := braceCount - 1;
      }
      if t.Switch? {
        BeginSwitch();
        return;
      }
      if caseIndent || switchDepth == 0 || (isInPreprocessor && !preprocDefineIndent) {
        if t.CaseLabel? && t.oneLineBrace.Some? {
          // the brace behind the label is met like any other
          braceCount := braceCount + 1;
        }
        return;
      }
      ProcessSwitchBlock(t);
    }

    method ProcessSwitchBlock(t: Token)
      requires Matched(Abs()) && switchDepth > 0 && !NeverBypassed(t)
      modifies this
      ensures Abs() == InSwitchBlock(old(Abs()), t)
    {
      hide LeaveSwitch;
      if t.OpenBrace? {
        sw := sw.(switchBraceCount := sw.switchBraceCount + 1);
        if lookingForCaseBrace {
          // the first brace after a case statement
          sw := sw.(unindentCase := true);
          sw := sw.(unindentDepth := sw.unindentDepth + 1);
          lookingForCaseBrace := false;
        }
        return;
      }
      lookingForCaseBrace := false;
      if t.CloseBrace? {
        if sw.switchBraceCount == 1 {
          LeaveStopsLooking(old(Abs()), t.first);
          EndSwitch(t.first);
          return;
        }
        sw := sw.(switchBraceCount := sw.switchBraceCount - 1);
        return;
      }
      if t.CaseLabel? {
        MeetCase(t.oneLineBrace);
      }
    }

    /** The end of the switch statement. */
    method EndSwitch(first: bool)
      requires Matched(Abs()) && switchDepth > 0
      modifies this
      ensures Abs() == LeaveSwitch(old(Abs()), first)
    {
      lookingForCaseBrace := false;
      var lineUnindent := sw.unindentDepth;
      if first && switchStack != [] {
        lineUnindent := switchStack[|switchStack| - 1].unindentDepth;
      }
      if shouldUnindentLine {
        if lineUnindent > 0 {
          UnindentLine(lineUnindent);
        }
        shouldUnindentLine := false;
      }
      switchDepth := switchDepth - 1;
      sw := switchStack[|switchStack| - 1];
      switchStack := switchStack[..|switchStack| - 1];
    }

    /** A `case` or `default`, and the brace behind it. */
    method MeetCase(oneLineBrace: Option<bool>)
      requires !lookingForCaseBrace
      modifies this
      ensures Abs() == CaseInSwitch(old(Abs()), oneLineBrace)
    {
      if sw.unindentCase {
        sw := sw.(unindentCase := false);
        sw := sw.(unindentDepth := sw.unindentDepth - 1);
      }
      if oneLineBrace.Some? {
        braceCount := braceCount + 1;
        sw := sw.(switchBraceCount := sw.switchBraceCount + 1);
        if !oneLineBrace.value {
          unindentNextLine := true;
        }
        return;
      }
      lookingForCaseBrace := true;
    }

    /** A whole file: the unindents of each line, which are the numbers of braced cases around it. */
    method EnhanceFile(tokens: seq<Token>, ghost ls: Lines) returns (shown: seq<seq<int>>)
      requires Abs() == INITIAL && !caseIndent && WellLaid(ls) && tokens == LinesText(ls)
      modifies this
      ensures shown == ExpectedLines(ls, 0, false)
    {
      hide Step, LinesText, ExpectedLines;
      shown := [];
      FileShows(ls);
      for i := 0 to |tokens|
        invariant Matched(Abs()) && shown + Observed(Abs(), tokens[i..]) == Observed(INITIAL, tokens)
      {
        assert tokens[i..][1..] == tokens[i + 1..];
        ghost var before := Abs();
        Parse(tokens[i], false);
        Append3(shown, if tokens[i].LineEnd? then [edits] else [], Observed(Abs(), tokens[i + 1..]));
        assert shown + [] == shown;
        if tokens[i].LineEnd? {
          shown := shown + [edits];
        }
      }
      assert tokens[|tokens|..] == [];
    }

    /** A switch statement, with any tokens on preprocessor lines among its own. */
    method ParseSwitchStatement(es: seq<Event>, ghost s: Item)
      requires Matched(Abs()) && !caseIndent && !preprocDefineIndent
      requires s.SwitchStatement? && Effective(es) == Tokens(s)
      modifies this
      ensures sw == old(sw) && switchStack == old(switchStack) && switchDepth == old(switchDepth) && Matched(Abs())
      ensures braceCount == old(braceCount) <==> BypassedBraces(es) == 0
    {
      hide Step, Tokens, Effective, BypassedBraces;
      for i := 0 to |es|
        invariant Matched(Abs()) && RunEvents(Abs(), es[i..]) == RunEvents(old(Abs()), es)
      {
        assert es[i..][1..] == es[i + 1..];
        Parse(es[i].token, es[i].bypass);
      }
      assert es[|es|..] == [];
      MixedRestores(old(Abs()), es, s);
    }
  }
}
