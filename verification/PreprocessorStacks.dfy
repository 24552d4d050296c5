/**
  Conditional compilation in the beautifier.

  At an `#if` the beautifier saves a clone of whatever beautifier is in charge on a
  "waiting" stack.  An `#elif` puts a copy of that clone on the "active" stack, an `#else`
  moves it there, and an `#endif` cuts both stacks back to the lengths they had at the `#if`.
  Ordinary lines go to the top of the active stack, or to the original beautifier when that
  stack is empty.

  What a line does to a beautifier's indentation state is an arbitrary function `step`, so
  that the results hold whatever the indentation rules are.
*/
module PreprocessorStacks {

  datatype SourceLine<L> = Text(line: L) | If | Elif | Else | EndIf

  type LineStep<!S, !L, O> = (S, L) -> (S, O)

  // ---------- The stacks as values ----------

  datatype Stacks<S> = Stacks(
    own: S,
    waiting: seq<S>,
    active: seq<S>,
    waitingLengths: seq<nat>,
    activeLengths: seq<nat>)
  {
    function InCharge(): S {
      if active == [] then own else active[|active| - 1]
    }

    function WithInCharge(s: S): Stacks<S> {
      if active == [] then this.(own := s) else this.(active := active[..|active| - 1] + [s])
    }
  }

  function CutTo<T>(s: seq<T>, n: nat): seq<T> {
    if |s| > n then s[..n] else s
  }

  function StepIf<S>(st: Stacks<S>): Stacks<S> {
    st.(waiting := st.waiting + [st.InCharge()],
        waitingLengths := st.waitingLengths + [|st.waiting|],
        activeLengths := st.activeLengths + [|st.active|])
  }

  function StepEndIf<S>(st: Stacks<S>): Stacks<S> {
    var w, a := |st.waitingLengths|, |st.activeLengths|;
    var st1 := if w == 0 then st else
      st.(waiting := CutTo(st.waiting, st.waitingLengths[w - 1]), waitingLengths := st.waitingLengths[..w - 1]);
    if a == 0 then st1 else
      st1.(active := CutTo(st.active, st.activeLengths[a - 1]), activeLengths := st.activeLengths[..a - 1])
  }

  /** What one source line does to the stacks, and the indented lines it produces. */
  function Step<S, L, O>(step: LineStep<S, L, O>, st: Stacks<S>, line: SourceLine<L>): (Stacks<S>, seq<O>) {
    var top := |st.waiting| - 1;
    match line
    case Text(l) => var (s, o) := step(st.InCharge(), l); (st.WithInCharge(s), [o])
    case If => (StepIf(st), [])
    case Elif => (if top < 0 then st else st.(active := st.active + [st.waiting[top]]), [])
    case Else =>
      (if top < 0 then st else
         st.(active := st.active + [st.waiting[top]], waiting := st.waiting[..top]), [])
    case EndIf => (StepEndIf(st), [])
  }

  function Run<S, L, O>(step: LineStep<S, L, O>, st: Stacks<S>, lines: seq<SourceLine<L>>): (Stacks<S>, seq<O>)
    decreases |lines|
  {
    if lines == [] then (st, [])
    else
      var (st1, o1) := Step(step, st, lines[0]);
      var (st2, o2) := Run(step, st1, lines[1..]);
      (st2, o1 + o2)
  }

  // ---------- Conditional trees and what they mean ----------

  datatype Block<L> = Empty | Then(head: Item<L>, tail: Block<L>)
  datatype Item<L> = Line(line: L) | Conditional(first: Block<L>, rest: Branches<L>)
  datatype Branches<L> = NoMore | ElifBranch(body: Block<L>, more: Branches<L>) | ElseBranch(last: Block<L>)

  function Flatten<L>(b: Block<L>): seq<SourceLine<L>> {
    match b
    case Empty => []
    case Then(head, tail) => FlattenItem(head) + Flatten(tail)
  }

  function FlattenItem<L>(i: Item<L>): seq<SourceLine<L>> {
    match i
    case Line(l) => [Text(l)]
    case Conditional(first, rest) => [If] + (Flatten(first) + FlattenBranches(rest))
  }

  function FlattenBranches<L>(r: Branches<L>): seq<SourceLine<L>> {
    match r
    case NoMore => [EndIf]
    case ElifBranch(body, more) => [Elif] + (Flatten(body) + FlattenBranches(more))
    case ElseBranch(body) => [Else] + (Flatten(body) + [EndIf])
  }

  /** The recursive meaning: every branch starts from the state at its `#if`; the first one goes on. */
  function Meaning<S, L, O>(step: LineStep<S, L, O>, b: Block<L>, s: S): (S, seq<O>) {
    match b
    case Empty => (s, [])
    case Then(head, tail) =>
      var (s1, o1) := ItemMeaning(step, head, s);
      var (s2, o2) := Meaning(step, tail, s1);
      (s2, o1 + o2)
  }

  function ItemMeaning<S, L, O>(step: LineStep<S, L, O>, i: Item<L>, s: S): (S, seq<O>) {
    match i
    case Line(l) => var (s1, o) := step(s, l); (s1, [o])
    case Conditional(first, rest) =>
      var (s1, o) := Meaning(step, first, s);
      (s1, o + BranchOutputs(step, rest, s))
  }

  function BranchOutputs<S, L, O>(step: LineStep<S, L, O>, r: Branches<L>, snapshot: S): seq<O> {
    match r
    case NoMore => []
    case ElifBranch(body, more) => Meaning(step, body, snapshot).1 + BranchOutputs(step, more, snapshot)
    case ElseBranch(body) => Meaning(step, body, snapshot).1
  }

  // ---------- Directives that do not match ----------

  /** With no snapshot waiting and no length remembered nothing but a line and an `#if` does anything. */
  lemma {:induction false} StrayDirectives<S, L, O>(step: LineStep<S, L, O>, st: Stacks<S>, lines: seq<SourceLine<L>>)
    requires st.waiting == [] && st.waitingLengths == [] && st.activeLengths == []
    requires forall k :: 0 <= k < |lines| ==> lines[k] in {Elif, Else, EndIf}
    ensures Run(step, st, lines) == (st, [])
    decreases |lines|
  {
    if lines != [] {
      var nothing: seq<O> := [];
      assert lines[0] in {Elif, Else, EndIf} && nothing + nothing == nothing;
      assert Step(step, st, lines[0]) == (st, nothing);
      StrayDirectives(step, st, lines[1..]);
    }
  }

  /** The snapshot is gone after the `#else`: a further branch starts from the one of the `#if` around it. */
  lemma BranchAfterElse<S, L, O>(step: LineStep<S, L, O>, st: Stacks<S>, body: Block<L>, line: SourceLine<L>)
    requires line == Elif || line == Else
    ensures var (after, _) := Run(step, st, [If, Else] + (Flatten(body) + [line]));
            after.InCharge() == if st.waiting == [] then Meaning(step, body, st.InCharge()).0
                                else st.waiting[|st.waiting| - 1]
  {
    hide Run, Meaning, Flatten;
    var open := Step(step, Step(step, st, If).0, Else).0;
    assert open == StepIf(st).(waiting := st.waiting, active := st.active + [st.InCharge()]);
    RunOne(step, st, If);
    RunOne(step, Step(step, st, If).0, Else);
    RunAppend(step, st, [If], [Else]);
    var head: seq<SourceLine<L>> := [If, Else];
    assert [If] + [Else] == head;
    RunAppend(step, st, [If, Else], Flatten(body) + [line]);
    RunAppend(step, open, Flatten(body), [line]);
    MachineRefinesTree(step, open, body);
    var done := open.WithInCharge(Meaning(step, body, open.InCharge()).0);
    InChargeLaws(open, Meaning(step, body, open.InCharge()).0, st.own);
    RunOne(step, done, line);
    assert Run(step, st, head + (Flatten(body) + [line])).0 == Step(step, done, line).0;
  }

  // ---------- The stack machine refines the recursive meaning ----------

  lemma {:induction false} RunAppend<S, L, O>(
    step: LineStep<S, L, O>, st: Stacks<S>, a: seq<SourceLine<L>>, b: seq<SourceLine<L>>)
    ensures var (st1, o1) := Run(step, st, a);
            var (st2, o2) := Run(step, st1, b);
            Run(step, st, a + b) == (st2, o1 + o2)
    decreases |a|
  {
    hide Step;
    if a == [] {
      assert a + b == b;
      assert [] + Run(step, st, b).1 == Run(step, st, b).1;
    } else {
      var (st1, o1) := Step(step, st, a[0]);
      RunAppend(step, st1, a[1..], b);
      assert (a + b)[1..] == a[1..] + b;
      var (st2, o2) := Run(step, st1, a[1..]);
      var o3 := Run(step, st2, b).1;
      assert o1 + (o2 + o3) == (o1 + o2) + o3;
    }
  }

  lemma RunOne<S, L, O>(step: LineStep<S, L, O>, st: Stacks<S>, line: SourceLine<L>)
    ensures Run(step, st, [line]) == Step(step, st, line)
  {
    var (st1, o) := Step(step, st, line);
    assert Run(step, st1, []) == (st1, []);
    assert o + [] == o;
  }

  lemma InChargeLaws<S>(st: Stacks<S>, s1: S, s2: S)
    ensures st.WithInCharge(st.InCharge()) == st
    ensures st.WithInCharge(s1).InCharge() == s1
    ensures st.WithInCharge(s1).WithInCharge(s2) == st.WithInCharge(s2)
  {
    if st.active != [] {
      var n := |st.active| - 1;
      assert st.active[..n] + [st.active[n]] == st.active;
      assert (st.active[..n] + [s1])[..n] == st.active[..n];
    }
  }

  /**
    For every conditional tree and from any stacks whatsoever, running the flattened lines
    changes nothing but the state in charge, which becomes what the recursive meaning says,
    and yields the outputs of the recursive meaning in order.
  */
  lemma {:induction false} MachineRefinesTree<S, L, O>(step: LineStep<S, L, O>, st: Stacks<S>, b: Block<L>)
    ensures var (s, o) := Meaning(step, b, st.InCharge());
            Run(step, st, Flatten(b)) == (st.WithInCharge(s), o)
    decreases b
  {
    match b
    case Empty => InChargeLaws(st, st.own, st.own);
    case Then(head, tail) =>
      var (s1, o1) := ItemMeaning(step, head, st.InCharge());
      ItemRefines(step, st, head);
      var s2 := Meaning(step, tail, s1).0;
      InChargeLaws(st, s1, s2);
      MachineRefinesTree(step, st.WithInCharge(s1), tail);
      RunAppend(step, st, FlattenItem(head), Flatten(tail));
  }

  lemma {:induction false} ItemRefines<S, L, O>(step: LineStep<S, L, O>, st: Stacks<S>, i: Item<L>)
    ensures var (s, o) := ItemMeaning(step, i, st.InCharge());
            Run(step, st, FlattenItem(i)) == (st.WithInCharge(s), o)
    decreases i
  {
    match i
    case Line(l) => RunOne(step, st, Text(l));
    case Conditional(first, rest) =>
      var snapshot := st.InCharge();
      var s1 := Meaning(step, first, snapshot).0;
      var inside := StepIf(st);
      RunOne(step, st, SourceLine<L>.If);
      MachineRefinesTree(step, inside, first);
      var st1 := st.WithInCharge(s1);
      assert inside.WithInCharge(s1) == Opened(st1, snapshot, []) by {
        assert st1.active + [] == st1.active;
      }
      BranchesStartFromSnapshot(step, st1, snapshot, [], rest);
      RunAppend(step, inside, Flatten(first), FlattenBranches(rest));
      var body := Flatten(first) + FlattenBranches(rest);
      RunAppend(step, st, [If], body);
      assert [] + Run(step, inside, body).1 == Run(step, inside, body).1;
  }

  /** Inside an open conditional: `extra` are the clones of the branches already taken. */
  ghost function Opened<S>(st: Stacks<S>, snapshot: S, extra: seq<S>): Stacks<S> {
    Stacks(st.own, st.waiting + [snapshot], st.active + extra,
           st.waitingLengths + [|st.waiting|], st.activeLengths + [|st.active|])
  }

  lemma {:induction false} BranchesStartFromSnapshot<S, L, O>(
    step: LineStep<S, L, O>, st: Stacks<S>, snapshot: S, extra: seq<S>, r: Branches<L>)
    ensures Run(step, Opened(st, snapshot, extra), FlattenBranches(r)) == (st, BranchOutputs(step, r, snapshot))
    decreases r
  {
    var open := Opened(st, snapshot, extra);
    match r
    case NoMore =>
      RunOne(step, open, SourceLine<L>.EndIf);
      ClosingRestores(st, snapshot, extra);
    case ElifBranch(body, more) =>
      var st1 := Opened(st, snapshot, extra + [snapshot]);
      RunOne(step, open, SourceLine<L>.Elif);
      PushExtra(st, snapshot, extra, snapshot);
      MachineRefinesTree(step, st1, body);
      var s := Meaning(step, body, snapshot).0;
      PushExtra(st, snapshot, extra, s);
      BranchesStartFromSnapshot(step, st, snapshot, extra + [s], more);
      RunAppend(step, st1, Flatten(body), FlattenBranches(more));
      var lines := Flatten(body) + FlattenBranches(more);
      RunAppend(step, open, [Elif], lines);
      assert [] + Run(step, st1, lines).1 == Run(step, st1, lines).1;
    case ElseBranch(body) =>
      var st1 := Opened(st, snapshot, extra + [snapshot]).(waiting := st.waiting);
      RunOne(step, open, SourceLine<L>.Else);
      PushExtra(st, snapshot, extra, snapshot);
      MachineRefinesTree(step, st1, body);
      var s := Meaning(step, body, snapshot).0;
      PushExtra(st, snapshot, extra, s);
      var st2 := Opened(st, snapshot, extra + [s]).(waiting := st.waiting);
      RunOne(step, st2, SourceLine<L>.EndIf);
      ClosingRestores(st, snapshot, extra + [s]);
      RunAppend(step, st1, Flatten(body), [EndIf]);
      var lines := Flatten(body) + [EndIf];
      RunAppend(step, open, [Else], lines);
      var o := Meaning(step, body, snapshot).1;
      assert [] + (o + []) == o;
  }

  lemma PushExtra<S>(st: Stacks<S>, snapshot: S, extra: seq<S>, s: S)
    ensures var open := Opened(st, snapshot, extra);
            open.active + [s] == st.active + (extra + [s])
            && open.waiting[..|open.waiting| - 1] == st.waiting
            && Opened(st, snapshot, extra + [snapshot]).active[..|st.active + extra|] == open.active
            && open.waiting[|open.waiting| - 1] == snapshot
  {
  }

  lemma ClosingRestores<S>(st: Stacks<S>, snapshot: S, extra: seq<S>)
    ensures StepEndIf(Opened(st, snapshot, extra)) == st
    ensures StepEndIf(Opened(st, snapshot, extra).(waiting := st.waiting)) == st
  {
    assert (st.waiting + [snapshot])[..|st.waiting|] == st.waiting;
    assert (st.active + extra)[..|st.active|] == st.active;
    assert extra == [] ==> st.active + extra == st.active;
  }

  // ---------- The beautifier objects ----------

  /** A cloned beautifier: the stacks hold references to these. */
  class Clone<S> {
    var state: S

    constructor (state: S)
      ensures this.state == state
    {
      this.state := state;
    }
  }

  class Beautifier<S, L, O> {
    const step: LineStep<S, L, O>
    var own: S
    var waiting: seq<Clone<S>>
    var active: seq<Clone<S>>
    var waitingLengths: seq<nat>
    var activeLengths: seq<nat>

    /** No clone is on the stacks twice: work on one branch cannot leak into another. */
    ghost predicate Valid()
      reads this
    {
      && Distinct(waiting) && Distinct(active)
      && forall c :: c in waiting ==> c !in active
    }

    static ghost predicate Distinct(clones: seq<Clone<S>>) {
      forall i, j :: 0 <= i < j < |clones| ==> clones[i] != clones[j]
    }

    static ghost function States(clones: seq<Clone<S>>): seq<S>
      reads clones
    {
      seq(|clones|, i requires 0 <= i < |clones| reads clones => clones[i].state)
    }

    ghost function Abs(): Stacks<S>
      reads this, waiting, active
    {
      Stacks(own, States(waiting), States(active), waitingLengths, activeLengths)
    }

    ghost function Clones(): set<Clone<S>>
      reads this
    {
      (set c | c in waiting) + (set c | c in active)
    }

    constructor (step: LineStep<S, L, O>, initial: S)
      ensures Valid() && this.step == step
      ensures Abs() == Stacks(initial, [], [], [], [])
    {
      this.step := step;
      own, waiting, active, waitingLengths, activeLengths := initial, [], [], [], [];
    }

    method PopWaitingTo(n: nat)
      requires Valid()
      modifies this`waiting
      ensures Valid() && waiting == CutTo(old(waiting), n)
    {
      while |waiting| > n
        invariant waiting <= old(waiting) && (|old(waiting)| > n ==> |waiting| >= n)
        invariant |old(waiting)| <= n ==> waiting == old(waiting)
      {
        waiting := waiting[..|waiting| - 1];
      }
    }

    method PopActiveTo(n: nat)
      requires Valid()
      modifies this`active
      ensures Valid() && active == CutTo(old(active), n)
    {
      while |active| > n
        invariant active <= old(active) && (|old(active)| > n ==> |active| >= n)
        invariant |old(active)| <= n ==> active == old(active)
      {
        active := active[..|active| - 1];
      }
    }

    method OpenConditional()
      requires Valid()
      modifies this
      ensures Valid()
      ensures Abs() == StepIf(old(Abs()))
      ensures fresh(Clones() - old(Clones()))
    {
      waitingLengths := waitingLengths + [|waiting|];
      activeLengths := activeLengths + [|active|];
      var saved := if activeLengths[|activeLengths| - 1] == 0 then own else active[|active| - 1].state;
      var clone := new Clone(saved);
      assert clone !in waiting && clone !in active;
      waiting := waiting + [clone];
      assert States(waiting) == old(States(waiting)) + [saved];
    }

    method OpenElif()
      requires Valid()
      modifies this
      ensures Valid()
      ensures Abs() == Step(step, old(Abs()), Elif).0
      ensures waiting == old(waiting)
      ensures fresh(Clones() - old(Clones()))
    {
      if waiting != [] {
        var saved := waiting[|waiting| - 1].state;
        var copy := new Clone(saved);
        assert copy !in waiting && copy !in active;
        active := active + [copy];
        assert States(active) == old(States(active)) + [saved];
      }
    }

    method OpenElse()
      requires Valid()
      modifies this
      ensures Valid()
      ensures Abs() == Step(step, old(Abs()), Else).0
      ensures Clones() <= old(Clones())
    {
      if waiting != [] {
        var saved := waiting[|waiting| - 1];
        assert saved in waiting;
        active := active + [saved];
        waiting := waiting[..|waiting| - 1];
        assert States(active) == old(States(active)) + [saved.state];
        assert States(waiting) == old(States(waiting))[..|waiting|];
      }
    }

    method CloseConditional()
      requires Valid()
      modifies this
      ensures Valid()
      ensures Abs() == StepEndIf(old(Abs()))
      ensures Clones() <= old(Clones())
    {
      if waitingLengths != [] {
        var stackLength := waitingLengths[|waitingLengths| - 1];
        waitingLengths := waitingLengths[..|waitingLengths| - 1];
        PopWaitingTo(stackLength);
      }
      assert States(waiting) == StepEndIf(old(Abs())).waiting;
      if activeLengths != [] {
        var stackLength := activeLengths[|activeLengths| - 1];
        activeLengths := activeLengths[..|activeLengths| - 1];
        PopActiveTo(stackLength);
      }
      assert States(active) == StepEndIf(old(Abs())).active;
    }

    method ProcessPreprocessor(line: SourceLine<L>)
      requires Valid() && !line.Text?
      modifies this
      ensures Valid()
      ensures Abs() == Step(step, old(Abs()), line).0
      ensures fresh(Clones() - old(Clones()))
    {
      match line
      case If => OpenConditional();
      case Elif => OpenElif();
      case Else => OpenElse();
      case EndIf => CloseConditional();
    }

    method Beautify(line: SourceLine<L>) returns (indented: seq<O>)
      requires Valid()
      modifies this, Clones()
      ensures Valid()
      ensures (Abs(), indented) == Step(step, old(Abs()), line)
      ensures fresh(Clones() - old(Clones()))
    {
      if !line.Text? {
        ProcessPreprocessor(line);
        return [];
      }
      if active != [] {
        var worker := active[|active| - 1];
        var (s, o) := step(worker.state, line.line);
        worker.state := s;
        assert worker in active;
        assert States(waiting) == old(States(waiting));
        assert States(active) == old(States(active))[..|active| - 1] + [s];
        indented := [o];
      } else {
        var (s, o) := step(own, line.line);
        own := s;
        indented := [o];
      }
    }

    /** A whole file: the outputs and the final stacks are those of `Run`. */
    method BeautifyAll(lines: seq<SourceLine<L>>) returns (indented: seq<O>)
      requires Valid()
      modifies this, Clones()
      ensures Valid()
      ensures (Abs(), indented) == Run(step, old(Abs()), lines)
    {
      indented := [];
      for k := 0 to |lines|
        invariant Valid()
        invariant fresh(Clones() - old(Clones()))
        invariant (Abs(), indented) == Run(step, old(Abs()), lines[..k])
      {
        ghost var before := Abs();
        var o := Beautify(lines[k]);
        RunAppend(step, old(Abs()), lines[..k], [lines[k]]);
        RunOne(step, before, lines[k]);
        assert lines[..k + 1] == lines[..k] + [lines[k]];
        indented := indented + o;
      }
      assert lines[..|lines|] == lines;
    }
  }
}
